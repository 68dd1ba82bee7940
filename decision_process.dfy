/** The decision engine of `process/decision.py`: which instances are candidates
    for recycling, which single action comes next, and how the cluster status and
    the outcome are reported. Terminal colours are kept as style tags. */
module DecisionProcess {
  import opened Wrappers
  import Seqs
  import Strs
  import opened Instances
  import opened Decisions
  import opened MongoWorld

  /** The states whose instances are ever recycled. */
  const CandidateStates: set<string> := {"PRIMARY", "SECONDARY"}

  /** An instance `find_candidates` keeps: in a candidate state and not on the
      target image. */
  predicate IsCandidate(instance: Instance, targetAmi: string) {
    instance.imageId != targetAmi && instance.mongoState in CandidateStates
  }

  function Candidate(targetAmi: string): Instance -> bool {
    (i: Instance) => IsCandidate(i, targetAmi)
  }

  /** A candidate in the given state. */
  function StaleIn(targetAmi: string, mongoState: string): Instance -> bool {
    (i: Instance) => IsCandidate(i, targetAmi) && i.mongoState == mongoState
  }

  /** The terminal styles of the `colors` package that the reports use. */
  datatype Style = Faint | Green | Red | Yellow | Bold

  /** A text as the terminal shows it: the styles applied, outermost first. */
  datatype Painted = Painted(styles: seq<Style>, text: string)

  /** `choose_color(instance, target_ami)`: faint for an instance that is never
      recycled, green for one already on the target image, red for a candidate. */
  function ChooseColour(instance: Instance, targetAmi: string): (c: Style)
    ensures c == Red <==> IsCandidate(instance, targetAmi)
    ensures c == Faint <==> instance.mongoState !in CandidateStates
    ensures c == Green <==> instance.mongoState in CandidateStates && instance.imageId == targetAmi
  {
    if instance.mongoState !in CandidateStates then Faint
    else if instance.imageId == targetAmi then Green
    else Red
  }

  /** `instance_to_string(instance)`: "id | state | ip | image". */
  function InstanceToString(instance: Instance): string {
    instance.instanceId + (" | " + (instance.mongoState + (" | " + (instance.ipAddress + (" | " + instance.imageId)))))
  }

  /** When no field holds a '|', the line splits on '|' back into the id, state,
      IP address and image id, in that order, each padded by the separator's spaces. */
  lemma InstanceToStringFields(instance: Instance)
    requires '|' !in instance.instanceId && '|' !in instance.mongoState
    requires '|' !in instance.ipAddress && '|' !in instance.imageId
    ensures Strs.Split(InstanceToString(instance), '|') ==
            [instance.instanceId + " ", " " + instance.mongoState + " ",
             " " + instance.ipAddress + " ", " " + instance.imageId]
  {
    var id, st, ip, im := instance.instanceId, instance.mongoState, instance.ipAddress, instance.imageId;
    var r2 := ip + (" | " + im);
    var r1 := st + (" | " + r2);
    var p3 := Strs.Split(" " + im, '|');
    var p2 := Strs.Split(" " + r2, '|');
    var p1 := Strs.Split(" " + r1, '|');
    assert p3 == [" " + im] by {
      Strs.SplitNone(" " + im, '|');
    }
    assert p2 == [" " + ip + " "] + p3 by {
      AppendAssoc(" ", ip, " | " + im);
      SplitField(" " + ip, im);
    }
    assert p1 == [" " + st + " "] + p2 by {
      AppendAssoc(" ", st, " | " + r2);
      SplitField(" " + st, r2);
    }
    assert Strs.Split(InstanceToString(instance), '|') == [id + " "] + p1 by {
      SplitField(id, r1);
    }
  }

  /** One field of an `instance_to_string` line and its separator. */
  lemma SplitField(x: string, rest: string)
    requires '|' !in x
    ensures Strs.Split(x + (" | " + rest), '|') == [x + " "] + Strs.Split(" " + rest, '|')
  {
    assert x + (" | " + rest) == (x + " ") + ['|'] + (" " + rest);
    Strs.SplitAt(x + " ", '|', " " + rest);
  }

  /** `report_cluster_status(instances, target_ami)`: one line per instance, in
      order, coloured by `choose_color`. The lines are returned as a sequence;
      their `"\n".join` into one text is not modelled. */
  function ReportClusterStatus(instances: seq<Instance>, targetAmi: string): (lines: seq<Painted>)
    ensures |lines| == |instances|
    ensures forall k :: 0 <= k < |instances| ==>
              lines[k] == Painted([ChooseColour(instances[k], targetAmi)], InstanceToString(instances[k]))
  {
    seq(|instances|, k requires 0 <= k < |instances| =>
      Painted([ChooseColour(instances[k], targetAmi)], InstanceToString(instances[k])))
  }

  /** `report_outcome(decision)`: "ACTION : instance-id" in yellow (bold as well
      for a primary step-down), or a bold green "DONE" that never looks at the
      instance. A non-DONE decision without an instance raises AttributeError. */
  function ReportOutcome(decision: Decision): (r: Result<Painted, Error>)
    ensures r.Failure? <==> decision.action != Done && decision.instance.None?
    ensures r.Failure? ==> r.error == AttributeError
    ensures decision.action == Done ==> r == Success(Painted([Bold, Green], "DONE"))
    ensures r.Success? && decision.action != Done ==>
              r.value.text == ActionName(decision.action) + " : " + decision.instance.value.instanceId
    ensures decision.action == RecycleSecondary && r.Success? ==> r.value.styles == [Yellow]
    ensures decision.action == StepDownAndRecyclePrimary && r.Success? ==> r.value.styles == [Bold, Yellow]
  {
    match decision.action
    case Done => Success(Painted([Bold, Green], ActionName(Done)))
    case _ =>
      if decision.instance.None? then Failure(AttributeError)
      else
        var text := ActionName(decision.action) + " : " + decision.instance.value.instanceId;
        if decision.action == StepDownAndRecyclePrimary then Success(Painted([Bold, Yellow], text))
        else Success(Painted([Yellow], text))
  }

  /** The outcome text names the action before its first " : ", and the instance
      id after it. */
  lemma ReportOutcomeReadsBack(decision: Decision)
    requires decision.action != Done && decision.instance.Some?
    ensures var text := ReportOutcome(decision).value.text;
      Strs.BeforeFirst(text, " : ") == ActionName(decision.action) &&
      text[|ActionName(decision.action)| + 3..] == decision.instance.value.instanceId
  {
    var name := ActionName(decision.action);
    var id := decision.instance.value.instanceId;
    assert ReportOutcome(decision).value.text == name + " : " + id;
    Strs.BeforeFirstAt(name, " : ", id);
  }

  /** `find_candidates(instances, target_ami)`: the PRIMARY and SECONDARY
      instances not on the target image, in input order. */
  function FindCandidates(instances: seq<Instance>, targetAmi: string): (r: seq<Instance>)
    ensures |r| <= |instances|
    ensures forall k :: 0 <= k < |r| ==> r[k] in instances && IsCandidate(r[k], targetAmi)
    ensures forall k :: 0 <= k < |instances| && IsCandidate(instances[k], targetAmi) ==> instances[k] in r
  {
    Seqs.Filter(instances, Candidate(targetAmi))
  }

  /** Nothing is dropped or duplicated, and the order is kept. */
  lemma FindCandidatesExact(instances: seq<Instance>, targetAmi: string, x: Instance)
    ensures multiset(FindCandidates(instances, targetAmi))[x] ==
            if IsCandidate(x, targetAmi) then multiset(instances)[x] else 0
    ensures Seqs.IsSubsequence(FindCandidates(instances, targetAmi), instances)
  {
    Seqs.FilterMultiplicity(instances, Candidate(targetAmi), x);
    Seqs.FilterIsSubsequence(instances, Candidate(targetAmi));
  }

  /** `find_instances(find_candidates(s, ami), state)` is the filter of `s` by
      "a candidate in that state". */
  lemma StaleInFilter(instances: seq<Instance>, targetAmi: string, mongoState: string)
    ensures FindInstances(FindCandidates(instances, targetAmi), mongoState) ==
            Seqs.Filter(instances, StaleIn(targetAmi, mongoState))
  {
    Seqs.FilterFilter(instances, Candidate(targetAmi), HasState(mongoState), StaleIn(targetAmi, mongoState));
  }

  /** `decide_on_action(replica_set_status, target_ami)`: recycle the first stale
      SECONDARY in input order if there is one; otherwise step down and recycle the
      first stale PRIMARY; otherwise DONE. */
  function DecideOnAction(status: seq<Instance>, targetAmi: string): (d: Decision)
    ensures d.action == RecycleSecondary <==>
              exists k :: 0 <= k < |status| && StaleIn(targetAmi, "SECONDARY")(status[k])
    ensures d.action == StepDownAndRecyclePrimary <==>
              (forall k :: 0 <= k < |status| ==> !StaleIn(targetAmi, "SECONDARY")(status[k])) &&
              (exists k :: 0 <= k < |status| && StaleIn(targetAmi, "PRIMARY")(status[k]))
    ensures d.action == Done ==> d == DoneDecision()
    ensures d.action != Done ==> d.instance.Some?
  {
    var candidates := FindCandidates(status, targetAmi);
    var secondaries := FindInstances(candidates, "SECONDARY");
    var primaries := FindInstances(candidates, "PRIMARY");
    StaleInFilter(status, targetAmi, "SECONDARY");
    StaleInFilter(status, targetAmi, "PRIMARY");
    Seqs.FilterHead(status, StaleIn(targetAmi, "SECONDARY"));
    Seqs.FilterHead(status, StaleIn(targetAmi, "PRIMARY"));
    if |secondaries| != 0 then RecycleSecondaryDecision(secondaries[0])
    else if |primaries| != 0 then StepDownDecision(primaries[0])
    else DoneDecision()
  }

  /** The action is DONE exactly when no instance is a candidate. */
  lemma DecideDone(status: seq<Instance>, targetAmi: string)
    ensures DecideOnAction(status, targetAmi).action == Done <==>
              forall k :: 0 <= k < |status| ==> !IsCandidate(status[k], targetAmi)
  {
    forall k | 0 <= k < |status| && IsCandidate(status[k], targetAmi)
      ensures StaleIn(targetAmi, "SECONDARY")(status[k]) || StaleIn(targetAmi, "PRIMARY")(status[k])
    {
    }
  }

  /** The instance of a decision is the first stale SECONDARY, or failing
      that the first stale PRIMARY, of the input. */
  lemma DecideChoosesFirst(status: seq<Instance>, targetAmi: string)
    ensures var d := DecideOnAction(status, targetAmi);
      (d.action == RecycleSecondary ==>
         Seqs.IsFirstSatisfying(status, StaleIn(targetAmi, "SECONDARY"), d.instance.value)) &&
      (d.action == StepDownAndRecyclePrimary ==>
         Seqs.IsFirstSatisfying(status, StaleIn(targetAmi, "PRIMARY"), d.instance.value)) &&
      (d.action != Done ==> d.instance.value in status && IsCandidate(d.instance.value, targetAmi))
  {
    StaleInFilter(status, targetAmi, "SECONDARY");
    StaleInFilter(status, targetAmi, "PRIMARY");
    Seqs.FilterHead(status, StaleIn(targetAmi, "SECONDARY"));
    Seqs.FilterHead(status, StaleIn(targetAmi, "PRIMARY"));
  }

  /** Instances outside the candidates (ARBITER, RECOVERING, or already on the
      target image) never influence the decision. */
  lemma DecideIgnoresNonCandidates(status: seq<Instance>, targetAmi: string)
    ensures DecideOnAction(FindCandidates(status, targetAmi), targetAmi) == DecideOnAction(status, targetAmi)
  {
    var c := FindCandidates(status, targetAmi);
    Seqs.FilterFilter(status, Candidate(targetAmi), Candidate(targetAmi), Candidate(targetAmi));
    assert FindCandidates(c, targetAmi) == c;
  }

  /** With one stale SECONDARY present, the primary is never stepped down. */
  lemma SecondariesFirst(status: seq<Instance>, targetAmi: string, k: nat)
    requires k < |status| && status[k].mongoState == "SECONDARY" && status[k].imageId != targetAmi
    ensures DecideOnAction(status, targetAmi).action == RecycleSecondary
  {
    assert StaleIn(targetAmi, "SECONDARY")(status[k]);
  }

  /** A member of replica set `rs0` with the given id, replica-set state and image,
      at address `10.0.0.<id>`. */
  function Node(id: string, state: string, image: string): Instance {
    Instance(id, image, "10.0.0." + id, state, "rs0")
  }

  /** Of two SECONDARY instances, the one on a stale image is recycled. */
  lemma ScenarioSecondary()
    ensures DecideOnAction([Node("1", "PRIMARY", "ami-2"), Node("2", "SECONDARY", "ami-1"),
                            Node("3", "SECONDARY", "ami-2"), Node("4", "ARBITER", "ami-2")], "ami-1")
            == RecycleSecondaryDecision(Node("3", "SECONDARY", "ami-2"))
  {
    var s := [Node("1", "PRIMARY", "ami-2"), Node("2", "SECONDARY", "ami-1"),
              Node("3", "SECONDARY", "ami-2"), Node("4", "ARBITER", "ami-2")];
    var d := DecideOnAction(s, "ami-1");
    var p := StaleIn("ami-1", "SECONDARY");
    assert p(s[2]);
    assert d.action == RecycleSecondary;
    DecideChoosesFirst(s, "ami-1");
    forall j | 0 <= j < 2 ensures !p(s[j]) {
      assert j == 0 || j == 1;
      assert s[j].mongoState == "PRIMARY" || s[j].imageId == "ami-1";
    }
    Seqs.FirstSatisfyingAt(s, p, d.instance.value, 2);
  }

  /** When every SECONDARY is on the target image, the stale primary is stepped down. */
  lemma ScenarioPrimary()
    ensures DecideOnAction([Node("1", "PRIMARY", "ami-2"), Node("2", "SECONDARY", "ami-1"),
                            Node("3", "SECONDARY", "ami-1"), Node("4", "ARBITER", "ami-2")], "ami-1")
            == StepDownDecision(Node("1", "PRIMARY", "ami-2"))
  {
    var s := [Node("1", "PRIMARY", "ami-2"), Node("2", "SECONDARY", "ami-1"),
              Node("3", "SECONDARY", "ami-1"), Node("4", "ARBITER", "ami-2")];
    assert StaleIn("ami-1", "PRIMARY")(s[0]);
    assert forall k :: 0 <= k < |s| ==> !StaleIn("ami-1", "SECONDARY")(s[k]);
  }
}
