/** `autorecycle_scale_asg/autoscaling.py`: finding the Auto Scaling groups of
    a component by name, and reading a group's latest scaling activity. The
    listing of the groups, the activity request and the policy execution are
    AWS calls; their responses are parameters. */
module ScaleAutoscaling {
  import opened Wrappers
  import opened Seqs
  import opened ScaleAutorecycle

  /** The name ends in `_a`, `_b` or `_c`, which `re.subn("_[abc]$", "", …)`
      removes. */
  predicate HasAzSuffix(name: string) {
    |name| >= 2 && name[|name| - 2] == '_' && name[|name| - 1] in {'a', 'b', 'c'}
  }

  /** `re.subn("_[abc]$", "", name)`: the name without its zone suffix, and
      whether one substitution was made. */
  function StripAzSuffix(name: string): (r: (string, bool))
    ensures r.1 <==> HasAzSuffix(name)
    ensures r.1 ==> |r.0| == |name| - 2 && name == r.0 + name[|name| - 2..]
    ensures !r.1 ==> r.0 == name
  {
    if HasAzSuffix(name) then (name[..|name| - 2], true) else (name, false)
  }

  /** Appending a zone suffix and stripping it gives back the base name. */
  lemma StripAzSuffixAppended(base: string, zone: char)
    requires zone in {'a', 'b', 'c'}
    ensures StripAzSuffix(base + ['_', zone]) == (base, true)
  {
    var name := base + ['_', zone];
    assert name[..|name| - 2] == base;
  }

  /** A character of `[a-z\d]`. */
  predicate IsNameChar(c: char) {
    'a' <= c <= 'z' || '0' <= c <= '9'
  }

  const AsgInfix := "-asg-"

  /** The length of the part between the base name and `-asg-`: the
      non-capturing `(?:_[abc])` when a suffix was stripped, nothing otherwise. */
  function ExtensionLength(withSuffix: bool): nat {
    if withSuffix then 2 else 0
  }

  /** `re.match(rf"(^{base}){extension}-asg-[a-z\d]+$", name)`, with the base
      read literally. */
  predicate NameMatches(name: string, base: string, withSuffix: bool) {
    var n := |base| + ExtensionLength(withSuffix);
    |name| > n + |AsgInfix| && name[..|base|] == base &&
    (withSuffix ==> HasAzSuffix(name[..n])) &&
    name[n..n + |AsgInfix|] == AsgInfix &&
    forall k :: n + |AsgInfix| <= k < |name| ==> IsNameChar(name[k])
  }

  /** The names the pattern accepts are the base, the extension, `-asg-` and a
      non-empty tail of `[a-z\d]`; this direction builds them. */
  lemma NameMatchesBuilt(base: string, extension: string, tail: string, withSuffix: bool)
    requires if withSuffix then extension in {"_a", "_b", "_c"} else extension == ""
    requires |tail| > 0 && forall k :: 0 <= k < |tail| ==> IsNameChar(tail[k])
    ensures NameMatches(base + extension + AsgInfix + tail, base, withSuffix)
  {
    var name := base + extension + AsgInfix + tail;
    var n := |base| + ExtensionLength(withSuffix);
    assert |extension| == ExtensionLength(withSuffix);
    assert name[..|base|] == base;
    assert name[..n] == base + extension;
    assert name[n..n + |AsgInfix|] == AsgInfix;
    forall k | n + |AsgInfix| <= k < |name| ensures IsNameChar(name[k]) {
      assert name[k] == tail[k - n - |AsgInfix|];
    }
  }

  /** The converse: every accepted name splits into the base, an extension of
      the required form, `-asg-` and a non-empty `[a-z\d]` tail. */
  lemma NameMatchesSplits(name: string, base: string, withSuffix: bool)
    requires NameMatches(name, base, withSuffix)
    ensures var n := |base| + ExtensionLength(withSuffix);
      var extension := name[|base|..n];
      var tail := name[n + |AsgInfix|..];
      name == base + extension + AsgInfix + tail &&
      (if withSuffix then extension in {"_a", "_b", "_c"} else extension == "") &&
      |tail| > 0 && forall k :: 0 <= k < |tail| ==> IsNameChar(tail[k])
  {
    var n := |base| + ExtensionLength(withSuffix);
    var extension := name[|base|..n];
    var tail := name[n + |AsgInfix|..];
    assert name == name[..|base|] + name[|base|..n] + name[n..n + |AsgInfix|] + name[n + |AsgInfix|..];
    if withSuffix {
      assert name[..n][|base|..] == extension;
      assert extension == ['_', extension[1]];
    }
  }

  /** For a component with a zone suffix, the groups of every zone of its base
      match, and a group named after the bare base does not: the extension is
      required, not optional. */
  lemma SuffixedComponentMatchesZones(base: string, zone: char, other: char, tail: string)
    requires zone in {'a', 'b', 'c'} && other in {'a', 'b', 'c'}
    requires |tail| > 0 && forall k :: 0 <= k < |tail| ==> IsNameChar(tail[k])
    ensures var (b, stripped) := StripAzSuffix(base + ['_', zone]);
      NameMatches(base + ['_', other] + AsgInfix + tail, b, stripped) &&
      !NameMatches(base + AsgInfix + tail, b, stripped)
  {
    StripAzSuffixAppended(base, zone);
    NameMatchesBuilt(base, ['_', other], tail, true);
    var bare := base + AsgInfix + tail;
    assert bare[|base|] == '-';
  }

  /** For a component without a zone suffix only the groups named after the
      component itself match, not those of a zone. */
  lemma PlainComponentMatchesOnlyItself(component: string, zone: char, tail: string)
    requires !HasAzSuffix(component)
    requires |tail| > 0 && forall k :: 0 <= k < |tail| ==> IsNameChar(tail[k])
    ensures var (b, stripped) := StripAzSuffix(component);
      NameMatches(component + AsgInfix + tail, b, stripped) &&
      !NameMatches(component + ['_', zone] + AsgInfix + tail, b, stripped)
  {
    NameMatchesBuilt(component, "", tail, false);
    assert component + "" == component;
    var zoned := component + ['_', zone] + AsgInfix + tail;
    assert zoned[|component|] == '_';
  }

  /** Names that share the component's letters but not the `-asg-` form are
      not its groups. */
  lemma SimilarNamesExcluded()
    ensures !NameMatches("sensu_proxy", "sensu", false)
    ensures !NameMatches("tel-sensu-proxy", "sensu", false)
    ensures !NameMatches("sensu-asg-", "sensu", false)
  {
    assert "sensu_proxy"[5] == '_';
    assert "tel-sensu-proxy"[0] == 't';
  }

  /** The groups of the listing whose names match the component. */
  function MatchingAsgs(asgs: seq<Asg>, component: string): seq<Asg> {
    var (base, stripped) := StripAzSuffix(component);
    Filter(asgs, (a: Asg) => NameMatches(a.name, base, stripped))
  }

  function NoMatchMessage(base: string): string {
    "Could not find ASGs matching: `^" + base + "(_[abc])?-asg-[a-z\\d]+$`."
  }

  /** `describe_asg(component)` on the listed pages, as a specification. */
  function DescribeAsgResult(pages: seq<seq<Asg>>, component: string): Result<seq<Asg>, string> {
    var matches := MatchingAsgs(Flatten(pages), component);
    if matches == [] then Failure(NoMatchMessage(StripAzSuffix(component).0)) else Success(matches)
  }

  /** `describe_asg` returns exactly the matching groups of all pages, in page
      order, and raises exactly when there is none. */
  lemma DescribeAsgSelects(pages: seq<seq<Asg>>, component: string)
    ensures var (base, stripped) := StripAzSuffix(component);
      var all := Flatten(pages);
      var r := DescribeAsgResult(pages, component);
      (r.Failure? <==> forall i :: 0 <= i < |all| ==> !NameMatches(all[i].name, base, stripped)) &&
      (r.Failure? ==> r.error == NoMatchMessage(base)) &&
      (r.Success? ==> IsSubsequence(r.value, all) &&
                      (forall i :: 0 <= i < |r.value| ==> NameMatches(r.value[i].name, base, stripped)) &&
                      forall i :: 0 <= i < |all| && NameMatches(all[i].name, base, stripped) ==> all[i] in r.value)
  {
    var (base, stripped) := StripAzSuffix(component);
    var p := (a: Asg) => NameMatches(a.name, base, stripped);
    FilterHead(Flatten(pages), p);
    FilterIsSubsequence(Flatten(pages), p);
  }

  /** `describe_asg(component)`: the page loop and the matching loop. */
  method DescribeAsg(pages: seq<seq<Asg>>, component: string) returns (r: Result<seq<Asg>, string>)
    ensures r == DescribeAsgResult(pages, component)
  {
    var asgs := Collect(pages);
    var (base, stripped) := StripAzSuffix(component);
    ghost var p := (a: Asg) => NameMatches(a.name, base, stripped);
    var matching: seq<Asg> := [];
    for i := 0 to |asgs|
      invariant matching == Filter(asgs[..i], p)
    {
      assert asgs[..i + 1] == asgs[..i] + [asgs[i]];
      FilterSnoc(asgs[..i], asgs[i], p);
      if NameMatches(asgs[i].name, base, stripped) {
        matching := matching + [asgs[i]];
      }
    }
    assert asgs[..|asgs|] == asgs;
    if matching == [] {
      return Failure(NoMatchMessage(base));
    }
    return Success(matching);
  }

  const SyntheticProgress := 100
  const SyntheticStatus := "Successful"

  /** `describe_scaling_activities(asg_name)` on the response of the request
      for at most one activity: the first activity, or for a group with no
      recorded activity a finished, successful one without an end time. */
  function DescribeScalingActivities(response: seq<Activity>): (a: Activity)
    ensures response != [] ==> a == response[0]
    ensures response == [] ==> a.progress == Some(SyntheticProgress) && a.statusCode == Some(SyntheticStatus) &&
                               a.endTime.None?
  {
    if response == [] then Activity(Some(SyntheticProgress), Some(SyntheticStatus), None) else response[0]
  }

  /** The synthetic activity counts as complete and successful, but never as a
      recent scaling. */
  lemma SyntheticActivityIsSettled(now: int)
    ensures var a := DescribeScalingActivities([]);
      OverallProgress([a]) && OverallStatusCode([a]) && !RecentlyScaled(a, now)
  {
  }
}
