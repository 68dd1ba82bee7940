/** The `Decision` record of `models/decision.py`: the next action of the recycler
    and the instance it applies to. */
module Decisions {
  import opened Wrappers
  import opened Instances

  /** The three action constants. */
  datatype Action = StepDownAndRecyclePrimary | RecycleSecondary | Done

  /** The string value of each action constant. */
  function ActionName(a: Action): (name: string)
    ensures |name| > 0 && ' ' !in name && ':' !in name
  {
    match a
    case StepDownAndRecyclePrimary => "STEP_DOWN_AND_RECYCLE_PRIMARY"
    case RecycleSecondary => "RECYCLE_SECONDARY"
    case Done => "DONE"
  }

  /** The three constants are distinct strings. */
  lemma ActionNamesDistinct(a: Action, b: Action)
    ensures ActionName(a) == ActionName(b) <==> a == b
  {
    if a != b {
      assert ActionName(a)[0] != ActionName(b)[0] || |ActionName(a)| != |ActionName(b)|;
    }
  }

  datatype Decision = Decision(action: Action, instance: Option<Instance>)

  /** `done()`. */
  function DoneDecision(): Decision {
    Decision(Done, None)
  }

  /** `recycle_secondary(instance)`. */
  function RecycleSecondaryDecision(instance: Instance): Decision {
    Decision(RecycleSecondary, Some(instance))
  }

  /** `step_down_and_recycle_primary(instance)`. */
  function StepDownDecision(instance: Instance): Decision {
    Decision(StepDownAndRecyclePrimary, Some(instance))
  }

  /** The three constructors: `done()` carries no instance, the other two carry
      theirs unchanged; decisions made by different constructors differ, and two
      decisions of one constructor are equal exactly when their instances are. */
  lemma DecisionConstructors(i: Instance, j: Instance)
    ensures DoneDecision().action == Done && DoneDecision().instance.None?
    ensures RecycleSecondaryDecision(i).action == RecycleSecondary && RecycleSecondaryDecision(i).instance == Some(i)
    ensures StepDownDecision(i).action == StepDownAndRecyclePrimary && StepDownDecision(i).instance == Some(i)
    ensures DoneDecision() != RecycleSecondaryDecision(i) && DoneDecision() != StepDownDecision(i)
    ensures RecycleSecondaryDecision(i) != StepDownDecision(j)
    ensures RecycleSecondaryDecision(i) == RecycleSecondaryDecision(j) <==> i == j
    ensures StepDownDecision(i) == StepDownDecision(j) <==> i == j
  {
  }
}
