/**
 * Assignments and what they work against (src-tauri/src/agents.rs), as records.
 * The steps carry one thing the program does not write down: the revisions
 * each was finished at, which is what resuming a run has to get right.
 */
module Assignments {
  import opened Wrappers
  import opened Text

  datatype Target =
    | Review(host: string, owner: string, name: string, number: nat, title: string,
             base: string, head: string, into: string)
    | Merge(ours: string, theirs: string, oursTip: string, theirsTip: string,
            base: string, strategy: string, into: string)

  /** Two targets are one job: the same pull request, or a merge of the same branches. */
  predicate SameJob(a: Target, b: Target) {
    match (a, b)
    case (Review(h, o, n, m, _, _, _, _), Review(h2, o2, n2, m2, _, _, _, _)) => h == h2 && o == o2 && n == n2 && m == m2
    case (Merge(o, t, _, _, _, _, _), Merge(o2, t2, _, _, _, _, _)) => o == o2 && t == t2
    case _ => false
  }

  /** The same job, and nothing it works on has moved. */
  predicate SameRevisions(a: Target, b: Target) {
    && SameJob(a, b)
    && match (a, b)
       case (Review(_, _, _, _, _, base, head, _), Review(_, _, _, _, _, base2, head2, _)) => base == base2 && head == head2
       case (Merge(_, _, o, t, base, _, _), Merge(_, _, o2, t2, base2, _, _)) => o == o2 && t == t2 && base == base2
       case _ => false
  }

  datatype Job = ReviewOf(host: string, owner: string, name: string, number: nat) | MergeOf(ours: string, theirs: string)

  datatype Revisions = ReviewAt(base: string, head: string) | MergeAt(oursTip: string, theirsTip: string, base: string)

  function JobOf(t: Target): Job {
    match t
    case Review(host, owner, name, number, _, _, _, _) => ReviewOf(host, owner, name, number)
    case Merge(ours, theirs, _, _, _, _, _) => MergeOf(ours, theirs)
  }

  function RevisionsOf(t: Target): Revisions {
    match t
    case Review(_, _, _, _, _, base, head, _) => ReviewAt(base, head)
    case Merge(_, _, oursTip, theirsTip, base, _, _) => MergeAt(oursTip, theirsTip, base)
  }

  /**
   * `SameJob` and `SameRevisions` are equivalences, the second finer: each
   * compares one thing about its targets. A job is the same whatever its title
   * or strategy, where it goes, and the revisions; those are the same whatever
   * its title or strategy, and where it goes.
   */
  lemma JobsAndRevisions(a: Target, b: Target)
    ensures SameJob(a, b) <==> JobOf(a) == JobOf(b)
    ensures SameRevisions(a, b) <==> JobOf(a) == JobOf(b) && RevisionsOf(a) == RevisionsOf(b)
    ensures a.Review? && b.Review? ==>
              && (SameJob(a, b) <==> b == a.(title := b.title, base := b.base, head := b.head, into := b.into))
              && (SameRevisions(a, b) <==> b == a.(title := b.title, into := b.into))
    ensures a.Merge? && b.Merge? ==>
              && (SameJob(a, b) <==> b == a.(oursTip := b.oursTip, theirsTip := b.theirsTip, base := b.base,
                                             strategy := b.strategy, into := b.into))
              && (SameRevisions(a, b) <==> b == a.(strategy := b.strategy, into := b.into))
    ensures a.Review? != b.Review? ==> !SameJob(a, b) && !SameRevisions(a, b)
  {
  }

  datatype Life = Starting | Working | Waiting | Paused | Stopped | Failed | Done
  {
    predicate IsOver() { Stopped? || Failed? || Done? }
  }

  datatype Kind =
    | ReadKind | PlanKind | File(path: string) | Verdict | Conflict(path: string, region: nat) | Checks
    | Why(proposal: string) | Last

  datatype StepState = Running | Finished | AtGate | Broken | Superseded

  /** A unit of an agent's work. `at` is history: the revisions it worked on when it was last finished. */
  datatype AgentStep = AgentStep(kind: Kind, state: StepState, gate: Option<string>, at: Option<Revisions>)

  datatype Assignment = Assignment(
    id: string, repo: string, agent: string, level: nat, target: Target, state: Life, sentence: string, note: string,
    steps: seq<AgentStep>, proposals: seq<string>, endedAt: Option<nat>, reason: Option<string>, tookOver: Option<string>,
    lastAct: Option<string>, pausing: bool, quietSince: Option<nat>)

  // --- Carrying a run on -----------------------------------------------------

  function CutShort(step: AgentStep): AgentStep {
    if step.state.Running? || step.state.AtGate? then step.(state := Superseded, gate := None) else step
  }

  predicate CountsAsDone(step: AgentStep) {
    step.state.Finished? && (step.kind.File? || step.kind.Conflict?)
  }

  function DoneUnits(steps: seq<AgentStep>): nat {
    if steps == [] then 0
    else DoneUnits(steps[..|steps| - 1]) + if CountsAsDone(steps[|steps| - 1]) then 1 else 0
  }

  function Plural(count: nat, noun: string): string {
    if count == 1 then "1 " + noun else Decimal(count) + " " + noun + "s"
  }

  /** What the agent is told: the person's note, and how far the earlier run got. */
  function Told(note: string, done: nat, unit: string): string {
    var told := Trim(note);
    if done == 0 then told
    else
      told + (if told == "" then "" else " ")
      + "This carries on an earlier run, which finished " + Plural(done, unit) + ": do not do those again."
  }

  function Resumed(kept: Assignment, level: nat, note: string): Assignment {
    var unit := if kept.target.Review? then "file" else "conflict";
    kept.(steps := seq(|kept.steps|, i requires 0 <= i < |kept.steps| => CutShort(kept.steps[i])),
          note := Told(note, DoneUnits(kept.steps), unit),
          level := level, state := Starting, sentence := "Resuming", endedAt := None, reason := None,
          tookOver := None, lastAct := None, pausing := false, quietSince := None)
  }

  /** Carry an assignment on from its record: count what is done, then cut short what was under way. */
  method Resume(kept: Assignment, level: nat, note: string) returns (next: Assignment)
    ensures next == Resumed(kept, level, note)
  {
    var unit := if kept.target.Review? then "file" else "conflict";
    var done := 0;
    for i := 0 to |kept.steps|
      invariant done == DoneUnits(kept.steps[..i])
    {
      if CountsAsDone(kept.steps[i]) {
        done := done + 1;
      }
      assert kept.steps[..i + 1][..i] == kept.steps[..i];
    }
    assert kept.steps[..|kept.steps|] == kept.steps;
    var steps := kept.steps;
    for i := 0 to |steps|
      invariant |steps| == |kept.steps|
      invariant forall j | 0 <= j < |steps| :: steps[j] == if j < i then CutShort(kept.steps[j]) else kept.steps[j]
    {
      if steps[i].state.Running? || steps[i].state.AtGate? {
        steps := steps[i := steps[i].(state := Superseded, gate := None)];
      }
    }
    var told := Trim(note);
    if done > 0 {
      if told != "" {
        told := told + " ";
      }
      told := told + "This carries on an earlier run, which finished " + Plural(done, unit) + ": do not do those again.";
    }
    next := kept.(steps := steps, note := told, level := level, state := Starting, sentence := "Resuming",
                  endedAt := None, reason := None, tookOver := None, lastAct := None, pausing := false,
                  quietSince := None);
    assert next.steps == Resumed(kept, level, note).steps;
  }

  /**
   * A resumed assignment is under way again with nothing of it under way yet:
   * every step that ran or waited at a gate is superseded, every other one is
   * as it was, in its place, and what the earlier run made is kept.
   */
  lemma ResumedKeepsWhatIsDone(kept: Assignment, level: nat, note: string)
    ensures var next := Resumed(kept, level, note);
            && next == kept.(steps := next.steps, note := next.note, level := level, state := Starting,
                             sentence := "Resuming", endedAt := None, reason := None, tookOver := None,
                             lastAct := None, pausing := false, quietSince := None)
            && |next.steps| == |kept.steps|
            && forall i | 0 <= i < |kept.steps| ::
                 next.steps[i] == if kept.steps[i].state == StepState.Running || kept.steps[i].state == AtGate
                                  then kept.steps[i].(state := Superseded, gate := None) else kept.steps[i]
  {
  }

  /** The files and conflicts that are finished. */
  ghost function DoneSteps(steps: seq<AgentStep>): set<nat> {
    set i: nat | i < |steps| && steps[i].state == Finished && (steps[i].kind.File? || steps[i].kind.Conflict?)
  }

  lemma OneMoreIsDone(steps: seq<AgentStep>, n: nat)
    requires |steps| == n + 1
    ensures DoneSteps(steps) == DoneSteps(steps[..n]) + if CountsAsDone(steps[n]) then {n} else {}
    ensures n !in DoneSteps(steps[..n])
  {
    assert forall i | 0 <= i < n :: steps[..n][i] == steps[i];
  }

  lemma {:induction false} DoneUnitsAreCounted(steps: seq<AgentStep>)
    ensures DoneUnits(steps) == |DoneSteps(steps)|
  {
    if steps != [] {
      DoneUnitsAreCounted(steps[..|steps| - 1]);
      OneMoreIsDone(steps, |steps| - 1);
    }
  }

  /** The agent is told what the person says, and how many files or conflicts are finished, if any. */
  lemma ResumedIsToldHowFar(kept: Assignment, level: nat, note: string)
    ensures var told, done := Resumed(kept, level, note).note, |DoneSteps(kept.steps)|;
            && (done == 0 ==> told == Trim(note))
            && (done > 0 ==>
                  told == Trim(note) + (if Trim(note) == "" then "" else " ")
                          + "This carries on an earlier run, which finished " + Units(done, kept.target)
                          + ": do not do those again.")
  {
    DoneUnitsAreCounted(kept.steps);
    UnitsArePlural(|DoneSteps(kept.steps)|, kept.target);
  }

  /** `n` files for a review, `n` conflicts for a merge. */
  function Units(n: nat, target: Target): string {
    match target
    case Review(_, _, _, _, _, _, _, _) => if n == 1 then "1 file" else Decimal(n) + " files"
    case Merge(_, _, _, _, _, _, _) => if n == 1 then "1 conflict" else Decimal(n) + " conflicts"
  }

  lemma UnitsArePlural(n: nat, target: Target)
    ensures Units(n, target) == Plural(n, if target.Review? then "file" else "conflict")
  {
    assert "1 " + "file" == "1 file" && "1 " + "conflict" == "1 conflict";
    assert Decimal(n) + " " + "file" + "s" == Decimal(n) + " files";
    assert Decimal(n) + " " + "conflict" + "s" == Decimal(n) + " conflicts";
  }

  lemma {:induction false} NothingMoreIsDone(steps: seq<AgentStep>, cut: seq<AgentStep>)
    requires |steps| == |cut| && forall i | 0 <= i < |steps| :: cut[i] == CutShort(steps[i])
    ensures DoneUnits(cut) == DoneUnits(steps)
  {
    if steps != [] {
      NothingMoreIsDone(steps[..|steps| - 1], cut[..|cut| - 1]);
    }
  }

  /** Resuming twice in a row tells the agent the same, and leaves the same steps. */
  lemma ResumingTwiceIsResumingOnce(kept: Assignment, level: nat, note: string)
    ensures Resumed(Resumed(kept, level, note), level, note) == Resumed(kept, level, note)
  {
    NothingMoreIsDone(kept.steps, Resumed(kept, level, note).steps);
    assert Resumed(Resumed(kept, level, note), level, note).steps == Resumed(kept, level, note).steps;
  }
}
