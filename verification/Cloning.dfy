/**
 * A clone under way (src-tauri/src/clone_worker.rs). git and its helpers write
 * into the destination, a thread reads their output to its end and then waits
 * for git, and any number of cancels come in between. Each takes one step at a
 * time, in any order. Helpers keep git's output open for as long as they run.
 */
module Cloning {
  import opened Wrappers
  import opened Runs
  import opened Selection

  /** git itself. `open` is whether it still has its output open; once it is `signalled` it cannot succeed any more. */
  datatype Child = Running(open: bool, signalled: bool) | Exited(success: bool) | Reaped(success: bool)

  datatype Holder = Thread | Canceller(c: nat)

  /** What the window is told at the end. `gone` is history: the destination was removed. */
  datatype Stage =
    | Reading
    | OutputEnded
    | Waiting
    | Waited(success: bool)
    | Looked(success: bool, stopped: bool)
    | Tidied(success: bool, stopped: bool, gone: bool)
    | Done(ok: bool, stopped: bool, gone: bool)
  {
    predicate IsAfterWait() { Waited? || Looked? || Tidied? || Done? }
  }

  datatype CancelStage = Pressed | Flagged | Locked | Killed | Joined

  /** A call of `cancel`, or a drop of the worker, which cancels and then waits for the thread. */
  datatype Cancel = Cancel(drops: bool, stage: CancelStage)

  /** `existed` is whether the destination was there when the clone was planned, and since; `present`, whether it is now. */
  datatype State = State(
    existed: bool, present: bool, child: Child, helpers: set<nat>, stage: Stage,
    cancelled: bool, lock: Option<Holder>, cancels: map<nat, Cancel>)

  datatype Event =
    | Write
    | HelperWrites(h: nat)
    | Spawn(h: nat)
    | CloseOutput
    | Exit(success: bool)
    | HelperExits(h: nat)
    | EndOfOutput
    | TakeChild
    | Reap
    | Look
    | Tidy(works: bool)
    | Tell
    | Press(c: nat, drops: bool)
    | Flag(c: nat)
    | Lock(c: nat)
    | Kill(c: nat)
    | Join(c: nat)

  function Started(existed: bool): State {
    State(existed, existed, Running(true, false), {}, Reading, false, None, map[])
  }

  predicate OutputIsOpen(s: State) {
    s.helpers != {} || (s.child.Running? && s.child.open)
  }

  function ProcessStep(s: State, e: Event): Option<State> {
    match e
    case Write => if s.child.Running? then Some(s.(present := true)) else None
    case HelperWrites(h) => if h in s.helpers then Some(s.(present := true)) else None
    case Spawn(h) => if s.child.Running? && s.child.open then Some(s.(helpers := s.helpers + {h})) else None
    case CloseOutput => if s.child.Running? then Some(s.(child := s.child.(open := false))) else None
    case Exit(success) =>
      if s.child.Running? && (success ==> s.present && !s.child.signalled) then Some(s.(child := Exited(success))) else None
    case HelperExits(h) => if h in s.helpers then Some(s.(helpers := s.helpers - {h})) else None
    case _ => None
  }

  function ThreadStep(s: State, e: Event): Option<State> {
    match (e, s.stage)
    case (EndOfOutput, Reading) => if OutputIsOpen(s) then None else Some(s.(stage := OutputEnded))
    case (TakeChild, OutputEnded) => if s.lock.Some? then None else Some(s.(stage := Waiting, lock := Some(Thread)))
    case (Reap, Waiting) =>
      if s.child.Exited?
      then Some(s.(stage := Waited(s.child.success), child := Reaped(s.child.success), lock := None))
      else None
    case (Look, Waited(success)) => Some(s.(stage := Looked(success, s.cancelled)))
    case (Tidy(works), Looked(success, stopped)) =>
      var removes := stopped && !s.existed && works;
      Some(s.(stage := Tidied(success, stopped, removes), present := if removes then false else s.present))
    case (Tell, Tidied(success, stopped, gone)) => Some(s.(stage := Done(success, stopped, gone)))
    case _ => None
  }

  function CancelStep(s: State, e: Event): Option<State> {
    match e
    case Press(c, drops) => if c in s.cancels then None else Some(s.(cancels := s.cancels[c := Cancel(drops, Pressed)]))
    case Flag(c) =>
      if c in s.cancels && s.cancels[c].stage.Pressed?
      then Some(s.(cancelled := true, cancels := s.cancels[c := s.cancels[c].(stage := Flagged)])) else None
    case Lock(c) =>
      if c in s.cancels && s.cancels[c].stage.Flagged? && s.lock.None?
      then Some(s.(lock := Some(Canceller(c)), cancels := s.cancels[c := s.cancels[c].(stage := Locked)])) else None
    case Kill(c) =>
      if c in s.cancels && s.cancels[c].stage.Locked?
      then Some(s.(lock := None, cancels := s.cancels[c := s.cancels[c].(stage := Killed)],
                   child := if s.child.Running? then s.child.(signalled := true) else s.child)) else None
    case Join(c) =>
      if c in s.cancels && s.cancels[c].stage.Killed? && s.cancels[c].drops && s.stage.Done?
      then Some(s.(cancels := s.cancels[c := s.cancels[c].(stage := Joined)])) else None
    case _ => None
  }

  function Step(s: State, e: Event): Option<State> {
    if e.Write? || e.HelperWrites? || e.Spawn? || e.CloseOutput? || e.Exit? || e.HelperExits? then ProcessStep(s, e)
    else if e.Press? || e.Flag? || e.Lock? || e.Kill? || e.Join? then CancelStep(s, e)
    else ThreadStep(s, e)
  }

  /** The destination was removed. */
  predicate IsGone(stage: Stage) {
    (stage.Tidied? || stage.Done?) && stage.gone
  }

  /** Nothing that could still write is left. */
  predicate AllIsQuiet(s: State) {
    s.child.Reaped? && s.helpers == {}
  }

  ghost predicate StageOk(s: State) {
    && (s.stage.IsAfterWait() <==> s.child.Reaped?)
    && (!s.stage.Reading? ==> !OutputIsOpen(s))
    && (s.stage.Waited? ==> s.stage.success == s.child.success)
    && (s.stage.Looked? ==> s.stage.success == s.child.success)
    && (s.stage.Tidied? ==> s.stage.success == s.child.success)
    && (s.stage.Done? ==> s.stage.ok == s.child.success)
    && (s.stage.Looked? || s.stage.Tidied? || s.stage.Done? ==> s.stage.stopped ==> s.cancelled)
  }

  ghost predicate PlaceOk(s: State) {
    && (s.existed ==> s.present)
    && (IsGone(s.stage) ==> !s.present && !s.existed && s.stage.stopped)
    && (!s.child.Running? && s.child.success && !IsGone(s.stage) ==> s.present)
  }

  ghost predicate LocksOk(s: State) {
    && (s.lock == Some(Thread) <==> s.stage.Waiting?)
    && (forall c | c in s.cancels && s.cancels[c].stage.Locked? :: s.lock == Some(Canceller(c)))
    && (s.lock.Some? && s.lock.value.Canceller? ==>
          s.lock.value.c in s.cancels && s.cancels[s.lock.value.c].stage.Locked?)
    && (forall c | c in s.cancels && s.cancels[c].stage.Joined? :: s.stage.Done?)
  }

  /** Whoever has got past the flag has set it. */
  ghost predicate FlagOk(s: State) {
    forall c | c in s.cancels && !s.cancels[c].stage.Pressed? :: s.cancelled
  }

  ghost predicate Inv(s: State) {
    StageOk(s) && PlaceOk(s) && LocksOk(s) && FlagOk(s)
  }

  lemma StepKeeps(s: State, e: Event, s': State)
    requires Inv(s) && Step(s, e) == Some(s')
    ensures Inv(s')
  {
  }

  /** A run from the start: any interleaving. */
  ghost predicate Run(existed: bool, es: seq<Event>) {
    IsRun(Step, Started(existed), es)
  }

  ghost function End(existed: bool, es: seq<Event>): State
    requires Run(existed, es)
  {
    After(Step, Started(existed), es)
  }

  /** The state `k` steps into a run. */
  ghost function At(existed: bool, es: seq<Event>, k: nat): State
    requires Run(existed, es) && k <= |es|
  {
    Split(Step, Started(existed), es, k);
    After(Step, Started(existed), es[..k])
  }

  lemma InvHolds(existed: bool, es: seq<Event>)
    requires Run(existed, es)
    ensures Inv(End(existed, es))
  {
    forall s, e | Inv(s) && Step(s, e).Some? ensures Inv(Step(s, e).value) {
      StepKeeps(s, e, Step(s, e).value);
    }
    Always(Step, Inv, Started(existed), es);
  }

  // --- Every run -------------------------------------------------------------

  lemma {:induction false} ExistedStays(s: State, es: seq<Event>)
    requires IsRun(Step, s, es)
    ensures After(Step, s, es).existed == s.existed
    decreases |es|
  {
    if es != [] {
      ExistedStays(Step(s, es[0]).value, es[1..]);
    }
  }

  /** A destination that was there before, or a clone nobody cancelled, is never removed. */
  lemma OnlyItsOwnIsRemoved(existed: bool, es: seq<Event>)
    requires Run(existed, es)
    ensures existed ==> End(existed, es).present
    ensures IsGone(End(existed, es).stage) ==> !existed && End(existed, es).cancelled
  {
    InvHolds(existed, es);
    ExistedStays(Started(existed), es);
  }

  /** From the moment the thread has looked at the flag, nothing but its own removal changes the destination. */
  ghost predicate Settled(s: State, present: bool) {
    Inv(s) && s.present == present && (s.stage.Tidied? || s.stage.Done?)
  }

  lemma SettledStays(s: State, e: Event, present: bool, s': State)
    requires Settled(s, present) && Step(s, e) == Some(s')
    ensures Settled(s', present)
  {
    StepKeeps(s, e, s');
  }

  /** What is removed stays removed: git has been reaped and its helpers are gone by then, so nothing writes it back. */
  lemma RemovedStaysRemoved(existed: bool, es: seq<Event>, k: nat)
    requires Run(existed, es) && k <= |es|
    requires IsGone(At(existed, es, k).stage)
    ensures AllIsQuiet(At(existed, es, k))
    ensures !End(existed, es).present
  {
    Split(Step, Started(existed), es, k);
    InvHolds(existed, es[..k]);
    var inv := s => Settled(s, false);
    forall s, e | inv(s) && Step(s, e).Some? ensures inv(Step(s, e).value) {
      SettledStays(s, e, false, Step(s, e).value);
    }
    Always(Step, inv, At(existed, es, k), es[k..]);
  }

  /** Once a drop of the worker has returned, the clone is over and the destination is as it will stay. */
  lemma DroppedIsOver(existed: bool, es: seq<Event>, k: nat, c: nat)
    requires Run(existed, es) && k <= |es|
    requires c in At(existed, es, k).cancels && At(existed, es, k).cancels[c].stage.Joined?
    ensures AllIsQuiet(At(existed, es, k))
    ensures End(existed, es).present == At(existed, es, k).present
  {
    Split(Step, Started(existed), es, k);
    InvHolds(existed, es[..k]);
    var mid := At(existed, es, k);
    var inv := s => Settled(s, mid.present);
    forall s, e | inv(s) && Step(s, e).Some? ensures inv(Step(s, e).value) {
      SettledStays(s, e, mid.present, Step(s, e).value);
    }
    Always(Step, inv, mid, es[k..]);
  }

  /** What was removed is what was stopped and had been created, unless removing it `failed`. */
  ghost predicate GoneIsStopped(s: State, failed: bool) {
    if s.stage.Tidied? || s.stage.Done? then s.stage.gone <==> s.stage.stopped && !s.existed && !failed
    else !failed
  }

  lemma GoneIsStoppedStep(s: State, e: Event, failed: bool, s': State)
    requires GoneIsStopped(s, failed) && Step(s, e) == Some(s')
    ensures GoneIsStopped(s', failed || e == Tidy(false))
  {
  }

  lemma {:induction false} GoneIsStoppedAlong(s: State, es: seq<Event>, failed: bool)
    requires IsRun(Step, s, es) && GoneIsStopped(s, failed)
    ensures GoneIsStopped(After(Step, s, es), failed || Tidy(false) in es)
    decreases |es|
  {
    if es != [] {
      assert forall e :: e in es <==> e == es[0] || e in es[1..];
      GoneIsStoppedStep(s, es[0], failed, Step(s, es[0]).value);
      GoneIsStoppedAlong(Step(s, es[0]).value, es[1..], failed || es[0] == Tidy(false));
    }
  }

  /**
   * "Ok" means that the repository is on disk, except where the same message
   * says that the clone was stopped, it had created its destination, and
   * removing it did not fail. Whoever is told knows the first two.
   */
  lemma OkMeansOnDisk(existed: bool, es: seq<Event>)
    requires Run(existed, es) && End(existed, es).stage.Done? && End(existed, es).stage.ok
    ensures !End(existed, es).present <==> End(existed, es).stage.stopped && !existed && Tidy(false) !in es
  {
    InvHolds(existed, es);
    ExistedStays(Started(existed), es);
    GoneIsStoppedAlong(Started(existed), es, false);
  }

  /** A cancel that came before the thread looked is acted on from then. */
  ghost predicate WillTidy(s: State) {
    && s.cancelled && !s.existed
    && (s.stage.Looked? ==> s.stage.stopped)
    && (s.stage.Tidied? || s.stage.Done? ==> s.stage.stopped && s.stage.gone)
  }

  lemma {:induction false} TidiesAlong(s: State, es: seq<Event>)
    requires IsRun(Step, s, es) && WillTidy(s) && Tidy(false) !in es
    ensures WillTidy(After(Step, s, es))
    decreases |es|
  {
    if es != [] {
      assert es[0] in es && forall e | e in es[1..] :: e in es;
      TidiesAlong(Step(s, es[0]).value, es[1..]);
    }
  }

  /** A cancel before the thread looks, of a clone that created its destination, leaves nothing of it, if removing works. */
  lemma CancelledIsRemoved(es: seq<Event>, k: nat)
    requires Run(false, es) && k <= |es| && At(false, es, k).cancelled && Tidy(false) !in es
    requires !At(false, es, k).stage.Looked? && !At(false, es, k).stage.Tidied? && !At(false, es, k).stage.Done?
    requires End(false, es).stage.Done?
    ensures End(false, es).stage.stopped && !End(false, es).present
  {
    Split(Step, Started(false), es, k);
    ExistedStays(Started(false), es[..k]);
    TidiesAlong(At(false, es, k), es[k..]);
    InvHolds(false, es);
  }

  lemma AtNext(existed: bool, es: seq<Event>, k: nat)
    requires Run(existed, es) && k < |es|
    ensures Step(At(existed, es, k), es[k]) == Some(At(existed, es, k + 1))
  {
    Split(Step, Started(existed), es, k + 1);
    Split(Step, Started(existed), es[..k + 1], k);
    assert es[..k + 1][..k] == es[..k] && es[..k + 1][k..] == [es[k]];
  }

  /** git was killed while it ran, and the thread has not looked at the flag unset. */
  ghost predicate WasKilled(s: State) {
    && s.cancelled
    && (if s.child.Running? then s.child.signalled else !s.child.success)
    && (s.stage.Looked? || s.stage.Tidied? || s.stage.Done? ==> s.stage.stopped)
  }

  lemma KilledStays(s: State, e: Event, s': State)
    requires Inv(s) && WasKilled(s) && Step(s, e) == Some(s')
    ensures WasKilled(s')
  {
  }

  /**
   * A cancel that reaches git while it runs decides how the clone ends: it is
   * told as stopped and not as ok, and what it created is gone, if removing
   * works.
   */
  lemma KilledIsStopped(existed: bool, es: seq<Event>, k: nat, c: nat)
    requires Run(existed, es) && k < |es| && es[k] == Kill(c) && At(existed, es, k).child.Running?
    requires End(existed, es).stage.Done?
    ensures End(existed, es).stage.stopped && !End(existed, es).stage.ok
    ensures !existed && Tidy(false) !in es ==> !End(existed, es).present
  {
    Split(Step, Started(existed), es, k);
    InvHolds(existed, es[..k]);
    AtNext(existed, es, k);
    KillKills(At(existed, es, k), c, At(existed, es, k + 1));
    StepKeeps(At(existed, es, k), es[k], At(existed, es, k + 1));
    Split(Step, Started(existed), es, k + 1);
    var inv := s => Inv(s) && WasKilled(s);
    forall s, e | inv(s) && Step(s, e).Some? ensures inv(Step(s, e).value) {
      StepKeeps(s, e, Step(s, e).value);
      KilledStays(s, e, Step(s, e).value);
    }
    Always(Step, inv, At(existed, es, k + 1), es[k + 1..]);
    ExistedStays(Started(existed), es);
    GoneIsStoppedAlong(Started(existed), es, false);
  }

  lemma KillKills(s: State, c: nat, s': State)
    requires Inv(s) && Step(s, Kill(c)) == Some(s') && s.child.Running?
    ensures WasKilled(s')
  {
  }

  /** The thread holds the lock that every cancel needs, and git has not been killed. */
  ghost predicate WaitsUnkilled(s: State) {
    Inv(s) && (s.child.Running? ==> s.stage.Waiting? && !s.child.signalled)
  }

  lemma NobodyKills(s: State, e: Event, s': State)
    requires WaitsUnkilled(s) && Step(s, e) == Some(s')
    ensures WaitsUnkilled(s')
  {
    StepKeeps(s, e, s');
  }

  /**
   * Once git and its helpers have closed their output, and the thread waits
   * for git, no cancel reaches it: from then on git goes on until it ends by
   * itself.
   */
  lemma NoCancelReachesAWaitedFor(existed: bool, es: seq<Event>, k: nat)
    requires Run(existed, es) && k <= |es|
    requires At(existed, es, k).stage.Waiting? && At(existed, es, k).child.Running? && !At(existed, es, k).child.signalled
    ensures End(existed, es).child.Running? ==> !End(existed, es).child.signalled && End(existed, es).stage.Waiting?
  {
    Split(Step, Started(existed), es, k);
    InvHolds(existed, es[..k]);
    forall s, e | WaitsUnkilled(s) && Step(s, e).Some? ensures WaitsUnkilled(Step(s, e).value) {
      NobodyKills(s, e, Step(s, e).value);
    }
    Always(Step, WaitsUnkilled, At(existed, es, k), es[k..]);
  }

  /** Nothing deadlocks: until the window is told, git or a helper runs, or the thread or a cancel can go on. */
  lemma SomethingCanGoOn(existed: bool, es: seq<Event>) returns (e: Event)
    requires Run(existed, es) && !End(existed, es).stage.Done?
    ensures Step(End(existed, es), e).Some? && !e.Press? && !e.Write? && !e.HelperWrites? && !e.Spawn? && !e.CloseOutput?
    ensures e.Exit? || e.HelperExits? ==> End(existed, es).child.Running? || End(existed, es).helpers != {}
  {
    InvHolds(existed, es);
    var s := End(existed, es);
    if s.child.Running? {
      e := Exit(false);
    } else if s.helpers != {} {
      var h :| h in s.helpers;
      e := HelperExits(h);
    } else if s.stage.OutputEnded? && s.lock.Some? {
      e := Kill(s.lock.value.c);
    } else {
      e := match s.stage
      case Reading => EndOfOutput
      case OutputEnded => TakeChild
      case Waiting => Reap
      case Waited(_) => Look
      case Looked(_, _) => Tidy(true)
      case _ => Tell;
    }
  }

  /** Once git is reaped, the thread can go on by itself. */
  lemma ReapedRunsAlone(s: State, works: bool, success: bool) returns (es: seq<Event>)
    requires s.stage == Waited(success)
    ensures IsRun(Step, s, es)
    ensures var s', removes := After(Step, s, es), s.cancelled && !s.existed && works;
            s'.stage == Done(success, s.cancelled, removes) && s'.present == (s.present && !removes)
  {
    var removes := s.cancelled && !s.existed && works;
    var s1 := s.(stage := Looked(success, s.cancelled));
    var s2 := s1.(stage := Tidied(success, s.cancelled, removes), present := s.present && !removes);
    var s3 := s2.(stage := Done(success, s.cancelled, removes));
    First(Step, s2, Tell, s3, []);
    First(Step, s1, Tidy(works), s2, [Tell] + []);
    First(Step, s, Look, s1, [Tidy(works)] + ([Tell] + []));
    es := [Look] + ([Tidy(works)] + ([Tell] + []));
  }

  /**
   * Once git has ended and its helpers are gone, the thread can go on by
   * itself, and then says what it met: how git ended, whether a cancel had
   * come, and whether the destination is gone.
   */
  lemma ThreadRunsAlone(s: State, works: bool) returns (es: seq<Event>)
    requires s.stage.Reading? && s.child.Exited? && s.helpers == {} && s.lock.None?
    ensures IsRun(Step, s, es)
    ensures var s', removes := After(Step, s, es), s.cancelled && !s.existed && works;
            s'.stage == Done(s.child.success, s.cancelled, removes) && s'.present == (s.present && !removes)
  {
    var s1 := s.(stage := OutputEnded);
    var s2 := s1.(stage := Waiting, lock := Some(Thread));
    var s3 := s2.(stage := Waited(s.child.success), child := Reaped(s.child.success), lock := None);
    es := ReapedRunsAlone(s3, works, s.child.success);
    First(Step, s2, Reap, s3, es);
    First(Step, s1, TakeChild, s2, [Reap] + es);
    First(Step, s, EndOfOutput, s1, [TakeChild] + ([Reap] + es));
    es := [EndOfOutput] + ([TakeChild] + ([Reap] + es));
  }

  /** A cancel sets the flag, and while the lock is free it can go on by itself and reaches git, if that still runs. */
  lemma CancelRunsAlone(s: State, c: nat, drops: bool) returns (es: seq<Event>)
    requires c !in s.cancels && s.lock.None?
    ensures IsRun(Step, s, es)
    ensures var s' := After(Step, s, es);
            && s'.cancelled && s'.lock.None? && s'.stage == s.stage && s'.present == s.present
            && (if s.child.Running? then s'.child == Running(s.child.open, true) else s'.child == s.child)
  {
    var s1 := s.(cancels := s.cancels[c := Cancel(drops, Pressed)]);
    var s2 := s1.(cancelled := true, cancels := s1.cancels[c := Cancel(drops, Flagged)]);
    var s3 := s2.(lock := Some(Canceller(c)), cancels := s2.cancels[c := Cancel(drops, Locked)]);
    First(Step, s3, Kill(c), CancelStep(s3, Kill(c)).value, []);
    First(Step, s2, Lock(c), s3, [Kill(c)] + []);
    First(Step, s1, Flag(c), s2, [Lock(c)] + ([Kill(c)] + []));
    First(Step, s, Press(c, drops), s1, [Flag(c)] + ([Lock(c)] + ([Kill(c)] + [])));
    es := [Press(c, drops)] + ([Flag(c)] + ([Lock(c)] + ([Kill(c)] + [])));
  }

  /** A drop of the worker returns exactly once it has done what a cancel does and the window has been told. */
  lemma DropReturnsWhenDone(s: State, c: nat)
    requires c in s.cancels
    ensures Step(s, Join(c)).Some? <==> s.cancels[c].drops && s.cancels[c].stage.Killed? && s.stage.Done?
    ensures Step(s, Join(c)).Some? ==>
              c in Step(s, Join(c)).value.cancels && Step(s, Join(c)).value.cancels[c].stage.Joined?
  {
  }

  /** That one case does happen: git succeeds, and the cancel comes before the thread looks. */
  lemma CancelCanBeatSuccess() returns (es: seq<Event>)
    ensures IsRun(Step, Started(false), es)
    ensures After(Step, Started(false), es).stage == Done(true, true, true) && !After(Step, Started(false), es).present
  {
    var s0 := Started(false);
    var s1 := s0.(present := true);
    var s2 := s1.(child := Exited(true));
    es := ReapedThenCancelled(s2);
    First(Step, s1, Exit(true), s2, es);
    First(Step, s0, Write, s1, [Exit(true)] + es);
    es := [Write] + ([Exit(true)] + es);
  }

  lemma ReapedThenCancelled(s: State) returns (es: seq<Event>)
    requires s.stage.Reading? && s.child == Exited(true) && s.helpers == {} && s.lock.None?
    requires !s.existed && s.cancels == map[]
    ensures IsRun(Step, s, es) && After(Step, s, es).stage == Done(true, true, true) && !After(Step, s, es).present
  {
    var s1 := s.(stage := OutputEnded);
    var s2 := s1.(stage := Waiting, lock := Some(Thread));
    var s3 := s2.(stage := Waited(true), child := Reaped(true), lock := None);
    es := CancelledBeforeTheLook(s3, 0);
    First(Step, s2, Reap, s3, es);
    First(Step, s1, TakeChild, s2, [Reap] + es);
    First(Step, s, EndOfOutput, s1, [TakeChild] + ([Reap] + es));
    es := [EndOfOutput] + ([TakeChild] + ([Reap] + es));
  }

  lemma CancelledBeforeTheLook(s: State, c: nat) returns (es: seq<Event>)
    requires s.stage == Waited(true) && !s.existed && c !in s.cancels
    ensures IsRun(Step, s, es) && After(Step, s, es).stage == Done(true, true, true) && !After(Step, s, es).present
  {
    var s1 := s.(cancels := s.cancels[c := Cancel(false, Pressed)]);
    var s2 := s1.(cancelled := true, cancels := s1.cancels[c := Cancel(false, Flagged)]);
    es := ReapedRunsAlone(s2, true, true);
    First(Step, s1, Flag(c), s2, es);
    First(Step, s, Press(c, false), s1, [Flag(c)] + es);
    es := [Press(c, false)] + ([Flag(c)] + es);
  }

  // --- What git says ---------------------------------------------------------

  const CR := '\r'
  const LF := '\n'

  /** The lines of git's output, each ended by a carriage return or a newline, and what comes after the last of them. */
  function Lines(text: string): (lines: seq<string>)
    ensures |lines| > 0
  {
    if text == "" then [""]
    else if text[|text| - 1] == CR || text[|text| - 1] == LF then Lines(text[..|text| - 1]) + [""]
    else
      var before := Lines(text[..|text| - 1]);
      before[..|before| - 1] + [before[|before| - 1] + [text[|text| - 1]]]
  }

  /** The lines in which `parse` finds progress, in order. */
  function Steps<P>(lines: seq<string>, parse: string -> Option<P>): seq<P> {
    if lines == [] then []
    else
      Steps(lines[..|lines| - 1], parse)
      + if parse(lines[|lines| - 1]).Some? then [parse(lines[|lines| - 1]).value] else []
  }

  /** Of the steps, those that `isNew` says are not the one before over again. */
  function Fresh<P>(steps: seq<P>, isNew: (Option<P>, P) -> bool): seq<P> {
    if steps == [] then []
    else
      var last := |steps| - 1;
      Fresh(steps[..last], isNew)
      + if isNew(if last == 0 then None else Some(steps[last - 1]), steps[last]) then [steps[last]] else []
  }

  /** No line holds a character that ends lines. */
  lemma {:induction false} LinesAreLines(text: string)
    ensures forall l | l in Lines(text) :: CR !in l && LF !in l
  {
    if text != "" {
      LinesAreLines(text[..|text| - 1]);
      var before := Lines(text[..|text| - 1]);
      var n := |before| - 1;
      assert before[n] in before;
      forall l | l in Lines(text) ensures CR !in l && LF !in l {
        assert l in before[..n] || l == before[n] || l == "" || l == before[n] + [text[|text| - 1]];
      }
    }
  }

  /** `text` with a newline for every carriage return. */
  function Plain(text: string): string {
    if text == "" then ""
    else Plain(text[..|text| - 1]) + if text[|text| - 1] == CR then [LF] else [text[|text| - 1]]
  }

  /** No character of the output is lost: its lines, written one under the other, are the output again. */
  lemma {:induction false} LinesAreAllThereIs(text: string)
    ensures Written(Lines(text)) == Plain(text)
  {
    if text != "" {
      var shorter, c := text[..|text| - 1], text[|text| - 1];
      LinesAreAllThereIs(shorter);
      var before := Lines(shorter);
      var n := |before| - 1;
      if c == CR || c == LF {
        WrittenGrows(before, "");
      } else {
        assert before == before[..n] + [before[n]];
        LastGrows(before[..n], before[n], [c]);
      }
    }
  }

  /** Any lines without line ends that, written one under the other, are the output, are the lines that are cut. */
  lemma LinesAreTheOnly(text: string, lines: seq<string>)
    requires |lines| > 0 && forall l | l in lines :: CR !in l && LF !in l
    requires Written(lines) == Plain(text)
    ensures lines == Lines(text)
  {
    LinesAreLines(text);
    LinesAreAllThereIs(text);
    WrittenIsInjective(lines, Lines(text));
  }

  lemma EndsThere(p: string, x: string)
    requires LF !in x
    ensures var w := p + [LF] + x; w[|p|] == LF && w[..|p|] == p && w[|p| + 1..] == x
    ensures var w := p + [LF] + x; forall i | |p| < i < |w| :: w[i] != LF
  {
    var w := p + [LF] + x;
    forall i | |p| < i < |w| ensures w[i] != LF {
      assert w[i] == x[i - |p| - 1];
    }
  }

  lemma SplitAtLast(p: string, x: string, q: string, y: string)
    requires p + [LF] + x == q + [LF] + y && LF !in x && LF !in y
    ensures p == q && x == y
  {
    EndsThere(p, x);
    EndsThere(q, y);
    assert |p| == |q|;
  }

  lemma WrittenHasEnds(lines: seq<string>)
    requires |lines| > 0 && forall l | l in lines :: LF !in l
    ensures LF in Written(lines) <==> |lines| > 1
  {
    if |lines| > 1 {
      var w, k := Written(lines), |Written(lines[..|lines| - 1])|;
      assert w[k] == LF;
    }
  }

  lemma {:induction false} WrittenIsInjective(a: seq<string>, b: seq<string>)
    requires |a| > 0 && |b| > 0 && Written(a) == Written(b)
    requires (forall l | l in a :: LF !in l) && forall l | l in b :: LF !in l
    ensures a == b
  {
    var n, m := |a| - 1, |b| - 1;
    assert a == a[..n] + [a[n]] && b == b[..m] + [b[m]];
    WrittenHasEnds(a);
    WrittenHasEnds(b);
    if n > 0 {
      SplitAtLast(Written(a[..n]), a[n], Written(b[..m]), b[m]);
      WrittenIsInjective(a[..n], b[..m]);
    }
  }

  /** Lines with a newline between them. */
  function Written(lines: seq<string>): string {
    if lines == [] then ""
    else if |lines| == 1 then lines[0]
    else Written(lines[..|lines| - 1]) + [LF] + lines[|lines| - 1]
  }

  lemma WrittenGrows(lines: seq<string>, l: string)
    requires lines != []
    ensures Written(lines + [l]) == Written(lines) + [LF] + l
  {
    assert (lines + [l])[..|lines|] == lines;
  }

  lemma LastGrows(lines: seq<string>, l: string, more: string)
    ensures Written(lines + [l + more]) == Written(lines + [l]) + more
  {
    if lines != [] {
      WrittenGrows(lines, l);
      WrittenGrows(lines, l + more);
    }
  }

  /** After `lines`, every step that is new has been told, in order, and the last step is known. */
  ghost predicate IsTold<P>(lines: seq<string>, parse: string -> Option<P>, isNew: (Option<P>, P) -> bool,
                            told: seq<P>, last: Option<P>) {
    told == Fresh(Steps(lines, parse), isNew) && last == LastOf(Steps(lines, parse))
  }

  /** What the `i`-th line says of progress. */
  function Parsed<P>(lines: seq<string>, parse: string -> Option<P>): nat -> Option<P> {
    (i: nat) => if i < |lines| then parse(lines[i]) else None
  }

  /** The `i`-th step, when it is new after the one before it. */
  function IfNew<P>(steps: seq<P>, isNew: (Option<P>, P) -> bool): nat -> Option<P> {
    (i: nat) =>
      if i < |steps| && isNew(if i == 0 then None else Some(steps[i - 1]), steps[i]) then Some(steps[i]) else None
  }

  lemma {:induction false} StepsAreParsed<P>(lines: seq<string>, parse: string -> Option<P>) returns (at: seq<nat>)
    ensures Selects(|lines|, Parsed(lines, parse), at, Steps(lines, parse))
    decreases |lines|
  {
    at := [];
    if lines != [] {
      var n := |lines| - 1;
      at := StepsAreParsed(lines[..n], parse);
      SelectsTheSame(n, Parsed(lines[..n], parse), Parsed(lines, parse), at, Steps(lines[..n], parse));
      SelectsOneMore(n, Parsed(lines, parse), at, Steps(lines[..n], parse));
      at := at + if Parsed(lines, parse)(n).Some? then [n] else [];
    }
  }

  lemma NewsAgree<P>(steps: seq<P>, n: nat, isNew: (Option<P>, P) -> bool, i: nat)
    requires i < n < |steps|
    ensures IfNew(steps[..n], isNew)(i) == IfNew(steps, isNew)(i)
  {
    assert steps[..n][i] == steps[i];
    assert i > 0 ==> steps[..n][i - 1] == steps[i - 1];
  }

  lemma NewsGrow<P>(steps: seq<P>, n: nat, isNew: (Option<P>, P) -> bool)
    requires |steps| == n + 1
    ensures Fresh(steps, isNew) == Fresh(steps[..n], isNew) + Any(IfNew(steps, isNew)(n))
  {
    var before := if n == 0 then None else Some(steps[n - 1]);
    assert IfNew(steps, isNew)(n) == if isNew(before, steps[n]) then Some(steps[n]) else None;
  }

  lemma {:induction false} FreshAreNew<P>(steps: seq<P>, isNew: (Option<P>, P) -> bool) returns (at: seq<nat>)
    ensures Selects(|steps|, IfNew(steps, isNew), at, Fresh(steps, isNew))
    decreases |steps|
  {
    at := [];
    if steps != [] {
      var n := |steps| - 1;
      at := FreshAreNew(steps[..n], isNew);
      forall i | 0 <= i < n ensures IfNew(steps[..n], isNew)(i) == IfNew(steps, isNew)(i) {
        NewsAgree(steps, n, isNew, i);
      }
      NewsGrow(steps, n, isNew);
      SelectsTheSame(n, IfNew(steps[..n], isNew), IfNew(steps, isNew), at, Fresh(steps[..n], isNew));
      SelectsOneMore(n, IfNew(steps, isNew), at, Fresh(steps[..n], isNew));
      at := at + if IfNew(steps, isNew)(n).Some? then [n] else [];
    }
  }

  /**
   * What is told are those of the steps, in their order and all of them, that
   * are new after the step before; the steps are what the lines that say
   * anything of progress say, in their order and all of them; and the last of
   * those is returned.
   */
  lemma ToldIsTheNew<P>(lines: seq<string>, parse: string -> Option<P>, isNew: (Option<P>, P) -> bool,
                        told: seq<P>, last: Option<P>)
    returns (steps: seq<P>, parsed: seq<nat>, news: seq<nat>)
    requires IsTold(lines, parse, isNew, told, last)
    ensures Selects(|lines|, Parsed(lines, parse), parsed, steps)
    ensures Selects(|steps|, IfNew(steps, isNew), news, told)
    ensures last == if steps == [] then None else Some(steps[|steps| - 1])
  {
    steps := Steps(lines, parse);
    parsed := StepsAreParsed(lines, parse);
    news := FreshAreNew(steps, isNew);
  }

  lemma LinesGrow(text: string, i: nat, done: seq<string>, line: string)
    requires i < |text| && Lines(text[..i]) == done + [line]
    ensures text[i] == CR || text[i] == LF ==> Lines(text[..i + 1]) == (done + [line]) + [""]
    ensures text[i] != CR && text[i] != LF ==> Lines(text[..i + 1]) == done + [line + [text[i]]]
  {
    var more := text[..i + 1];
    assert more[..i] == text[..i] && more[i] == text[i];
    assert (done + [line])[..|done|] == done;
  }

  /** Read git's output to its end, a character at a time; say every new step, and return the last step of all. */
  method Report<P>(text: string, parse: string -> Option<P>, isNew: (Option<P>, P) -> bool)
    returns (told: seq<P>, last: Option<P>)
    ensures IsTold(Lines(text), parse, isNew, told, last)
  {
    var line := "";
    told, last := [], None;
    ghost var done: seq<string> := [];
    var i := 0;
    while i < |text|
      invariant 0 <= i <= |text| && Lines(text[..i]) == done + [line]
      invariant IsTold(done, parse, isNew, told, last)
    {
      LinesGrow(text, i, done, line);
      if text[i] == CR || text[i] == LF {
        told, last := Flush(line, done, told, last, parse, isNew);
        done := done + [line];
        line := "";
      } else {
        line := line + [text[i]];
      }
      i := i + 1;
    }
    assert text[..i] == text;
    told, last := Flush(line, done, told, last, parse, isNew);
  }

  lemma StepsGrow<P>(lines: seq<string>, l: string, parse: string -> Option<P>)
    ensures Steps(lines + [l], parse) == Steps(lines, parse) + if parse(l).Some? then [parse(l).value] else []
  {
    assert (lines + [l])[..|lines|] == lines;
  }

  lemma FreshGrows<P>(steps: seq<P>, step: P, isNew: (Option<P>, P) -> bool)
    ensures Fresh(steps + [step], isNew) == Fresh(steps, isNew) + if isNew(LastOf(steps), step) then [step] else []
  {
    assert (steps + [step])[..|steps|] == steps;
  }

  function LastOf<P>(steps: seq<P>): Option<P> {
    if steps == [] then None else Some(steps[|steps| - 1])
  }

  /** One line more. */
  method Flush<P>(line: string, ghost done: seq<string>, told: seq<P>, last: Option<P>,
                  parse: string -> Option<P>, isNew: (Option<P>, P) -> bool)
    returns (told': seq<P>, last': Option<P>)
    requires IsTold(done, parse, isNew, told, last)
    ensures IsTold(done + [line], parse, isNew, told', last')
  {
    told', last' := told, last;
    var step := parse(line);
    StepsGrow(done, line, parse);
    if step.None? {
      assert Steps(done + [line], parse) == Steps(done, parse);
    } else {
      FreshGrows(Steps(done, parse), step.value, isNew);
      if isNew(last, step.value) {
        told' := told + [step.value];
      }
      last' := step;
    }
  }
}
