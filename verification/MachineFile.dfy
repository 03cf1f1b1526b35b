/**
 * The file the list of agents is kept in (src-tauri/src/agents.rs). Any number
 * of commands change it at once, any of their system calls may fail, the
 * application may stop at any step, and commands read it without a lock.
 */
module MachineFile {
  import opened Wrappers
  import opened Runs
  import opened MachineList

  /** What is in a file: text that is not a list, a write that was cut off, or a list. */
  datatype Content = Unparsable | Torn | Whole(machine: Machine)

  /**
   * How far a change has come. `place` is history: where among all changes its
   * rename came. `Lost` is a change the application stopped in the middle of.
   */
  datatype Stage =
    | Asked
    | Holding
    | Read(machine: Machine)
    | Edited(machine: Machine)
    | Writing(machine: Machine)
    | Written(machine: Machine)
    | Renamed(machine: Machine, place: nat)
    | Failing
    | Done(machine: Machine, place: nat)
    | Failed
    | Lost(at: Option<nat>)
  {
    predicate Holds() { Holding? || Read? || Edited? || Writing? || Written? || Renamed? || Failing? }

    predicate IsOver() { Done? || Failed? || Lost? }

    function Place(): Option<nat> {
      if Renamed? || Done? then Some(place) else if Lost? then at else None
    }
  }

  /** `turn` is history: which holder of the lock the change was. */
  datatype Call = Call(edit: Edit, stage: Stage, turn: nat)

  datatype Commit = Commit(call: nat, edit: Edit)

  /** The two files, the lock, the changes, and as history the renames in order. */
  datatype State = State(
    file: Option<Content>, partial: Option<Content>, holder: Option<nat>,
    calls: map<nat, Call>, committed: seq<Commit>, turns: nat)

  datatype Event =
    | Ask(t: nat, edit: Edit)
    | Acquire(t: nat)
    | ReadFile(t: nat, ok: bool)
    | Apply(t: nat)
    | BeginWrite(t: nat, ok: bool)
    | EndWrite(t: nat, ok: bool)
    | Rename(t: nat, ok: bool)
    | Release(t: nat)
    | Crash

  /** No file is an empty list; a file that does not parse is an error. */
  function ReadAt(file: Option<Content>): Option<Machine> {
    match file
    case None => Some(DEFAULT)
    case Some(Whole(m)) => Some(m)
    case Some(_) => None
  }

  /** What a command that only reads gets: whatever cannot be read is an empty list. */
  function Load(file: Option<Content>): Machine {
    if ReadAt(file).Some? then ReadAt(file).value else DEFAULT
  }

  function To(s: State, t: nat, stage: Stage): State
    requires t in s.calls
  {
    s.(calls := s.calls[t := s.calls[t].(stage := stage)])
  }

  function Stopped(stage: Stage): Stage {
    if stage.IsOver() then stage else Lost(stage.Place())
  }

  /** One step of change `t` from stage `from`; the lock is held. */
  function HeldStep(s: State, e: Event, from: Stage): Option<State>
    requires !e.Crash? && e.t in s.calls
  {
    match (e, from)
    case (ReadFile(t, ok), Holding) =>
      Some(To(s, t, if ok && ReadAt(s.file).Some? then Read(ReadAt(s.file).value) else Failing))
    case (Apply(t), Read(m)) =>
      var n := Applied(m, s.calls[t].edit);
      Some(To(s, t, if n.Some? then Edited(n.value) else Failing))
    case (BeginWrite(t, ok), Edited(m)) =>
      Some(if ok then To(s.(partial := Some(Torn)), t, Writing(m)) else To(s, t, Failing))
    case (EndWrite(t, ok), Writing(m)) =>
      Some(if ok then To(s.(partial := Some(Whole(m))), t, Written(m)) else To(s, t, Failing))
    case (Rename(t, ok), Written(m)) =>
      Some(if ok
           then To(s.(file := s.partial, partial := None, committed := s.committed + [Commit(t, s.calls[t].edit)]),
                   t, Renamed(m, |s.committed|))
           else To(s, t, Failing))
    case (Release(t), Renamed(m, k)) => Some(To(s.(holder := None), t, Done(m, k)))
    case (Release(t), Failing) => Some(To(s.(holder := None), t, Failed))
    case _ => None
  }

  function Step(s: State, e: Event): Option<State> {
    match e
    case Ask(t, edit) => if t in s.calls then None else Some(s.(calls := s.calls[t := Call(edit, Asked, 0)]))
    case Acquire(t) =>
      if s.holder.Some? || t !in s.calls || !s.calls[t].stage.Asked? then None
      else Some(s.(holder := Some(t), turns := s.turns + 1,
                   calls := s.calls[t := s.calls[t].(stage := Holding, turn := s.turns + 1)]))
    case Crash => Some(s.(holder := None, calls := map t | t in s.calls :: s.calls[t].(stage := Stopped(s.calls[t].stage))))
    case _ => if e.t in s.calls && s.holder == Some(e.t) then HeldStep(s, e, s.calls[e.t].stage) else None
  }

  function Started(base: Option<Content>): State {
    State(base, None, None, map[], [], 0)
  }

  // --- What every step keeps -------------------------------------------------

  function Edits(committed: seq<Commit>): seq<Edit> {
    seq(|committed|, i requires 0 <= i < |committed| => committed[i].edit)
  }

  /** The list after the first `k` renames. */
  function Version(base: Option<Content>, committed: seq<Commit>, k: nat): Machine
    requires k <= |committed|
  {
    AllApplied(Load(base), Edits(committed[..k]))
  }

  /** The file is the one there was until something is renamed over it, and then always the last version. */
  ghost predicate FileIs(base: Option<Content>, file: Option<Content>, committed: seq<Commit>) {
    && (ReadAt(base).None? ==> committed == [])
    && file == if committed == [] then base else Some(Whole(Version(base, committed, |committed|)))
  }

  ghost predicate Next(file: Option<Content>, edit: Edit, m: Machine) {
    ReadAt(file).Some? && Applied(ReadAt(file).value, edit) == Some(m)
  }

  ghost predicate InHand(file: Option<Content>, partial: Option<Content>, c: Call) {
    match c.stage
    case Read(m) => ReadAt(file) == Some(m)
    case Edited(m) => Next(file, c.edit, m)
    case Writing(m) => Next(file, c.edit, m) && partial == Some(Torn)
    case Written(m) => Next(file, c.edit, m) && partial == Some(Whole(m))
    case _ => true
  }

  ghost predicate OneHolder(calls: map<nat, Call>, holder: Option<nat>) {
    && (holder.Some? ==> holder.value in calls && calls[holder.value].stage.Holds())
    && (forall t | t in calls && calls[t].stage.Holds() :: holder == Some(t))
  }

  ghost predicate HolderIs(s: State) {
    OneHolder(s.calls, s.holder) && (s.holder.Some? ==> InHand(s.file, s.partial, s.calls[s.holder.value]))
  }

  /** A change that was renamed is where it says it is, and what it hands back is the list as of then. */
  ghost predicate IsPlaced(base: Option<Content>, committed: seq<Commit>, t: nat, c: Call) {
    c.stage.Place().Some? ==>
      var k := c.stage.Place().value;
      && k < |committed| && committed[k] == Commit(t, c.edit)
      && (c.stage.Renamed? || c.stage.Done? ==> c.stage.machine == Version(base, committed, k + 1))
  }

  ghost predicate Places(base: Option<Content>, calls: map<nat, Call>, committed: seq<Commit>) {
    && (forall t | t in calls :: IsPlaced(base, committed, t, calls[t]))
    && (forall i | 0 <= i < |committed| ::
          committed[i].call in calls && calls[committed[i].call].stage.Place() == Some(i))
  }

  function TurnOf(calls: map<nat, Call>, c: Commit): nat {
    if c.call in calls then calls[c.call].turn else 0
  }

  /** Renames come in the order in which the lock was taken. */
  ghost predicate InLockOrder(calls: map<nat, Call>, committed: seq<Commit>, turns: nat) {
    && (forall i, j | 0 <= i < j < |committed| :: TurnOf(calls, committed[i]) < TurnOf(calls, committed[j]))
    && (forall i | 0 <= i < |committed| :: TurnOf(calls, committed[i]) <= turns)
  }

  ghost predicate HoldersTurn(s: State) {
    s.holder.Some? && s.holder.value in s.calls && s.calls[s.holder.value].stage.Place().None? ==>
      && s.calls[s.holder.value].turn == s.turns
      && forall i | 0 <= i < |s.committed| :: TurnOf(s.calls, s.committed[i]) < s.turns
  }

  ghost predicate Inv(base: Option<Content>, s: State) {
    && FileIs(base, s.file, s.committed)
    && HolderIs(s)
    && Places(base, s.calls, s.committed)
    && InLockOrder(s.calls, s.committed, s.turns)
    && HoldersTurn(s)
  }

  lemma VersionStays(base: Option<Content>, committed: seq<Commit>, c: Commit, k: nat)
    requires k <= |committed|
    ensures Version(base, committed + [c], k) == Version(base, committed, k)
  {
    assert (committed + [c])[..k] == committed[..k];
  }

  /** One more rename is one more edit. */
  lemma VersionGrows(base: Option<Content>, file: Option<Content>, committed: seq<Commit>, c: Commit, m: Machine)
    requires FileIs(base, file, committed) && Next(file, c.edit, m)
    ensures Version(base, committed + [c], |committed| + 1) == m
  {
    var more := committed + [c];
    assert more[..|committed| + 1] == more && committed[..|committed|] == committed;
    assert Edits(more)[..|committed|] == Edits(committed);
    assert AllApplied(Load(base), Edits(committed)) == ReadAt(file).value;
  }

  /** A change that moves on without renaming leaves every place and turn as it was. */
  lemma MovePlaces(base: Option<Content>, calls: map<nat, Call>, committed: seq<Commit>, t: nat, c: Call)
    requires Places(base, calls, committed)
    requires t in calls ==> calls[t].stage.Place() == c.stage.Place() && calls[t].edit == c.edit
    requires t !in calls ==> c.stage.Place().None?
    requires c.stage.Renamed? || c.stage.Done? ==>
               t in calls && calls[t].stage.Renamed? && calls[t].stage.machine == c.stage.machine
    ensures Places(base, calls[t := c], committed)
  {
    if t in calls {
      assert IsPlaced(base, committed, t, calls[t]);
    }
  }

  lemma MoveOrder(base: Option<Content>, calls: map<nat, Call>, committed: seq<Commit>, turns: nat, t: nat, c: Call)
    requires Places(base, calls, committed) && InLockOrder(calls, committed, turns)
    requires t in calls && calls[t].turn != c.turn ==> calls[t].stage.Place().None?
    ensures InLockOrder(calls[t := c], committed, turns)
    ensures forall i | 0 <= i < |committed| :: TurnOf(calls[t := c], committed[i]) == TurnOf(calls, committed[i])
  {
    forall i | 0 <= i < |committed| ensures TurnOf(calls[t := c], committed[i]) == TurnOf(calls, committed[i]) {
      assert committed[i].call in calls && calls[committed[i].call].stage.Place() == Some(i);
    }
  }

  lemma AskKeeps(base: Option<Content>, s: State, t: nat, edit: Edit, s': State)
    requires Inv(base, s) && Step(s, Ask(t, edit)) == Some(s')
    ensures Inv(base, s')
  {
    MovePlaces(base, s.calls, s.committed, t, Call(edit, Asked, 0));
    MoveOrder(base, s.calls, s.committed, s.turns, t, Call(edit, Asked, 0));
  }

  lemma AcquireKeeps(base: Option<Content>, s: State, t: nat, s': State)
    requires Inv(base, s) && Step(s, Acquire(t)) == Some(s')
    ensures Inv(base, s')
  {
    MovePlaces(base, s.calls, s.committed, t, s'.calls[t]);
    MoveOrder(base, s.calls, s.committed, s.turns, t, s'.calls[t]);
  }

  /** What a step of the holder that renames nothing does. */
  ghost predicate Moved(s: State, t: nat, s': State) {
    && t in s.calls && t in s'.calls && s.holder == Some(t)
    && s' == s.(calls := s.calls[t := s'.calls[t]], partial := s'.partial, holder := s'.holder)
    && MovedTo(s.calls[t], s'.calls[t])
    && (if s'.calls[t].stage.Holds() then s'.holder == Some(t) else s'.holder == None)
    && InHand(s'.file, s'.partial, s'.calls[t])
  }

  ghost predicate MovedTo(c: Call, c': Call) {
    && c'.edit == c.edit && c'.turn == c.turn && c'.stage.Place() == c.stage.Place()
    && (c'.stage.Renamed? || c'.stage.Done? ==> c.stage.Renamed? && c.stage.machine == c'.stage.machine)
  }

  lemma HeldMoves(s: State, e: Event, s': State)
    requires HolderIs(s) && Step(s, e) == Some(s')
    requires !e.Ask? && !e.Acquire? && !e.Crash? && !(e.Rename? && e.ok)
    ensures Moved(s, e.t, s')
  {
    assert InHand(s.file, s.partial, s.calls[e.t]) && s.calls[e.t].stage.Holds();
  }

  lemma HeldKeeps(base: Option<Content>, s: State, t: nat, s': State)
    requires Inv(base, s) && Moved(s, t, s')
    ensures Inv(base, s')
  {
    MovePlaces(base, s.calls, s.committed, t, s'.calls[t]);
    MoveOrder(base, s.calls, s.committed, s.turns, t, s'.calls[t]);
  }

  /** What a rename does: the file becomes the list that was written. */
  ghost predicate Lands(s: State, t: nat, m: Machine, s': State) {
    && t in s.calls && s.holder == Some(t) && s.calls[t].stage.Place().None? && Next(s.file, s.calls[t].edit, m)
    && s' == s.(file := Some(Whole(m)), partial := None, committed := s.committed + [Commit(t, s.calls[t].edit)],
                calls := s.calls[t := s.calls[t].(stage := Renamed(m, |s.committed|))])
  }

  lemma RenameLands(s: State, t: nat, s': State)
    requires HolderIs(s) && Step(s, Rename(t, true)) == Some(s')
    ensures s.calls[t].stage.Written? && Lands(s, t, s.calls[t].stage.machine, s')
  {
    assert InHand(s.file, s.partial, s.calls[t]);
  }

  lemma RenameKeeps(base: Option<Content>, s: State, t: nat, m: Machine, s': State)
    requires Inv(base, s) && Lands(s, t, m, s')
    ensures Inv(base, s')
  {
    var c := Commit(t, s.calls[t].edit);
    VersionGrows(base, s.file, s.committed, c, m);
    RenamePlaces(base, s.calls, s.committed, t, m);
    MoveOrder(base, s.calls, s.committed, s.turns, t, s'.calls[t]);
    RenameOrder(s.calls, s'.calls, s.committed, c, s.turns);
  }

  lemma RenameOrder(calls: map<nat, Call>, calls': map<nat, Call>, committed: seq<Commit>, c: Commit, turns: nat)
    requires InLockOrder(calls, committed, turns)
    requires forall i | 0 <= i < |committed| :: TurnOf(calls, committed[i]) < turns
    requires forall i | 0 <= i < |committed| :: TurnOf(calls', committed[i]) == TurnOf(calls, committed[i])
    requires TurnOf(calls', c) == turns
    ensures InLockOrder(calls', committed + [c], turns)
  {
  }

  lemma RenamePlaces(base: Option<Content>, calls: map<nat, Call>, committed: seq<Commit>, t: nat, m: Machine)
    requires Places(base, calls, committed) && t in calls && calls[t].stage.Place().None?
    requires m == Version(base, committed + [Commit(t, calls[t].edit)], |committed| + 1)
    ensures Places(base, calls[t := calls[t].(stage := Renamed(m, |committed|))], committed + [Commit(t, calls[t].edit)])
  {
    var c := Commit(t, calls[t].edit);
    var calls' := calls[t := calls[t].(stage := Renamed(m, |committed|))];
    forall u | u in calls' ensures IsPlaced(base, committed + [c], u, calls'[u]) {
      if u != t && calls[u].stage.Place().Some? {
        assert IsPlaced(base, committed, u, calls[u]);
        VersionStays(base, committed, c, calls[u].stage.Place().value + 1);
      }
    }
    forall i | 0 <= i < |committed| + 1
      ensures (committed + [c])[i].call in calls' && calls'[(committed + [c])[i].call].stage.Place() == Some(i)
    {
      if i < |committed| {
        assert committed[i].call in calls && calls[committed[i].call].stage.Place() == Some(i);
      }
    }
  }

  lemma CrashPlaces(base: Option<Content>, calls: map<nat, Call>, committed: seq<Commit>, turns: nat,
                    calls': map<nat, Call>)
    requires Places(base, calls, committed) && InLockOrder(calls, committed, turns)
    requires calls' == map t | t in calls :: calls[t].(stage := Stopped(calls[t].stage))
    ensures Places(base, calls', committed) && InLockOrder(calls', committed, turns)
  {
    forall t | t in calls' ensures IsPlaced(base, committed, t, calls'[t]) {
      assert IsPlaced(base, committed, t, calls[t]);
    }
    forall i | 0 <= i < |committed|
      ensures committed[i].call in calls' && calls'[committed[i].call].stage.Place() == Some(i)
      ensures TurnOf(calls', committed[i]) == TurnOf(calls, committed[i])
    {
      assert committed[i].call in calls && calls[committed[i].call].stage.Place() == Some(i);
    }
  }

  lemma CrashKeeps(base: Option<Content>, s: State, s': State)
    requires Inv(base, s) && Step(s, Crash) == Some(s')
    ensures Inv(base, s')
  {
    CrashPlaces(base, s.calls, s.committed, s.turns, s'.calls);
  }

  lemma StepKeeps(base: Option<Content>, s: State, e: Event, s': State)
    requires Inv(base, s) && Step(s, e) == Some(s')
    ensures Inv(base, s')
  {
    if e.Ask? {
      AskKeeps(base, s, e.t, e.edit, s');
    } else if e.Acquire? {
      AcquireKeeps(base, s, e.t, s');
    } else if e.Crash? {
      CrashKeeps(base, s, s');
    } else if e.Rename? && e.ok {
      RenameLands(s, e.t, s');
      RenameKeeps(base, s, e.t, s.calls[e.t].stage.machine, s');
    } else {
      HeldMoves(s, e, s');
      HeldKeeps(base, s, e.t, s');
    }
  }

  /** A run from the start: any interleaving. */
  ghost predicate Run(base: Option<Content>, es: seq<Event>) {
    IsRun(Step, Started(base), es)
  }

  ghost function End(base: Option<Content>, es: seq<Event>): State
    requires Run(base, es)
  {
    After(Step, Started(base), es)
  }

  /** The state `k` steps into a run. */
  ghost function At(base: Option<Content>, es: seq<Event>, k: nat): State
    requires Run(base, es) && k <= |es|
  {
    Split(Step, Started(base), es, k);
    After(Step, Started(base), es[..k])
  }

  lemma InvHolds(base: Option<Content>, es: seq<Event>)
    requires Run(base, es)
    ensures Inv(base, End(base, es))
  {
    var inv := s => Inv(base, s);
    forall s, e | inv(s) && Step(s, e).Some? ensures inv(Step(s, e).value) {
      StepKeeps(base, s, e, Step(s, e).value);
    }
    Always(Step, inv, Started(base), es);
  }

  // --- Every run -------------------------------------------------------------

  lemma {:induction false} HistoryGrows(s: State, es: seq<Event>)
    requires IsRun(Step, s, es)
    ensures s.committed <= After(Step, s, es).committed
    decreases |es|
  {
    if es != [] {
      HistoryGrows(Step(s, es[0]).value, es[1..]);
    }
  }

  /** The list in a file; an empty one where there is no file, or no list in it. */
  function ListIn(file: Option<Content>): Machine {
    match file
    case Some(Whole(m)) => m
    case _ => DEFAULT
  }

  /** The edits that were renamed over the file, in the order in which their changes took the lock. */
  ghost predicate Linearised(base: Option<Content>, s: State) {
    && s.file == (if s.committed == [] then base else Some(Whole(AllApplied(ListIn(base), Edits(s.committed)))))
    && (forall i, j | 0 <= i < j < |s.committed| :: TurnOf(s.calls, s.committed[i]) < TurnOf(s.calls, s.committed[j]))
  }

  /** `t` is in the history once, with its own edit, when it succeeded, and not at all when it failed. */
  ghost predicate Counts(base: Option<Content>, s: State, t: nat)
    requires t in s.calls
  {
    && (s.calls[t].stage.Done? ==>
          var k := s.calls[t].stage.place;
          && k < |s.committed| && s.committed[k] == Commit(t, s.calls[t].edit)
          && s.calls[t].stage.machine == AllApplied(ListIn(base), Edits(s.committed[..k + 1]))
          && forall i | 0 <= i < |s.committed| && i != k :: s.committed[i].call != t)
    && (s.calls[t].stage.Failed? ==> forall i | 0 <= i < |s.committed| :: s.committed[i].call != t)
  }

  /** Whatever runs at once and whatever fails, the file is the successful edits one by one, none lost and none twice. */
  lemma ChangesAreLinear(base: Option<Content>, es: seq<Event>)
    requires Run(base, es)
    ensures Linearised(base, End(base, es))
    ensures forall t | t in End(base, es).calls :: Counts(base, End(base, es), t)
  {
    InvHolds(base, es);
    var s := End(base, es);
    assert s.committed[..|s.committed|] == s.committed;
    forall t | t in s.calls ensures Counts(base, s, t) {
      assert IsPlaced(base, s.committed, t, s.calls[t]);
    }
  }

  /** A file that cannot be read as a list is never written over, and no change over it succeeds. */
  lemma UnreadableIsLeftAlone(base: Option<Content>, es: seq<Event>)
    requires Run(base, es) && (base == Some(Unparsable) || base == Some(Torn))
    ensures End(base, es).file == base
    ensures forall t | t in End(base, es).calls :: !End(base, es).calls[t].stage.Done?
  {
    InvHolds(base, es);
    var s := End(base, es);
    forall t | t in s.calls ensures !s.calls[t].stage.Done? {
      assert IsPlaced(base, s.committed, t, s.calls[t]);
    }
  }

  /**
   * Whenever the file is looked at during a run — by a command that takes no
   * lock, or after the application stopped there — it holds one version of
   * the list, from the history the run ends with, and never part of one.
   */
  lemma AlwaysAWholeVersion(base: Option<Content>, es: seq<Event>, k: nat) returns (version: nat)
    requires Run(base, es) && k <= |es|
    ensures version == |At(base, es, k).committed| <= |End(base, es).committed|
    ensures Load(At(base, es, k).file) == ListIn(At(base, es, k).file) && Load(base) == ListIn(base)
    ensures Load(At(base, es, k).file) == Version(base, End(base, es).committed, version)
    ensures At(base, es, k).file != base ==>
              At(base, es, k).file == Some(Whole(Version(base, End(base, es).committed, version)))
  {
    Split(Step, Started(base), es, k);
    InvHolds(base, es[..k]);
    var mid, end := At(base, es, k), End(base, es);
    HistoryGrows(mid, es[k..]);
    version := |mid.committed|;
    assert end.committed[..version] == mid.committed[..version];
  }

  /** Of two looks at the file, the later never sees an earlier version than the first. */
  lemma LooksNeverGoBack(base: Option<Content>, es: seq<Event>, j: nat, k: nat) returns (v: nat, w: nat)
    requires Run(base, es) && j <= k <= |es|
    ensures v <= w <= |End(base, es).committed|
    ensures Load(At(base, es, j).file) == Version(base, End(base, es).committed, v)
    ensures Load(At(base, es, k).file) == Version(base, End(base, es).committed, w)
    ensures v == |At(base, es, j).committed| && w == |At(base, es, k).committed|
  {
    v := AlwaysAWholeVersion(base, es, j);
    w := AlwaysAWholeVersion(base, es, k);
    Split(Step, Started(base), es, k);
    Split(Step, Started(base), es[..k], j);
    assert es[..k][..j] == es[..j];
    HistoryGrows(At(base, es, j), es[..k][j..]);
  }

  /** A change that is asked for after another has succeeded is applied after it. */
  lemma LaterChangesComeLater(base: Option<Content>, es: seq<Event>, k: nat, first: nat, second: nat)
    requires Run(base, es) && k <= |es|
    requires first in At(base, es, k).calls && At(base, es, k).calls[first].stage.Done?
    requires second !in At(base, es, k).calls
    requires second in End(base, es).calls && End(base, es).calls[second].stage.Done?
    ensures At(base, es, k).calls[first].stage.place < End(base, es).calls[second].stage.place
  {
    Split(Step, Started(base), es, k);
    InvHolds(base, es[..k]);
    InvHolds(base, es);
    var mid, end := At(base, es, k), End(base, es);
    HistoryGrows(mid, es[k..]);
    assert IsPlaced(base, mid.committed, first, mid.calls[first]);
    assert IsPlaced(base, end.committed, second, end.calls[second]);
    assert forall j | 0 <= j < |mid.committed| ::
        end.committed[j] == mid.committed[j] && mid.committed[j].call in mid.calls;
  }

  /** No read of the file, at any moment, shows two remote agents with one id. */
  lemma ReadIdsAreDistinct(base: Option<Content>, es: seq<Event>)
    requires Run(base, es) && DistinctIds(Load(base).remote)
    ensures DistinctIds(Load(End(base, es).file).remote)
  {
    InvHolds(base, es);
    var s := End(base, es);
    IdsStayDistinct(Load(base), Edits(s.committed[..|s.committed|]));
  }

  /** Some change that is not over can always take a step: none waits for one that waits. */
  lemma SomeChangeCanGoOn(base: Option<Content>, s: State, t: nat) returns (e: Event)
    requires Inv(base, s) && t in s.calls && !s.calls[t].stage.IsOver()
    ensures Step(s, e).Some? && !e.Ask? && !e.Crash?
  {
    if s.holder.None? {
      e := Acquire(t);
    } else {
      e := HolderGoesOn(s, s.holder.value);
    }
  }

  lemma HolderGoesOn(s: State, t: nat) returns (e: Event)
    requires s.holder == Some(t) && t in s.calls && s.calls[t].stage.Holds()
    ensures Step(s, e).Some? && !e.Ask? && !e.Crash?
  {
    match s.calls[t].stage
    case Holding => e := ReadFile(t, true);
    case Read(_) => e := Apply(t);
    case Edited(_) => e := BeginWrite(t, true);
    case Writing(_) => e := EndWrite(t, true);
    case Written(_) => e := Rename(t, true);
    case _ => e := Release(t);
  }

  // --- What becomes of a change ----------------------------------------------

  /** Which of a change's system calls succeed. */
  datatype Weather = Weather(canRead: bool, canBegin: bool, canEnd: bool, canRename: bool)
  {
    predicate Fair() { canRead && canBegin && canEnd && canRename }
  }

  /** `edit` makes `m` of what is in `file`: of an empty list where there is no file yet, of nothing where there is no list in it. */
  ghost predicate Makes(file: Option<Content>, edit: Edit, m: Machine) {
    || (file == None && Applied(DEFAULT, edit) == Some(m))
    || exists was :: file == Some(Whole(was)) && Applied(was, edit) == Some(m)
  }

  /** What commands that only read get: the list in the file, and an empty one where there is none or it cannot be read. */
  lemma LoadIsTheListOrNone(file: Option<Content>)
    ensures forall m :: file == Some(Whole(m)) ==> Load(file) == ListIn(file) == m
    ensures file == None || file == Some(Unparsable) || file == Some(Torn) ==> Load(file) == ListIn(file) == DEFAULT
    ensures forall edit, m :: Makes(file, edit, m) <==> Next(file, edit, m)
  {
  }

  /** Every call but `t` is at `s'` where it was at `s`. */
  ghost predicate OthersWait(s: State, t: nat, s': State) {
    s'.calls.Keys == s.calls.Keys && forall u | u in s.calls && u != t :: s'.calls[u] == s.calls[u]
  }

  /** Change `t` is done: the file is what its edit makes of it, and the change has its place in the history. */
  ghost predicate Succeeded(s: State, t: nat, s': State)
    requires t in s.calls
  {
    && t in s'.calls && s'.calls[t].stage.Done? && s'.calls[t].stage.place == |s.committed|
    && Makes(s.file, s.calls[t].edit, s'.calls[t].stage.machine)
    && s'.file == Some(Whole(s'.calls[t].stage.machine)) && s'.committed == s.committed + [Commit(t, s.calls[t].edit)]
  }

  /** Change `t` has failed, and the file is as it was. */
  ghost predicate LeftAlone(s: State, t: nat, s': State) {
    t in s'.calls && s'.calls[t].stage.Failed? && s'.file == s.file && s'.committed == s.committed
  }

  /**
   * A change that is asked for while nobody holds the lock can go on by its
   * own steps alone; it succeeds exactly when every system call does and the
   * edit is accepted of the list that is there, or of an empty one.
   */
  lemma ChangeRunsAlone(s: State, t: nat, w: Weather) returns (es: seq<Event>)
    requires s.holder.None? && t in s.calls && s.calls[t].stage.Asked?
    ensures IsRun(Step, s, es)
    ensures var s' := After(Step, s, es);
            && s'.holder.None? && OthersWait(s, t, s')
            && (if w.Fair() && exists m :: Makes(s.file, s.calls[t].edit, m) then Succeeded(s, t, s') else LeftAlone(s, t, s'))
  {
    LoadIsTheListOrNone(s.file);
    var s1 := s.(holder := Some(t), turns := s.turns + 1,
                 calls := s.calls[t := s.calls[t].(stage := Holding, turn := s.turns + 1)]);
    es := HolderRunsAlone(s1, t, w);
    First(Step, s, Acquire(t), s1, es);
    es := [Acquire(t)] + es;
  }

  lemma HolderRunsAlone(s: State, t: nat, w: Weather) returns (es: seq<Event>)
    requires s.holder == Some(t) && t in s.calls && s.calls[t].stage.Holding?
    ensures IsRun(Step, s, es)
    ensures var s' := After(Step, s, es);
            && s'.holder.None? && OthersWait(s, t, s')
            && (if w.Fair() && exists m :: Next(s.file, s.calls[t].edit, m) then Succeeded(s, t, s') else LeftAlone(s, t, s'))
  {
    LoadIsTheListOrNone(s.file);
    if !w.canRead || ReadAt(s.file).None? {
      var s1 := To(s, t, Failing);
      es := FailingEnds(s1, t);
      First(Step, s, ReadFile(t, w.canRead), s1, es);
      es := [ReadFile(t, w.canRead)] + es;
    } else {
      var m := ReadAt(s.file).value;
      var s1 := To(s, t, Read(m));
      var n := Applied(m, s.calls[t].edit);
      var s2 := To(s1, t, if n.Some? then Edited(n.value) else Failing);
      if n.Some? {
        es := EditedRunsAlone(s2, t, n.value, w);
      } else {
        es := FailingEnds(s2, t);
      }
      First(Step, s1, Apply(t), s2, es);
      First(Step, s, ReadFile(t, true), s1, [Apply(t)] + es);
      es := [ReadFile(t, true)] + ([Apply(t)] + es);
    }
  }

  lemma FailingEnds(s: State, t: nat) returns (es: seq<Event>)
    requires s.holder == Some(t) && t in s.calls && s.calls[t].stage.Failing?
    ensures IsRun(Step, s, es)
    ensures After(Step, s, es).holder.None? && OthersWait(s, t, After(Step, s, es)) && LeftAlone(s, t, After(Step, s, es))
  {
    First(Step, s, Release(t), To(s.(holder := None), t, Failed), []);
    es := [Release(t)] + [];
  }

  /** The rest of a change whose edit is accepted: it goes on to the end, or to the first call that fails. */
  lemma EditedRunsAlone(s: State, t: nat, m: Machine, w: Weather) returns (es: seq<Event>)
    requires s.holder == Some(t) && t in s.calls && s.calls[t].stage == Edited(m)
    ensures IsRun(Step, s, es)
    ensures var s' := After(Step, s, es);
            && s'.holder.None? && OthersWait(s, t, s')
            && (if w.canBegin && w.canEnd && w.canRename
                then && t in s'.calls && s'.calls[t].stage == Done(m, |s.committed|) && s'.file == Some(Whole(m))
                     && s'.committed == s.committed + [Commit(t, s.calls[t].edit)]
                else LeftAlone(s, t, s'))
  {
    if !w.canBegin {
      es := FailingEnds(To(s, t, Failing), t);
      First(Step, s, BeginWrite(t, false), To(s, t, Failing), es);
      es := [BeginWrite(t, false)] + es;
    } else {
      var s1 := To(s.(partial := Some(Torn)), t, Writing(m));
      es := WritingRunsAlone(s1, t, m, w);
      First(Step, s, BeginWrite(t, true), s1, es);
      es := [BeginWrite(t, true)] + es;
    }
  }

  lemma WritingRunsAlone(s: State, t: nat, m: Machine, w: Weather) returns (es: seq<Event>)
    requires s.holder == Some(t) && t in s.calls && s.calls[t].stage == Writing(m)
    ensures IsRun(Step, s, es)
    ensures var s' := After(Step, s, es);
            && s'.holder.None? && OthersWait(s, t, s')
            && (if w.canEnd && w.canRename
                then && t in s'.calls && s'.calls[t].stage == Done(m, |s.committed|) && s'.file == Some(Whole(m))
                     && s'.committed == s.committed + [Commit(t, s.calls[t].edit)]
                else LeftAlone(s, t, s'))
  {
    if !w.canEnd {
      es := FailingEnds(To(s, t, Failing), t);
      First(Step, s, EndWrite(t, false), To(s, t, Failing), es);
      es := [EndWrite(t, false)] + es;
    } else {
      var s1 := To(s.(partial := Some(Whole(m))), t, Written(m));
      es := WrittenRunsAlone(s1, t, m, w);
      First(Step, s, EndWrite(t, true), s1, es);
      es := [EndWrite(t, true)] + es;
    }
  }

  lemma WrittenRunsAlone(s: State, t: nat, m: Machine, w: Weather) returns (es: seq<Event>)
    requires s.holder == Some(t) && t in s.calls && s.calls[t].stage == Written(m) && s.partial == Some(Whole(m))
    ensures IsRun(Step, s, es)
    ensures var s' := After(Step, s, es);
            && s'.holder.None? && OthersWait(s, t, s')
            && (if w.canRename
                then && t in s'.calls && s'.calls[t].stage == Done(m, |s.committed|) && s'.file == Some(Whole(m))
                     && s'.committed == s.committed + [Commit(t, s.calls[t].edit)]
                else LeftAlone(s, t, s'))
  {
    if !w.canRename {
      es := FailingEnds(To(s, t, Failing), t);
      First(Step, s, Rename(t, false), To(s, t, Failing), es);
      es := [Rename(t, false)] + es;
    } else {
      var s1 := To(s.(file := s.partial, partial := None, committed := s.committed + [Commit(t, s.calls[t].edit)]),
                   t, Renamed(m, |s.committed|));
      First(Step, s1, Release(t), To(s1.(holder := None), t, Done(m, |s.committed|)), []);
      First(Step, s, Rename(t, true), s1, [Release(t)] + []);
      es := [Rename(t, true)] + ([Release(t)] + []);
    }
  }

  /** A change fails only at a system call that does, at a file with no list in it, or at an edit that is refused. */
  lemma FailsOnlySo(s: State, e: Event, t: nat, s': State)
    requires Step(s, e) == Some(s') && t in s.calls && t in s'.calls
    requires !s.calls[t].stage.Failing? && s'.calls[t].stage.Failing?
    ensures !e.Crash? && e.t == t
    ensures match e
            case ReadFile(_, ok) => !ok || s.file == Some(Unparsable) || s.file == Some(Torn)
            case Apply(_) => s.calls[t].stage.Read? && Applied(s.calls[t].stage.machine, s.calls[t].edit).None?
            case BeginWrite(_, ok) => !ok
            case EndWrite(_, ok) => !ok
            case Rename(_, ok) => !ok
            case _ => false
  {
  }

  // --- One change, in the source's own form ----------------------------------

  class Directory {
    var file: Option<Content>
    var partial: Option<Content>

    constructor (file: Option<Content>)
      ensures this.file == file && partial == None
    {
      this.file := file;
      partial := None;
    }

    method Save(machine: Machine, w: Weather) returns (ok: bool)
      modifies this
      ensures ok == (w.canBegin && w.canEnd && w.canRename)
      ensures file == if ok then Some(Whole(machine)) else old(file)
    {
      if !w.canBegin {
        return false;
      }
      partial := Some(Torn);
      if !w.canEnd {
        return false;
      }
      partial := Some(Whole(machine));
      if !w.canRename {
        return false;
      }
      file := partial;
      partial := None;
      return true;
    }

    /** Read, edit and write, under the lock. A change that fails anywhere leaves the file alone. */
    method Change(edit: Edit, w: Weather) returns (r: Result<Machine, ()>)
      modifies this
      ensures r.Ok? ==> Makes(old(file), edit, r.value) && file == Some(Whole(r.value))
      ensures r.Err? ==> file == old(file)
      ensures r.Ok? <==> w.Fair() && exists m :: Makes(old(file), edit, m)
    {
      LoadIsTheListOrNone(file);
      if !w.canRead || ReadAt(file).None? {
        return Err(());
      }
      var machine := ReadAt(file).value;
      var edited := Applied(machine, edit);
      if edited.None? {
        return Err(());
      }
      var ok := Save(edited.value, w);
      r := if ok then Ok(edited.value) else Err(());
    }
  }
}
