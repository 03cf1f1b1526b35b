/**
 * What becomes of a start (src-tauri/src/agents.rs): which record it carries
 * on, when it is refused, and what it leaves in the store and among the
 * handles, in every run of the machine in `Claims`.
 */
module Starts {
  import opened Wrappers
  import opened Runs
  import opened Assignments
  import opened Text
  import opened Claims

  /** The record that the request names is one to carry on: over, of that agent, and of the same work where it was. */
  ghost predicate NamesOne(store: map<Key, Assignment>, r: Request) {
    && r.resume.Some? && Key(r.repo, r.resume.value) in store
    && var kept := store[Key(r.repo, r.resume.value)];
       && (kept.state == Stopped || kept.state == Life.Failed || kept.state == Done) && kept.agent == r.agent
       && JobOf(kept.target) == JobOf(r.target) && RevisionsOf(kept.target) == RevisionsOf(r.target)
  }

  /** The record that the request names is over and of that agent, but its work has moved. */
  ghost predicate NamesAMovedOne(store: map<Key, Assignment>, r: Request) {
    && r.resume.Some? && Key(r.repo, r.resume.value) in store
    && var kept := store[Key(r.repo, r.resume.value)];
       && (kept.state == Stopped || kept.state == Life.Failed || kept.state == Done) && kept.agent == r.agent
       && !(JobOf(kept.target) == JobOf(r.target) && RevisionsOf(kept.target) == RevisionsOf(r.target))
  }

  /** `a` goes on where `kept` was: under its id, with everything it made, and every finished step in its place. */
  ghost predicate GoesOn(kept: Assignment, r: Request, a: Assignment) {
    && a.id == kept.id && a.repo == r.repo && a.agent == r.agent && a.target == kept.target && a.level == r.level
    && a.state == Starting && a.proposals == kept.proposals && |a.steps| == |kept.steps|
    && forall i | 0 <= i < |kept.steps| && kept.steps[i].state == Finished :: a.steps[i] == kept.steps[i]
  }

  /** `a` has nothing in it yet but what was asked for. */
  ghost predicate IsNew(r: Request, newId: string, a: Assignment) {
    && a.id == newId && a.repo == r.repo && a.agent == r.agent && a.target == r.target && a.level == r.level
    && a.state == Starting && a.steps == [] && a.proposals == []
  }

  /**
   * What a request opens is the record it names exactly when that is one to
   * carry on, under its id; in every other case it is a new assignment, and
   * says so where work has moved.
   */
  ghost predicate OpensWhatIsNamed(store: map<Key, Assignment>, r: Request, newId: string, a: Assignment) {
    if NamesOne(store, r) then a.id == r.resume.value && GoesOn(store[Key(r.repo, r.resume.value)], r, a)
    else IsNew(r, newId, a) && a.note == if NamesAMovedOne(store, r) then Trim(Trim(r.note) + " " + MOVED) else r.note
  }

  /** So it is with every start that reads the store, in every run. */
  lemma CarriesOnWhatIsNamed(es: seq<Event>, t: nat, newId: string)
    requires Run(es) && t in End(es).starts && End(es).starts[t].stage.Claimed? && newId !in End(es).issued
    ensures Step(End(es), Load(t, newId)).Some? && t in Step(End(es), Load(t, newId)).value.starts
    ensures var r, now := End(es).starts[t].request, Step(End(es), Load(t, newId)).value.starts[t];
            now.request == r && now.stage.Chosen? && OpensWhatIsNamed(End(es).store, r, newId, now.stage.assignment)
  {
    InvHolds(es);
    OpenedIsNamed(End(es).issued, End(es).store, End(es).starts[t].request, newId);
    LoadOpens(End(es), t, newId);
  }

  lemma LoadOpens(s: State, t: nat, newId: string)
    requires t in s.starts && s.starts[t].stage.Claimed? && newId !in s.issued
    ensures Step(s, Load(t, newId)).Some?
    ensures var a, s' := Opened(s.store, s.starts[t].request, newId), Step(s, Load(t, newId)).value;
            s' == s.(starts := s.starts[t := Start(s.starts[t].request, Chosen(a))], issued := s'.issued)
  {
  }

  lemma OpenedIsNamed(issued: map<string, (string, Job)>, store: map<Key, Assignment>, r: Request, newId: string)
    requires Stored(issued, store)
    ensures OpensWhatIsNamed(store, r, newId, Opened(store, r, newId))
  {
    if r.resume.Some? && Key(r.repo, r.resume.value) in store {
      var kept := store[Key(r.repo, r.resume.value)];
      JobsAndRevisions(kept.target, r.target);
      assert Key(kept.repo, kept.id) == Key(r.repo, r.resume.value);
      if NamesOne(store, r) {
        ResumedKeepsWhatIsDone(kept, r.level, r.note);
      }
    }
  }

  /** Start `u`, and not `t`, owns the job of `t`. */
  ghost predicate OwnsTheJobOf(s: State, u: nat, t: nat)
    requires t in s.starts
  {
    && u != t && Owns(s.engines, s.starts, u) && s.starts[u].request.repo == s.starts[t].request.repo
    && JobOf(s.starts[u].request.target) == JobOf(s.starts[t].request.target)
  }

  /** In every run, a claim is refused exactly when another start owns the job, and otherwise it is taken. */
  lemma RefusedExactlyWhenOwned(es: seq<Event>, t: nat)
    requires Run(es) && t in End(es).starts && End(es).starts[t].stage.Asked? && End(es).listing.None?
    ensures Step(End(es), Claim(t)).Some? && t in Step(End(es), Claim(t)).value.starts
    ensures var s, s' := End(es), Step(End(es), Claim(t)).value;
            if exists u :: OwnsTheJobOf(s, u, t)
            then s'.starts[t].stage.Refused? && s'.starting == s.starting
            else s'.starts[t].stage.Claimed?
                 && s'.starting == s.starting + [Entry(t, s.starts[t].request.repo, s.starts[t].request.target)]
  {
    InvHolds(es);
    BusyIsOwned(End(es), t);
    ClaimIsTried(End(es), t);
  }

  lemma ClaimIsTried(s: State, t: nat)
    requires t in s.starts && s.starts[t].stage.Asked? && s.listing.None?
    ensures Step(s, Claim(t)) == Some(ClaimTried(s, t, s.starts[t].request))
  {
  }

  lemma BusyIsOwned(s: State, t: nat)
    requires Inv(s) && t in s.starts && s.starts[t].stage.Asked?
    ensures Busy(s, s.starts[t].request.repo, s.starts[t].request.target) <==> exists u :: OwnsTheJobOf(s, u, t)
  {
    var repo, target := s.starts[t].request.repo, s.starts[t].request.target;
    if Busy(s, repo, target) {
      var u := SomebodyOwns(s, repo, target);
      assert OwnsTheJobOf(s, u, t);
    }
    if u :| OwnsTheJobOf(s, u, t) {
      OwnedIsBusy(s, u, repo, target);
    }
  }

  lemma SomebodyOwns(s: State, repo: string, target: Target) returns (u: nat)
    requires Inv(s) && Busy(s, repo, target)
    ensures Owns(s.engines, s.starts, u) && !s.starts[u].stage.Asked?
    ensures s.starts[u].request.repo == repo && JobOf(s.starts[u].request.target) == JobOf(target)
  {
    if e :| e in s.starting && HeldBy(e, repo, target) {
      u := EntryIsOwned(s, e, repo, target);
    } else {
      var id :| id in s.live && s.live[id] in s.engines && WorksOn(s.engines[s.live[id]].assignment, repo, target);
      u := s.live[id];
      WorkerOwns(s.engines, s.starts, u, repo, target);
    }
  }

  lemma EntryIsOwned(s: State, e: Entry, repo: string, target: Target) returns (u: nat)
    requires Entries(s.starting, s.starts) && e in s.starting && HeldBy(e, repo, target)
    ensures Owns(s.engines, s.starts, u) && !s.starts[u].stage.Asked?
    ensures s.starts[u].request.repo == repo && JobOf(s.starts[u].request.target) == JobOf(target)
  {
    JobsAndRevisions(e.target, target);
    u := e.owner;
  }

  lemma WorkerOwns(engines: map<nat, Engine>, starts: map<nat, Start>, u: nat, repo: string, target: Target)
    requires Engines(engines, starts) && u in engines && WorksOn(engines[u].assignment, repo, target)
    ensures Owns(engines, starts, u) && !starts[u].stage.Asked?
    ensures starts[u].request.repo == repo && JobOf(starts[u].request.target) == JobOf(target)
  {
    JobsAndRevisions(engines[u].assignment.target, target);
  }

  lemma OwnedIsBusy(s: State, u: nat, repo: string, target: Target)
    requires Inv(s) && Owns(s.engines, s.starts, u)
    requires s.starts[u].request.repo == repo && JobOf(s.starts[u].request.target) == JobOf(target)
    ensures Busy(s, repo, target)
  {
    JobsAndRevisions(s.starts[u].request.target, target);
    if s.starts[u].stage.HoldsClaim() {
      assert HeldBy(EntryOf(s.starts, u), repo, target);
    } else {
      var a := s.engines[u].assignment;
      JobsAndRevisions(a.target, target);
      assert s.live[a.id] == u && WorksOn(a, repo, target);
    }
  }

  lemma {:induction false} LastIsDropped(starting: seq<Entry>, e: Entry)
    requires forall f | f in starting :: !HeldBy(f, e.repo, e.target)
    ensures Dropped(starting + [e], e.repo, e.target) == starting
  {
    if starting == [] {
      assert starting + [e] == [e] && HeldBy(e, e.repo, e.target);
    } else {
      assert starting[0] in starting && (starting + [e])[1..] == starting[1..] + [e];
      LastIsDropped(starting[1..], e);
    }
  }

  /** A start that has launched its engine goes on by its own steps alone. */
  lemma LaunchedRunsAlone(s: State, t: nat, r: Request, id: string) returns (es: seq<Event>)
    requires t in s.starts && s.starts[t] == Start(r, Launched(id)) && s.listing.None?
    ensures IsRun(Step, s, es)
    ensures var s' := After(Step, s, es);
            && t in s'.starts && s'.starts[t].stage == Ended(id) && s'.starting == Dropped(s.starting, r.repo, r.target)
            && s'.engines == s.engines && s'.live == s.live[id := t] && s'.store == s.store
  {
    var s1 := At(s, t, Listed(id)).(live := s.live[id := t]);
    var s2 := At(s1, t, Ended(id)).(starting := Dropped(s.starting, r.repo, r.target));
    First(Step, s1, Release(t), s2, []);
    First(Step, s, Insert(t), s1, [Release(t)] + []);
    es := [Insert(t)] + ([Release(t)] + []);
  }

  /** And so does one that has chosen its assignment. */
  lemma ChosenRunsAlone(s: State, t: nat, r: Request, a: Assignment) returns (es: seq<Event>)
    requires t in s.starts && s.starts[t] == Start(r, Chosen(a)) && s.listing.None?
    ensures IsRun(Step, s, es)
    ensures var s' := After(Step, s, es);
            && t in s'.starts && s'.starts[t].stage == Ended(a.id) && s'.starting == Dropped(s.starting, r.repo, r.target)
            && s'.engines == s.engines[t := Engine(a, RevisionsOf(r.target))] && s'.live == s.live[a.id := t]
            && s'.store == s.store[Key(a.repo, a.id) := a]
  {
    var s1 := At(s, t, Saved(a)).(store := Written(s.store, a));
    var s2 := WithEngine(s1, t, a, r);
    es := LaunchedRunsAlone(s2, t, r, a.id);
    First(Step, s1, Launch(t), s2, es);
    First(Step, s, Save(t, true), s1, [Launch(t)] + es);
    es := [Save(t, true)] + ([Launch(t)] + es);
  }

  /**
   * In every run, a start whose job nobody owns, while no list is being made,
   * can go on by its own steps alone: then the engine of what it opened runs,
   * its handle and its record are where they are looked for, and the claim is
   * let go of.
   */
  lemma StartRunsAlone(es: seq<Event>, t: nat, newId: string) returns (a: Assignment, more: seq<Event>)
    requires Run(es) && t in End(es).starts && End(es).starts[t].stage.Asked? && End(es).listing.None?
    requires newId !in End(es).issued
    requires forall u | Owns(End(es).engines, End(es).starts, u) ::
               !(End(es).starts[u].request.repo == End(es).starts[t].request.repo
                 && JobOf(End(es).starts[u].request.target) == JobOf(End(es).starts[t].request.target))
    ensures OpensWhatIsNamed(End(es).store, End(es).starts[t].request, newId, a) && IsRun(Step, End(es), more)
    ensures var s, r, s' := End(es), End(es).starts[t].request, After(Step, End(es), more);
            && t in s'.starts && s'.starts[t].stage == Ended(a.id) && s'.starting == s.starting
            && s'.engines == s.engines[t := Engine(a, RevisionsOf(r.target))] && s'.live == s.live[a.id := t]
            && s'.store == s.store[Key(a.repo, a.id) := a]
  {
    InvHolds(es);
    var s, r := End(es), End(es).starts[t].request;
    a := Opened(s.store, r, newId);
    OpenedIsNamed(s.issued, s.store, r, newId);
    if Busy(s, r.repo, r.target) {
      var u := SomebodyOwns(s, r.repo, r.target);
    }
    more := UnownedRunsAlone(s, t, r, newId);
  }

  lemma ClaimedRunsAlone(s: State, t: nat, r: Request, newId: string) returns (more: seq<Event>)
    requires t in s.starts && s.starts[t] == Start(r, Claimed) && s.listing.None? && newId !in s.issued
    ensures IsRun(Step, s, more)
    ensures var a, s' := Opened(s.store, r, newId), After(Step, s, more);
            && t in s'.starts && s'.starts[t].stage == Ended(a.id) && s'.starting == Dropped(s.starting, r.repo, r.target)
            && s'.engines == s.engines[t := Engine(a, RevisionsOf(r.target))] && s'.live == s.live[a.id := t]
            && s'.store == s.store[Key(a.repo, a.id) := a]
  {
    LoadOpens(s, t, newId);
    var s1 := Step(s, Load(t, newId)).value;
    more := ChosenRunsAlone(s1, t, r, Opened(s.store, r, newId));
    First(Step, s, Load(t, newId), s1, more);
    more := [Load(t, newId)] + more;
  }

  lemma UnownedRunsAlone(s: State, t: nat, r: Request, newId: string) returns (more: seq<Event>)
    requires t in s.starts && s.starts[t] == Start(r, Asked) && s.listing.None? && newId !in s.issued
    requires !Busy(s, r.repo, r.target)
    ensures IsRun(Step, s, more)
    ensures var a, s' := Opened(s.store, r, newId), After(Step, s, more);
            && t in s'.starts && s'.starts[t].stage == Ended(a.id) && s'.starting == s.starting
            && s'.engines == s.engines[t := Engine(a, RevisionsOf(r.target))] && s'.live == s.live[a.id := t]
            && s'.store == s.store[Key(a.repo, a.id) := a]
  {
    var entry := Entry(t, r.repo, r.target);
    var s1 := s.(starts := s.starts[t := Start(r, Claimed)], starting := s.starting + [entry]);
    LastIsDropped(s.starting, entry);
    more := ClaimedRunsAlone(s1, t, r, newId);
    First(Step, s, Claim(t), s1, more);
    more := [Claim(t)] + more;
  }

  /** A start may give up until it has saved its assignment, and then lets go of its own claim and of no other. */
  lemma GivingUpLetsGo(es: seq<Event>, t: nat)
    requires Run(es) && t in End(es).starts
    ensures Step(End(es), GiveUp(t)).Some? <==> End(es).starts[t].stage.Claimed? || End(es).starts[t].stage.Chosen?
    ensures Step(End(es), GiveUp(t)).Some? ==>
              var s, s' := End(es), Step(End(es), GiveUp(t)).value;
              && |s'.starting| == |s.starting| - 1 && (forall e :: e in s'.starting <==> e in s.starting && e.owner != t)
              && s'.store == s.store && s'.live == s.live && s'.engines == s.engines
  {
    InvHolds(es);
    if End(es).starts[t].stage.HoldsClaim() {
      DropsItsOwn(End(es).starting, End(es).starts, t);
    }
  }

  /** A list has read a record that is not over, and under whose id there is no handle. */
  ghost predicate IsLeftOver(s: State, id: string) {
    s.listing.Some? && id in s.listing.value.seen && !s.listing.value.seen[id].state.IsOver() && id !in s.live
  }

  /** A list closes exactly such records. */
  lemma ListClosesWhatIsLeftOver(s: State, id: string, ok: bool)
    ensures Step(s, CloseRecord(id, ok)).Some? <==> IsLeftOver(s, id)
  {
  }

  /** A list alone closes a record that its process did not outlive, and leaves every other record as it is. */
  lemma ListRunsAlone(s: State, repo: string, id: string) returns (es: seq<Event>)
    requires s.listing.None? && Key(repo, id) in s.store
    ensures IsRun(Step, s, es) && After(Step, s, es).listing.None? && After(Step, s, es).live == s.live
    ensures var a := s.store[Key(repo, id)];
            After(Step, s, es).store
            == if a.state.IsOver() || id in s.live then s.store
               else s.store[Key(a.repo, a.id) := ClosedByAList(a)]
  {
    var a := s.store[Key(repo, id)];
    var s1 := s.(listing := Some(Listing(repo, map[])));
    var s2 := s.(listing := Some(Listing(repo, map[id := a])));
    assert map[][id := a] == map[id := a];
    var closes := !a.state.IsOver() && id !in s.live;
    var s3 := if closes then s2.(store := s.store[Key(a.repo, a.id) := ClosedByAList(a)]) else s2;
    First(Step, s3, EndList, s3.(listing := None), []);
    es := [EndList] + [];
    if closes {
      First(Step, s2, CloseRecord(id, true), s3, es);
      es := [CloseRecord(id, true)] + es;
    }
    First(Step, s1, ReadRecord(id), s2, es);
    First(Step, s, BeginList(repo), s1, [ReadRecord(id)] + es);
    es := [BeginList(repo)] + ([ReadRecord(id)] + es);
  }

  /** The record of `a` as a list closes it. */
  function ClosedByAList(a: Assignment): Assignment {
    a.(state := Stopped, reason := Some("Stopped when Spagitty closed."),
       sentence := "Stopped when Spagitty closed", lastAct := None)
  }

  /** What each step writes to the store, and that no other step changes it. */
  lemma StoreChangesOnlySo(s: State, e: Event, s': State)
    requires Step(s, e) == Some(s')
    ensures e.Save? ==> e.t in s.starts && s.starts[e.t].stage.Chosen? && s'.store == IfOk(s.store, s.starts[e.t].stage.assignment, e.ok)
    ensures e.Persist? ==> e.t in s.engines && s'.store == IfOk(s.store, s.engines[e.t].assignment, e.ok)
    ensures e.CloseRecord? ==>
              && s.listing.Some? && e.id in s.listing.value.seen && e.id !in s.live
              && s'.store == IfOk(s.store, ClosedByAList(s.listing.value.seen[e.id]), e.ok)
    ensures e.Forget? ==> s'.store == s.store - {e.key}
    ensures !e.Save? && !e.Persist? && !e.CloseRecord? && !e.Forget? ==> s'.store == s.store
  {
  }

  /** The store with `a` under its key, when writing it works. */
  function IfOk(store: map<Key, Assignment>, a: Assignment, ok: bool): map<Key, Assignment> {
    if ok then store[Key(a.repo, a.id) := a] else store
  }

  /** Handles are put there by the inserts of their starts and taken away by forgets alone; engines begin at launches alone. */
  lemma HandlesChangeOnlySo(s: State, e: Event, s': State)
    requires Step(s, e) == Some(s')
    ensures e.Insert? ==> e.t in s.starts && s.starts[e.t].stage.Launched? && s'.live == s.live[s.starts[e.t].stage.id := e.t]
    ensures e.Forget? ==> s'.live == s.live - {e.key.id}
    ensures !e.Insert? && !e.Forget? ==> s'.live == s.live
    ensures e.Launch? ==>
              && e.t in s.starts && s.starts[e.t].stage.Saved?
              && s'.engines == s.engines[e.t := Engine(s.starts[e.t].stage.assignment, RevisionsOf(s.starts[e.t].request.target))]
    ensures !e.Launch? ==> s'.engines.Keys == s.engines.Keys
  {
  }

  /** What an engine does to its assignment, and that nobody else changes it. */
  lemma EnginesChangeOnlySo(s: State, e: Event, s': State, u: nat)
    requires Step(s, e) == Some(s') && !e.Launch? && u in s.engines
    ensures u in s'.engines && s'.engines[u].world == s.engines[u].world
    ensures var a, b := s.engines[u].assignment, s'.engines[u].assignment;
            && (e.Add? && e.t == u ==> b == a.(steps := a.steps + [AgentStep(e.kind, StepState.Running, None, None)]))
            && (e.Mark? && e.t == u ==>
                  && e.i < |a.steps| == |b.steps| && b == a.(steps := b.steps)
                  && b.steps[e.i].state == e.state && b.steps[e.i].kind == a.steps[e.i].kind
                  && b.steps[e.i].gate == a.steps[e.i].gate
                  && b.steps[e.i].at == (if e.state == Finished then Some(s.engines[u].world) else a.steps[e.i].at)
                  && forall j | 0 <= j < |a.steps| && j != e.i :: b.steps[j] == a.steps[j])
            && (e.Over? && e.t == u ==> b == a.(state := e.life))
            && (!((e.Add? || e.Mark? || e.Over?) && e.t == u) ==> b == a)
  {
  }
}
