/**
 * Who works on a job (src-tauri/src/agents.rs). A start claims its job, reads
 * the store, starts an engine and puts its handle where the next claim will
 * see it; lists and forgets rewrite the store meanwhile. Each start, engine
 * and list acts one step at a time, in any order.
 */
module Claims {
  import opened Wrappers
  import opened Runs
  import opened Assignments
  import opened Text

  datatype Request = Request(repo: string, agent: string, level: nat, note: string, target: Target, resume: Option<string>)

  /** A job held by a start. `owner` is history: which start, as the guard it was given knows. */
  datatype Entry = Entry(owner: nat, repo: string, target: Target)

  datatype Stage =
    | Asked
    | Refused
    | Claimed
    | Chosen(assignment: Assignment)
    | Saved(assignment: Assignment)
    | Launched(id: string)
    | Listed(id: string)
    | Ended(id: string)
    | GivenUp
  {
    predicate HoldsClaim() { Claimed? || Chosen? || Saved? || Launched? || Listed? }

    predicate HasAssignment() { Chosen? || Saved? }

    predicate HasEngine() { Launched? || Listed? || Ended? }
  }

  datatype Start = Start(request: Request, stage: Stage)

  /** A running assignment, at the revisions its world was opened at. */
  datatype Engine = Engine(assignment: Assignment, world: Revisions)

  /** A list under way, with the live lock held: the records it has read so far. */
  datatype Listing = Listing(repo: string, seen: map<string, Assignment>)

  datatype Key = Key(repo: string, id: string)

  /** `live` maps an id to the start whose engine its handle is of. `issued` is history: which job each id was made for. */
  datatype State = State(
    starting: seq<Entry>,
    live: map<string, nat>,
    engines: map<nat, Engine>,
    starts: map<nat, Start>,
    store: map<Key, Assignment>,
    listing: Option<Listing>,
    issued: map<string, (string, Job)>)

  datatype Event =
    | Ask(t: nat, request: Request)
    | Claim(t: nat)
    | Load(t: nat, newId: string)
    | GiveUp(t: nat)
    | Save(t: nat, ok: bool)
    | Launch(t: nat)
    | Insert(t: nat)
    | Release(t: nat)
    | Add(t: nat, kind: Kind)
    | Mark(t: nat, i: nat, state: StepState)
    | Over(t: nat, life: Life)
    | Persist(t: nat, ok: bool)
    | BeginList(repo: string)
    | ReadRecord(id: string)
    | CloseRecord(id: string, ok: bool)
    | EndList
    | Forget(key: Key)

  const INITIAL := State([], map[], map[], map[], map[], None, map[])

  // --- The sections ----------------------------------------------------------

  predicate HeldBy(e: Entry, repo: string, target: Target) {
    e.repo == repo && SameJob(e.target, target)
  }

  predicate WorksOn(a: Assignment, repo: string, target: Target) {
    !a.state.IsOver() && a.repo == repo && SameJob(a.target, target)
  }

  /** Another start holds the job, or an assignment on it is live. */
  ghost predicate Busy(s: State, repo: string, target: Target) {
    || (exists e | e in s.starting :: HeldBy(e, repo, target))
    || (exists id | id in s.live && s.live[id] in s.engines :: WorksOn(s.engines[s.live[id]].assignment, repo, target))
  }

  /** Let go of the first entry that matches, as dropping a claim does. */
  function Dropped(starting: seq<Entry>, repo: string, target: Target): seq<Entry> {
    if starting == [] then []
    else if HeldBy(starting[0], repo, target) then starting[1..]
    else [starting[0]] + Dropped(starting[1..], repo, target)
  }

  /** The record a start carries on: the one asked for, over, by the same agent, at the same revisions. */
  predicate CarriesOn(kept: Assignment, r: Request) {
    kept.state.IsOver() && kept.agent == r.agent && SameRevisions(kept.target, r.target)
  }

  function Fresh(r: Request, id: string): Assignment {
    Assignment(id, r.repo, r.agent, r.level, r.target, Starting, "Starting", r.note, [], [],
               None, None, None, None, false, None)
  }

  /** What a fresh run is told when it was to carry an earlier one on whose work has moved. */
  const MOVED := "This was asked to carry on an earlier run, but what it works on has moved since, so it starts over."

  function FreshNote(store: map<Key, Assignment>, r: Request): string {
    if r.resume.Some? && Key(r.repo, r.resume.value) in store then
      var earlier := store[Key(r.repo, r.resume.value)];
      if earlier.state.IsOver() && earlier.agent == r.agent && !SameRevisions(earlier.target, r.target)
      then Trim(Trim(r.note) + " " + MOVED) else r.note
    else r.note
  }

  function Opened(store: map<Key, Assignment>, r: Request, newId: string): Assignment {
    if r.resume.Some? && Key(r.repo, r.resume.value) in store && CarriesOn(store[Key(r.repo, r.resume.value)], r)
    then Resumed(store[Key(r.repo, r.resume.value)], r.level, r.note)
    else Fresh(r, newId).(note := FreshNote(store, r))
  }

  /** What a list makes of a record whose process did not outlive the application. */
  function Closed(a: Assignment): Assignment {
    a.(state := Stopped, reason := Some("Stopped when Spagitty closed."),
       sentence := "Stopped when Spagitty closed", lastAct := None)
  }

  function At(s: State, t: nat, stage: Stage): State
    requires t in s.starts
  {
    s.(starts := s.starts[t := s.starts[t].(stage := stage)])
  }

  // --- One step --------------------------------------------------------------

  ghost function ClaimTried(s: State, t: nat, r: Request): State
    requires t in s.starts
  {
    if Busy(s, r.repo, r.target) then At(s, t, Refused)
    else At(s, t, Claimed).(starting := s.starting + [Entry(t, r.repo, r.target)])
  }

  function WithEngine(s: State, t: nat, a: Assignment, r: Request): State
    requires t in s.starts
  {
    At(s, t, Launched(a.id)).(engines := s.engines[t := Engine(a, RevisionsOf(r.target))])
  }

  ghost function StartStep(s: State, e: Event): Option<State>
    requires e.Ask? || e.Claim? || e.Load? || e.GiveUp? || e.Save? || e.Launch? || e.Insert? || e.Release?
  {
    if e.Ask? then
      if e.t in s.starts then None else Some(s.(starts := s.starts[e.t := Start(e.request, Asked)]))
    else if e.t !in s.starts then None
    else
      var r, stage := s.starts[e.t].request, s.starts[e.t].stage;
      match e
      case Claim(t) => if !stage.Asked? || s.listing.Some? then None else Some(ClaimTried(s, t, r))
      case Load(t, newId) =>
        if !stage.Claimed? || newId in s.issued then None
        else
          var a := Opened(s.store, r, newId);
          Some(At(s, t, Chosen(a)).(issued := if a.id in s.issued then s.issued
                                              else s.issued[a.id := (r.repo, JobOf(r.target))]))
      case GiveUp(t) =>
        if !stage.Claimed? && !stage.Chosen? then None
        else Some(At(s, t, GivenUp).(starting := Dropped(s.starting, r.repo, r.target)))
      case Save(t, ok) =>
        if !stage.Chosen? then None
        else Some(At(s, t, Saved(stage.assignment)).(store := if ok then Written(s.store, stage.assignment) else s.store))
      case Launch(t) =>
        if !stage.Saved? then None else Some(WithEngine(s, t, stage.assignment, r))
      case Insert(t) =>
        if !stage.Launched? || s.listing.Some? then None
        else Some(At(s, t, Listed(stage.id)).(live := s.live[stage.id := t]))
      case Release(t) =>
        if !stage.Listed? then None
        else Some(At(s, t, Ended(stage.id)).(starting := Dropped(s.starting, r.repo, r.target)))
  }

  function Written(store: map<Key, Assignment>, a: Assignment): map<Key, Assignment> {
    store[Key(a.repo, a.id) := a]
  }

  /** An engine adds a step, marks one, ends, or writes its record, which it may do even once it is over. */
  function EngineStep(s: State, e: Event): Option<State>
    requires e.Add? || e.Mark? || e.Over? || e.Persist?
  {
    if e.t !in s.engines then None
    else
      var engine := s.engines[e.t];
      var a := engine.assignment;
      if e.Persist? then Some(s.(store := if e.ok then Written(s.store, a) else s.store))
      else if a.state.IsOver() then None
      else
        match e
        case Add(t, kind) =>
          var step := AgentStep(kind, StepState.Running, None, None);
          Some(s.(engines := s.engines[t := engine.(assignment := a.(steps := a.steps + [step]))]))
        case Mark(t, i, state) =>
          if i >= |a.steps| then None
          else
            var at := if state.Finished? then Some(engine.world) else a.steps[i].at;
            var step := a.steps[i].(state := state, at := at);
            Some(s.(engines := s.engines[t := engine.(assignment := a.(steps := a.steps[i := step]))]))
        case Over(t, life) =>
          if !life.IsOver() then None
          else Some(s.(engines := s.engines[t := engine.(assignment := a.(state := life))]))
  }

  /** A list holds the live lock from its first read to its last write; a forget holds it throughout. */
  function StoreStep(s: State, e: Event): Option<State>
    requires e.BeginList? || e.ReadRecord? || e.CloseRecord? || e.EndList? || e.Forget?
  {
    match e
    case BeginList(repo) => if s.listing.Some? then None else Some(s.(listing := Some(Listing(repo, map[]))))
    case ReadRecord(id) =>
      if s.listing.None? || Key(s.listing.value.repo, id) !in s.store then None
      else
        var seen := s.listing.value.seen[id := s.store[Key(s.listing.value.repo, id)]];
        Some(s.(listing := Some(Listing(s.listing.value.repo, seen))))
    case CloseRecord(id, ok) =>
      if s.listing.None? || id !in s.listing.value.seen || id in s.live then None
      else
        var a := s.listing.value.seen[id];
        if a.state.IsOver() then None
        else Some(s.(store := if ok then Written(s.store, Closed(a)) else s.store))
    case EndList => if s.listing.None? then None else Some(s.(listing := None))
    case Forget(key) =>
      if s.listing.Some? then None
      else if key.id in s.live && s.live[key.id] in s.engines && !s.engines[s.live[key.id]].assignment.state.IsOver()
      then None
      else Some(s.(live := s.live - {key.id}, store := s.store - {key}))
  }

  ghost function Step(s: State, e: Event): Option<State> {
    if e.Add? || e.Mark? || e.Over? || e.Persist? then EngineStep(s, e)
    else if e.BeginList? || e.ReadRecord? || e.CloseRecord? || e.EndList? || e.Forget? then StoreStep(s, e)
    else StartStep(s, e)
  }

  // --- What every reachable state satisfies ----------------------------------

  /** No two entries are for one job. */
  ghost predicate OneEach(starting: seq<Entry>) {
    forall i, j | 0 <= i < j < |starting| ::
      !(starting[i].repo == starting[j].repo && JobOf(starting[i].target) == JobOf(starting[j].target))
  }

  /** `starting` holds exactly one entry for each start in flight, and no two for one job. */
  ghost predicate Entries(starting: seq<Entry>, starts: map<nat, Start>) {
    && (forall e | e in starting ::
          e.owner in starts && starts[e.owner].stage.HoldsClaim() && e == EntryOf(starts, e.owner))
    && OneEach(starting)
    && (forall t | t in starts && starts[t].stage.HoldsClaim() :: EntryOf(starts, t) in starting)
  }

  function EntryOf(starts: map<nat, Start>, t: nat): Entry
    requires t in starts
  {
    Entry(t, starts[t].request.repo, starts[t].request.target)
  }

  /** An engine is of its start's job, at the revisions its record says. */
  ghost predicate Engines(engines: map<nat, Engine>, starts: map<nat, Start>) {
    && (forall t | t in engines ::
          && t in starts && starts[t].stage.HasEngine()
          && engines[t].assignment.id == starts[t].stage.id
          && engines[t].assignment.repo == starts[t].request.repo
          && JobOf(engines[t].assignment.target) == JobOf(starts[t].request.target)
          && engines[t].world == RevisionsOf(engines[t].assignment.target))
    && (forall t | t in starts && starts[t].stage.HasEngine() :: t in engines)
  }

  ghost predicate Live(live: map<string, nat>, engines: map<nat, Engine>, starts: map<nat, Start>) {
    forall id | id in live ::
      && live[id] in engines && live[id] in starts
      && (starts[live[id]].stage.Listed? || starts[live[id]].stage.Ended?)
      && starts[live[id]].stage.id == id
  }

  predicate Running(engines: map<nat, Engine>, t: nat) {
    t in engines && !engines[t].assignment.state.IsOver()
  }

  /** A running engine can be found: its start still holds the claim, or its handle is live. */
  ghost predicate Findable(live: map<string, nat>, engines: map<nat, Engine>, starts: map<nat, Start>) {
    forall t | Running(engines, t) && t in starts && starts[t].stage.HasEngine() ::
      starts[t].stage.Launched? || (starts[t].stage.id in live && live[starts[t].stage.id] == t)
  }

  /** The starts that own their job: those in flight, and those whose engine is running. */
  ghost predicate Owns(engines: map<nat, Engine>, starts: map<nat, Start>, t: nat) {
    t in starts && (starts[t].stage.HoldsClaim() || Running(engines, t))
  }

  ghost predicate Exclusive(engines: map<nat, Engine>, starts: map<nat, Start>) {
    forall t, u | t != u && Owns(engines, starts, t) && Owns(engines, starts, u) ::
      !(starts[t].request.repo == starts[u].request.repo
        && JobOf(starts[t].request.target) == JobOf(starts[u].request.target))
  }

  /** Every finished step was finished at the record's own revisions. */
  ghost predicate Stamped(a: Assignment) {
    forall i | 0 <= i < |a.steps| && a.steps[i].state.Finished? :: a.steps[i].at == Some(RevisionsOf(a.target))
  }

  /** An id belongs to one job, and what is recorded under it is sound. */
  ghost predicate Sound(issued: map<string, (string, Job)>, a: Assignment) {
    a.id in issued && issued[a.id] == (a.repo, JobOf(a.target)) && Stamped(a)
  }

  ghost predicate Stored(issued: map<string, (string, Job)>, store: map<Key, Assignment>) {
    forall k | k in store :: Sound(issued, store[k]) && k == Key(store[k].repo, store[k].id)
  }

  ghost predicate Seen(issued: map<string, (string, Job)>, listing: Option<Listing>) {
    listing.Some? ==>
      forall id | id in listing.value.seen :: Sound(issued, listing.value.seen[id]) && listing.value.seen[id].id == id
  }

  ghost predicate Worked(issued: map<string, (string, Job)>, engines: map<nat, Engine>) {
    forall t | t in engines :: Sound(issued, engines[t].assignment)
  }

  ghost predicate Staged(issued: map<string, (string, Job)>, starts: map<nat, Start>) {
    forall t | t in starts && starts[t].stage.HasAssignment() ::
      && Sound(issued, starts[t].stage.assignment)
      && starts[t].stage.assignment.repo == starts[t].request.repo
      && SameRevisions(starts[t].stage.assignment.target, starts[t].request.target)
      && !starts[t].stage.assignment.state.IsOver()
  }

  ghost predicate Inv(s: State) {
    && Entries(s.starting, s.starts)
    && Engines(s.engines, s.starts)
    && Live(s.live, s.engines, s.starts)
    && Findable(s.live, s.engines, s.starts)
    && Exclusive(s.engines, s.starts)
    && Stored(s.issued, s.store)
    && Seen(s.issued, s.listing)
    && Worked(s.issued, s.engines)
    && Staged(s.issued, s.starts)
  }

  // --- Every step keeps them -------------------------------------------------

  /** A start goes on without taking or letting go of its claim. */
  lemma ClaimUnmoved(starting: seq<Entry>, engines: map<nat, Engine>, starts: map<nat, Start>, t: nat, x: Start)
    requires Entries(starting, starts) && Exclusive(engines, starts)
    requires t in starts ==> starts[t].request == x.request && starts[t].stage.HoldsClaim() == x.stage.HoldsClaim()
    requires t !in starts ==> !x.stage.HoldsClaim() && t !in engines
    ensures Entries(starting, starts[t := x]) && Exclusive(engines, starts[t := x])
  {
  }

  /** A start that has no engine goes on without one. */
  lemma Unlaunched(live: map<string, nat>, engines: map<nat, Engine>, starts: map<nat, Start>, t: nat, x: Start)
    requires Engines(engines, starts) && Live(live, engines, starts) && Findable(live, engines, starts)
    requires t !in engines && !x.stage.HasEngine()
    ensures Engines(engines, starts[t := x]) && Live(live, engines, starts[t := x]) && Findable(live, engines, starts[t := x])
  {
  }

  lemma StagedMoved(issued: map<string, (string, Job)>, starts: map<nat, Start>, t: nat, x: Start)
    requires Staged(issued, starts)
    requires x.stage.HasAssignment() ==>
      && Sound(issued, x.stage.assignment) && x.stage.assignment.repo == x.request.repo
      && SameRevisions(x.stage.assignment.target, x.request.target) && !x.stage.assignment.state.IsOver()
    ensures Staged(issued, starts[t := x])
  {
  }

  lemma IdIssued(s: State, id: string, job: (string, Job))
    requires Inv(s) && id !in s.issued
    ensures Stored(s.issued[id := job], s.store) && Seen(s.issued[id := job], s.listing)
    ensures Worked(s.issued[id := job], s.engines) && Staged(s.issued[id := job], s.starts)
  {
  }

  lemma ResumedIsStamped(kept: Assignment, level: nat, note: string)
    requires Stamped(kept)
    ensures Stamped(Resumed(kept, level, note))
  {
  }

  lemma AskKeeps(s: State, e: Event, s': State)
    requires Inv(s) && e.Ask? && StartStep(s, e) == Some(s')
    ensures Inv(s')
  {
    ClaimUnmoved(s.starting, s.engines, s.starts, e.t, Start(e.request, Asked));
    Unlaunched(s.live, s.engines, s.starts, e.t, Start(e.request, Asked));
    StagedMoved(s.issued, s.starts, e.t, Start(e.request, Asked));
  }

  lemma LoadKeeps(s: State, e: Event, s': State)
    requires Inv(s) && e.Load? && StartStep(s, e) == Some(s')
    ensures Inv(s')
  {
    var r := s.starts[e.t].request;
    var a := Opened(s.store, r, e.newId);
    OpenedIsSound(s, r, e.newId);
    ClaimUnmoved(s.starting, s.engines, s.starts, e.t, s'.starts[e.t]);
    Unlaunched(s.live, s.engines, s.starts, e.t, s'.starts[e.t]);
    if a.id !in s.issued {
      IdIssued(s, a.id, (r.repo, JobOf(r.target)));
    }
    StagedMoved(s'.issued, s.starts, e.t, s'.starts[e.t]);
  }

  /** What a start opens is its own job's, at its own revisions, with an id of that job or a new one. */
  lemma OpenedIsSound(s: State, r: Request, newId: string)
    requires Inv(s) && newId !in s.issued
    ensures var a := Opened(s.store, r, newId);
            && a.repo == r.repo && SameRevisions(a.target, r.target) && !a.state.IsOver() && Stamped(a)
            && (a.id in s.issued ==> s.issued[a.id] == (r.repo, JobOf(r.target)))
            && (a.id in s.issued || a.id == newId)
  {
    if r.resume.Some? && Key(r.repo, r.resume.value) in s.store && CarriesOn(s.store[Key(r.repo, r.resume.value)], r) {
      ResumedIsStamped(s.store[Key(r.repo, r.resume.value)], r.level, r.note);
    }
  }

  lemma SaveKeeps(s: State, e: Event, s': State)
    requires Inv(s) && e.Save? && StartStep(s, e) == Some(s')
    ensures Inv(s')
  {
    ClaimUnmoved(s.starting, s.engines, s.starts, e.t, s'.starts[e.t]);
    Unlaunched(s.live, s.engines, s.starts, e.t, s'.starts[e.t]);
    StagedMoved(s.issued, s.starts, e.t, s'.starts[e.t]);
    RecordWritten(s.issued, s.store, s.starts[e.t].stage.assignment);
  }

  lemma RecordWritten(issued: map<string, (string, Job)>, store: map<Key, Assignment>, a: Assignment)
    requires Stored(issued, store) && Sound(issued, a)
    ensures Stored(issued, Written(store, a))
  {
  }

  /** Nobody else owns a job that is not busy. */
  lemma NotBusyIsFree(s: State, t: nat, u: nat)
    requires Inv(s) && t in s.starts && s.starts[t].stage.Asked? && u != t
    requires !Busy(s, s.starts[t].request.repo, s.starts[t].request.target)
    requires Owns(s.engines, s.starts, u) && s.starts[u].request.repo == s.starts[t].request.repo
    ensures JobOf(s.starts[u].request.target) != JobOf(s.starts[t].request.target)
  {
    if s.starts[u].stage.HoldsClaim() {
      assert EntryOf(s.starts, u) in s.starting;
      assert !HeldBy(EntryOf(s.starts, u), s.starts[t].request.repo, s.starts[t].request.target);
    } else {
      var id := s.starts[u].stage.id;
      assert id in s.live && s.live[id] == u;
      assert !WorksOn(s.engines[u].assignment, s.starts[t].request.repo, s.starts[t].request.target);
    }
  }

  lemma EntryTaken(starting: seq<Entry>, starts: map<nat, Start>, t: nat, x: Start)
    requires Entries(starting, starts) && t in starts && !starts[t].stage.HoldsClaim()
    requires x.request == starts[t].request && x.stage.HoldsClaim()
    requires forall e | e in starting ::
               !(e.repo == x.request.repo && JobOf(e.target) == JobOf(x.request.target))
    ensures Entries(starting + [EntryOf(starts, t)], starts[t := x])
  {
    var after := starting + [EntryOf(starts, t)];
    assert forall i | 0 <= i < |starting| :: after[i] in starting;
    assert OneEach(after);
  }

  lemma OneMoreOwner(engines: map<nat, Engine>, starts: map<nat, Start>, t: nat, x: Start)
    requires Exclusive(engines, starts) && t in starts && x.request == starts[t].request
    requires forall u | u != t && Owns(engines, starts, u) && starts[u].request.repo == x.request.repo ::
               JobOf(starts[u].request.target) != JobOf(x.request.target)
    ensures Exclusive(engines, starts[t := x])
  {
    forall u | u != t && Owns(engines, starts[t := x], u) ensures Owns(engines, starts, u) {
    }
  }

  lemma ClaimTaken(s: State, t: nat, x: Start)
    requires Inv(s) && t in s.starts && s.starts[t].stage.Asked? && x == s.starts[t].(stage := Claimed)
    requires !Busy(s, s.starts[t].request.repo, s.starts[t].request.target)
    ensures Entries(s.starting + [EntryOf(s.starts, t)], s.starts[t := x]) && Exclusive(s.engines, s.starts[t := x])
  {
    forall u | u != t && Owns(s.engines, s.starts, u) && s.starts[u].request.repo == x.request.repo
      ensures JobOf(s.starts[u].request.target) != JobOf(x.request.target)
    {
      NotBusyIsFree(s, t, u);
    }
    OneMoreOwner(s.engines, s.starts, t, x);
    forall e | e in s.starting ensures !(e.repo == x.request.repo && JobOf(e.target) == JobOf(x.request.target)) {
      assert Owns(s.engines, s.starts, e.owner);
    }
    EntryTaken(s.starting, s.starts, t, x);
  }

  lemma RefuseKeeps(s: State, t: nat)
    requires Inv(s) && t in s.starts && s.starts[t].stage.Asked?
    ensures Inv(At(s, t, Refused))
  {
    var x := s.starts[t].(stage := Refused);
    StagedMoved(s.issued, s.starts, t, x);
    Unlaunched(s.live, s.engines, s.starts, t, x);
    ClaimUnmoved(s.starting, s.engines, s.starts, t, x);
  }

  lemma ClaimKeeps(s: State, t: nat)
    requires Inv(s) && t in s.starts && s.starts[t].stage.Asked?
    requires !Busy(s, s.starts[t].request.repo, s.starts[t].request.target)
    ensures Inv(ClaimTried(s, t, s.starts[t].request))
  {
    var x := s.starts[t].(stage := Claimed);
    StagedMoved(s.issued, s.starts, t, x);
    Unlaunched(s.live, s.engines, s.starts, t, x);
    ClaimTaken(s, t, x);
  }

  lemma {:induction false} DroppedAt(starting: seq<Entry>, repo: string, target: Target, k: nat)
    requires k < |starting| && HeldBy(starting[k], repo, target)
    requires forall i | 0 <= i < k :: !HeldBy(starting[i], repo, target)
    ensures Dropped(starting, repo, target) == starting[..k] + starting[k + 1..]
  {
    if k > 0 {
      DroppedAt(starting[1..], repo, target, k - 1);
      assert starting[..k] == [starting[0]] + starting[1..][..k - 1];
    }
  }

  lemma Without(starting: seq<Entry>, k: nat)
    requires OneEach(starting) && k < |starting|
    ensures OneEach(starting[..k] + starting[k + 1..])
    ensures forall e :: e in starting[..k] + starting[k + 1..] <==> e in starting && e != starting[k]
  {
    var left := starting[..k] + starting[k + 1..];
    forall e | e in starting && e != starting[k] ensures e in left {
      var i :| 0 <= i < |starting| && starting[i] == e;
      assert e == left[if i < k then i else i - 1];
    }
  }

  /** Dropping a claim removes the entry of the start that drops it, and no other. */
  lemma DropsItsOwn(starting: seq<Entry>, starts: map<nat, Start>, t: nat)
    requires Entries(starting, starts) && t in starts && starts[t].stage.HoldsClaim()
    ensures var left := Dropped(starting, starts[t].request.repo, starts[t].request.target);
            && |left| == |starting| - 1 && OneEach(left)
            && forall e :: e in left <==> e in starting && e.owner != t
  {
    var k :| 0 <= k < |starting| && starting[k] == EntryOf(starts, t);
    DroppedAt(starting, starts[t].request.repo, starts[t].request.target, k);
    Without(starting, k);
  }

  lemma ClaimDropped(starting: seq<Entry>, starts: map<nat, Start>, t: nat, x: Start)
    requires Entries(starting, starts) && t in starts && starts[t].stage.HoldsClaim()
    requires x.request == starts[t].request && !x.stage.HoldsClaim()
    ensures Entries(Dropped(starting, x.request.repo, x.request.target), starts[t := x])
  {
    DropsItsOwn(starting, starts, t);
  }

  lemma OwnsLess(engines: map<nat, Engine>, starts: map<nat, Start>, t: nat, x: Start)
    requires Exclusive(engines, starts) && Owns(engines, starts, t) && x.request == starts[t].request
    ensures Exclusive(engines, starts[t := x])
  {
  }

  lemma GiveUpKeeps(s: State, e: Event, s': State)
    requires Inv(s) && e.GiveUp? && StartStep(s, e) == Some(s')
    ensures Inv(s')
  {
    ClaimDropped(s.starting, s.starts, e.t, s'.starts[e.t]);
    OwnsLess(s.engines, s.starts, e.t, s'.starts[e.t]);
    Unlaunched(s.live, s.engines, s.starts, e.t, s'.starts[e.t]);
    StagedMoved(s.issued, s.starts, e.t, s'.starts[e.t]);
  }

  /** A start whose engine is listed goes on with it. */
  lemma StillEngaged(live: map<string, nat>, engines: map<nat, Engine>, starts: map<nat, Start>, t: nat, x: Start)
    requires Engines(engines, starts) && Live(live, engines, starts) && Findable(live, engines, starts)
    requires t in starts && starts[t].stage.Listed? && x == starts[t].(stage := Ended(starts[t].stage.id))
    ensures Engines(engines, starts[t := x]) && Live(live, engines, starts[t := x]) && Findable(live, engines, starts[t := x])
  {
    assert Engines(engines, starts[t := x]);
    assert Live(live, engines, starts[t := x]);
  }

  lemma ReleaseKeeps(s: State, e: Event, s': State)
    requires Inv(s) && e.Release? && StartStep(s, e) == Some(s')
    ensures Inv(s')
  {
    ClaimDropped(s.starting, s.starts, e.t, s'.starts[e.t]);
    OwnsLess(s.engines, s.starts, e.t, s'.starts[e.t]);
    StagedMoved(s.issued, s.starts, e.t, s'.starts[e.t]);
    StillEngaged(s.live, s.engines, s.starts, e.t, s'.starts[e.t]);
  }

  lemma EngineAdded(engines: map<nat, Engine>, starts: map<nat, Start>, t: nat, a: Assignment, x: Start)
    requires Engines(engines, starts)
    requires t in starts && starts[t].stage == Saved(a) && x == starts[t].(stage := Launched(a.id))
    requires a.repo == x.request.repo && SameRevisions(a.target, x.request.target)
    ensures Engines(engines[t := Engine(a, RevisionsOf(x.request.target))], starts[t := x])
  {
    JobsAndRevisions(a.target, x.request.target);
  }

  lemma EngineLaunched(live: map<string, nat>, engines: map<nat, Engine>, starts: map<nat, Start>, t: nat,
                       engine: Engine, x: Start)
    requires Engines(engines, starts) && Live(live, engines, starts) && Findable(live, engines, starts)
    requires t in starts && !starts[t].stage.HasEngine() && x.stage.Launched?
    ensures Live(live, engines[t := engine], starts[t := x]) && Findable(live, engines[t := engine], starts[t := x])
  {
  }

  /** What a start has saved is of its own job, under an id of that job, and not over. */
  lemma SavedIsSound(issued: map<string, (string, Job)>, starts: map<nat, Start>, t: nat)
    requires Staged(issued, starts) && t in starts && starts[t].stage.Saved?
    ensures var a := starts[t].stage.assignment;
            && Sound(issued, a) && a.repo == starts[t].request.repo
            && SameRevisions(a.target, starts[t].request.target)
  {
  }

  lemma LaunchKeeps(s: State, t: nat)
    requires Inv(s) && t in s.starts && s.starts[t].stage.Saved?
    ensures Inv(WithEngine(s, t, s.starts[t].stage.assignment, s.starts[t].request))
  {
    var a := s.starts[t].stage.assignment;
    var x, engine := s.starts[t].(stage := Launched(a.id)), Engine(a, RevisionsOf(s.starts[t].request.target));
    SavedIsSound(s.issued, s.starts, t);
    StagedMoved(s.issued, s.starts, t, x);
    ClaimUnmoved(s.starting, s.engines, s.starts, t, x);
    EngineAdded(s.engines, s.starts, t, a, x);
    EngineLaunched(s.live, s.engines, s.starts, t, engine, x);
    OwnerWorks(s.engines, s.starts[t := x], t, engine);
    WorkedMoved(s.issued, s.engines, t, engine);
  }

  /** An engine that works for a start that owns its job already takes no other. */
  lemma OwnerWorks(engines: map<nat, Engine>, starts: map<nat, Start>, t: nat, engine: Engine)
    requires Exclusive(engines, starts) && (Owns(engines, starts, t) || engine.assignment.state.IsOver())
    ensures Exclusive(engines[t := engine], starts)
  {
  }

  /**
   * Putting a handle where it is found never puts it over one whose engine
   * still runs. What the store says of that engine plays no part in this.
   */
  lemma InsertReplacesNothingRunning(s: State, t: nat)
    requires Inv(s) && t in s.starts && s.starts[t].stage.Launched? && s.starts[t].stage.id in s.live
    ensures s.live[s.starts[t].stage.id] != t && !Running(s.engines, s.live[s.starts[t].stage.id])
  {
    var u := s.live[s.starts[t].stage.id];
    if Running(s.engines, u) {
      assert s.engines[t].assignment.id == s.engines[u].assignment.id;
      assert Owns(s.engines, s.starts, t) && Owns(s.engines, s.starts, u);
    }
  }

  lemma HandleInserted(live: map<string, nat>, engines: map<nat, Engine>, starts: map<nat, Start>, t: nat, x: Start)
    requires Engines(engines, starts) && Live(live, engines, starts)
    requires t in starts && starts[t].stage.Launched? && x == starts[t].(stage := Listed(starts[t].stage.id))
    ensures Engines(engines, starts[t := x]) && Live(live[x.stage.id := t], engines, starts[t := x])
  {
  }

  lemma HandleFound(live: map<string, nat>, engines: map<nat, Engine>, starts: map<nat, Start>, t: nat, x: Start)
    requires Findable(live, engines, starts)
    requires t in starts && starts[t].stage.Launched? && x == starts[t].(stage := Listed(starts[t].stage.id))
    requires x.stage.id in live ==> !Running(engines, live[x.stage.id])
    ensures Findable(live[x.stage.id := t], engines, starts[t := x])
  {
  }

  lemma InsertKeeps(s: State, e: Event, s': State)
    requires Inv(s) && e.Insert? && StartStep(s, e) == Some(s')
    ensures Inv(s')
  {
    if s.starts[e.t].stage.id in s.live {
      InsertReplacesNothingRunning(s, e.t);
    }
    StagedMoved(s.issued, s.starts, e.t, s'.starts[e.t]);
    ClaimUnmoved(s.starting, s.engines, s.starts, e.t, s'.starts[e.t]);
    HandleInserted(s.live, s.engines, s.starts, e.t, s'.starts[e.t]);
    HandleFound(s.live, s.engines, s.starts, e.t, s'.starts[e.t]);
  }

  lemma EngineMoved(live: map<string, nat>, engines: map<nat, Engine>, starts: map<nat, Start>, t: nat, engine: Engine)
    requires Engines(engines, starts) && Live(live, engines, starts) && Findable(live, engines, starts)
    requires t in engines && engine.world == engines[t].world && Running(engines, t)
    requires engine.assignment.id == engines[t].assignment.id && engine.assignment.repo == engines[t].assignment.repo
    requires engine.assignment.target == engines[t].assignment.target
    ensures Engines(engines[t := engine], starts) && Live(live, engines[t := engine], starts)
    ensures Findable(live, engines[t := engine], starts)
  {
  }

  /** What an engine does to its assignment keeps every finished step at the engine's revisions. */
  lemma EngineStamps(s: State, e: Event, s': State)
    requires (e.Add? || e.Mark? || e.Over?) && EngineStep(s, e) == Some(s')
    requires Stamped(s.engines[e.t].assignment) && s.engines[e.t].world == RevisionsOf(s.engines[e.t].assignment.target)
    ensures s' == s.(engines := s.engines[e.t := s'.engines[e.t]]) && Running(s.engines, e.t)
    ensures s'.engines[e.t].world == s.engines[e.t].world && Stamped(s'.engines[e.t].assignment)
    ensures var a, b := s.engines[e.t].assignment, s'.engines[e.t].assignment;
            b.id == a.id && b.repo == a.repo && b.target == a.target
  {
  }

  lemma EngineKeeps(s: State, e: Event, s': State)
    requires Inv(s) && (e.Add? || e.Mark? || e.Over?) && EngineStep(s, e) == Some(s')
    ensures Inv(s')
  {
    EngineStamps(s, e, s');
    var engine := s'.engines[e.t];
    EngineMoved(s.live, s.engines, s.starts, e.t, engine);
    OwnerWorks(s.engines, s.starts, e.t, engine);
    WorkedMoved(s.issued, s.engines, e.t, engine);
  }

  lemma WorkedMoved(issued: map<string, (string, Job)>, engines: map<nat, Engine>, t: nat, engine: Engine)
    requires Worked(issued, engines) && Sound(issued, engine.assignment)
    ensures Worked(issued, engines[t := engine])
  {
  }

  lemma PersistKeeps(s: State, e: Event, s': State)
    requires Inv(s) && e.Persist? && EngineStep(s, e) == Some(s')
    ensures Inv(s')
  {
    assert Stored(s.issued, s'.store);
  }

  lemma ListKeeps(s: State, e: Event, s': State)
    requires Inv(s) && (e.BeginList? || e.ReadRecord? || e.CloseRecord? || e.EndList?) && StoreStep(s, e) == Some(s')
    ensures Inv(s')
  {
    if e.CloseRecord? {
      assert Stamped(Closed(s.listing.value.seen[e.id]));
    }
    assert Stored(s.issued, s'.store);
    assert Seen(s.issued, s'.listing);
  }

  lemma ForgetKeeps(s: State, e: Event, s': State)
    requires Inv(s) && e.Forget? && StoreStep(s, e) == Some(s')
    ensures Inv(s')
  {
    assert Stored(s.issued, s'.store);
    assert Live(s'.live, s.engines, s.starts);
    assert Findable(s'.live, s.engines, s.starts);
  }

  lemma ClaimDecides(s: State, t: nat)
    requires Inv(s) && t in s.starts && s.starts[t].stage.Asked?
    ensures Inv(ClaimTried(s, t, s.starts[t].request))
  {
    if Busy(s, s.starts[t].request.repo, s.starts[t].request.target) {
      RefuseKeeps(s, t);
    } else {
      ClaimKeeps(s, t);
    }
  }

  lemma StartKeeps(s: State, e: Event, s': State)
    requires Inv(s)
    requires e.Ask? || e.Claim? || e.Load? || e.GiveUp? || e.Save? || e.Launch? || e.Insert? || e.Release?
    requires StartStep(s, e) == Some(s')
    ensures Inv(s')
  {
    match e
    case Ask(_, _) => AskKeeps(s, e, s');
    case Claim(t) => ClaimDecides(s, t);
    case Load(_, _) => LoadKeeps(s, e, s');
    case GiveUp(_) => GiveUpKeeps(s, e, s');
    case Save(_, _) => SaveKeeps(s, e, s');
    case Launch(t) => LaunchKeeps(s, t);
    case Insert(_) => InsertKeeps(s, e, s');
    case Release(_) => ReleaseKeeps(s, e, s');
  }

  lemma StepKeeps(s: State, e: Event, s': State)
    requires Inv(s) && Step(s, e) == Some(s')
    ensures Inv(s')
  {
    if e.Persist? {
      PersistKeeps(s, e, s');
    } else if e.Add? || e.Mark? || e.Over? {
      EngineKeeps(s, e, s');
    } else if e.Forget? {
      ForgetKeeps(s, e, s');
    } else if e.BeginList? || e.ReadRecord? || e.CloseRecord? || e.EndList? {
      ListKeeps(s, e, s');
    } else {
      StartKeeps(s, e, s');
    }
  }

  // --- Whole runs ------------------------------------------------------------

  ghost predicate Run(es: seq<Event>) {
    IsRun(Step, INITIAL, es)
  }

  ghost function End(es: seq<Event>): State
    requires Run(es)
  {
    After(Step, INITIAL, es)
  }

  lemma InvHolds(es: seq<Event>)
    requires Run(es)
    ensures Inv(End(es))
  {
    forall s, e | Inv(s) && Step(s, e).Some? ensures Inv(Step(s, e).value) {
      StepKeeps(s, e, Step(s, e).value);
    }
    Always(Step, Inv, INITIAL, es);
  }

  /**
   * At most one start owns a job. Whatever holds a claim on it, and whatever
   * runs an engine on it, is one and the same start, and the engine works on
   * the job the start asked for even when it carries an earlier run on.
   */
  lemma OneOwnerPerJob(es: seq<Event>, t: nat, u: nat)
    requires Run(es) && Owns(End(es).engines, End(es).starts, t) && Owns(End(es).engines, End(es).starts, u)
    requires End(es).starts[t].request.repo == End(es).starts[u].request.repo
    requires SameJob(End(es).starts[t].request.target, End(es).starts[u].request.target)
    ensures t == u
    ensures t in End(es).engines ==>
              && End(es).engines[t].assignment.repo == End(es).starts[t].request.repo
              && SameJob(End(es).engines[t].assignment.target, End(es).starts[t].request.target)
  {
    InvHolds(es);
  }

  /** `starting` is exactly the starts in flight, each once. */
  lemma OneEntryPerStart(es: seq<Event>, t: nat)
    requires Run(es)
    ensures var s := End(es);
            (t in s.starts && s.starts[t].stage.HoldsClaim()) <==> exists e :: e in s.starting && e.owner == t
    ensures var s := End(es);
            forall i, j | 0 <= i < |s.starting| && 0 <= j < |s.starting| && s.starting[i].owner == s.starting[j].owner ::
              i == j
  {
    InvHolds(es);
    var s := End(es);
    if t in s.starts && s.starts[t].stage.HoldsClaim() {
      assert EntryOf(s.starts, t) in s.starting;
    }
    forall i, j | 0 <= i < |s.starting| && 0 <= j < |s.starting| && s.starting[i].owner == s.starting[j].owner
      ensures i == j
    {
      assert s.starting[i] in s.starting && s.starting[j] in s.starting;
    }
  }

  /** A handle is never put over one whose engine still runs. */
  lemma NoRunningHandleIsReplaced(es: seq<Event>, t: nat)
    requires Run(es) && t in End(es).starts && End(es).starts[t].stage.Launched?
    requires End(es).starts[t].stage.id in End(es).live
    ensures !Running(End(es).engines, End(es).live[End(es).starts[t].stage.id])
  {
    InvHolds(es);
    InsertReplacesNothingRunning(End(es), t);
  }

  /** In every record, every finished step was finished at the record's own revisions. */
  lemma FinishedAtItsRevisions(es: seq<Event>, key: Key, i: nat)
    requires Run(es) && key in End(es).store && i < |End(es).store[key].steps|
    requires End(es).store[key].steps[i].state.Finished?
    ensures End(es).store[key].steps[i].at == Some(RevisionsOf(End(es).store[key].target))
  {
    InvHolds(es);
    assert Stamped(End(es).store[key]);
  }

  lemma Next(es: seq<Event>, e: Event, s: State, s': State)
    requires Run(es) && End(es) == s && Step(s, e) == Some(s')
    ensures Run(es + [e]) && End(es + [e]) == s'
  {
    Then(Step, INITIAL, es, e);
  }

  /** The state in which one start has launched its engine and not yet put its handle where lists look. */
  function Unlisted(r: Request, id: string): State {
    State([Entry(0, r.repo, r.target)], map[], map[0 := Engine(Fresh(r, id), RevisionsOf(r.target))],
          map[0 := Start(r, Launched(id))], map[Key(r.repo, id) := Fresh(r, id)], None,
          map[id := (r.repo, JobOf(r.target))])
  }

  /** The state in which one start has claimed its job. */
  function Held(r: Request): State {
    State([Entry(0, r.repo, r.target)], map[], map[], map[0 := Start(r, Claimed)], map[], None, map[])
  }

  lemma OneStartClaims(r: Request) returns (es: seq<Event>)
    ensures Run(es) && End(es) == Held(r)
  {
    var s1 := INITIAL.(starts := INITIAL.starts[0 := Start(r, Asked)]);
    var s2 := s1.(starting := [] + [Entry(0, r.repo, r.target)], starts := s1.starts[0 := Start(r, Claimed)]);
    assert Run([]) && End([]) == INITIAL;
    Next([], Ask(0, r), INITIAL, s1);
    es := [] + [Ask(0, r)];
    Next(es, Claim(0), s1, s2);
    es := es + [Claim(0)];
    assert s2.starts == Held(r).starts;
  }

  lemma OneStartLaunches(r: Request, id: string) returns (es: seq<Event>)
    requires r.resume.None?
    ensures Run(es) && End(es) == Unlisted(r, id)
  {
    es := OneStartClaims(r);
    var a := Fresh(r, id);
    var s2 := Held(r);
    var s3 := s2.(starts := s2.starts[0 := Start(r, Chosen(a))], issued := s2.issued[id := (r.repo, JobOf(r.target))]);
    var s4 := s3.(starts := s3.starts[0 := Start(r, Saved(a))], store := Written(s3.store, a));
    var s5 := s4.(starts := s4.starts[0 := Start(r, Launched(id))],
                  engines := s4.engines[0 := Engine(a, RevisionsOf(r.target))]);
    Next(es, Load(0, id), s2, s3);
    es := es + [Load(0, id)];
    Next(es, Save(0, true), s3, s4);
    es := es + [Save(0, true)];
    Next(es, Launch(0), s4, s5);
    es := es + [Launch(0)];
    assert s5 == Unlisted(r, id) by {
      assert s5.starts == Unlisted(r, id).starts && s5.store == Unlisted(r, id).store;
      assert s5.issued == Unlisted(r, id).issued && s5.engines == Unlisted(r, id).engines;
    }
  }

  /**
   * A record can say that its run was stopped while its engine is running: a
   * list may read it after it is saved and write it closed before the handle
   * is put where lists look. So what keeps two engines off one job cannot be
   * the record; it is the claim.
   */
  lemma RecordCanSayStoppedWhileItRuns(r: Request, id: string)
    requires r.resume.None?
    ensures exists es | Run(es) :: Running(End(es).engines, 0) && Key(r.repo, id) in End(es).store
                                   && End(es).store[Key(r.repo, id)].state.Stopped?
                                   && End(es).engines[0].assignment.id == id
  {
    var es := OneStartLaunches(r, id);
    var s0 := Unlisted(r, id);
    var s1 := s0.(listing := Some(Listing(r.repo, map[])));
    var s2 := s0.(listing := Some(Listing(r.repo, map[][id := Fresh(r, id)])));
    var s3 := s2.(store := Written(s2.store, Closed(Fresh(r, id))));
    Next(es, BeginList(r.repo), s0, s1);
    es := es + [BeginList(r.repo)];
    Next(es, ReadRecord(id), s1, s2);
    es := es + [ReadRecord(id)];
    Next(es, CloseRecord(id, true), s2, s3);
    es := es + [CloseRecord(id, true)];
    assert Run(es) && End(es) == s3;
  }

  // --- What the record of a running engine says ------------------------------

  function RecordOf(engines: map<nat, Engine>, t: nat): Key
    requires t in engines
  {
    Key(engines[t].assignment.repo, engines[t].assignment.id)
  }

  /** A list has read, not over, the record that engine `t` keeps. */
  ghost predicate HasRead(s: State, t: nat) {
    && t in s.engines && s.listing.Some? && s.listing.value.repo == s.engines[t].assignment.repo
    && s.engines[t].assignment.id in s.listing.value.seen
    && !s.listing.value.seen[s.engines[t].assignment.id].state.IsOver()
  }

  /**
   * A list that has read the record of a running engine may write it as
   * stopped exactly between the engine's launch and the moment its handle is
   * put where lists look, and then only if no earlier handle is there.
   */
  lemma ListMayCloseExactlyBeforeTheInsert(es: seq<Event>, t: nat)
    requires Run(es) && HasRead(End(es), t) && Running(End(es).engines, t)
    ensures t in End(es).starts
    ensures var s := End(es);
            var id := s.engines[t].assignment.id;
            Step(s, CloseRecord(id, true)).Some? <==> s.starts[t].stage.Launched? && id !in s.live
  {
    InvHolds(es);
    UnlistedIsLaunched(End(es).live, End(es).engines, End(es).starts, t);
  }

  lemma UnlistedIsLaunched(live: map<string, nat>, engines: map<nat, Engine>, starts: map<nat, Start>, t: nat)
    requires Engines(engines, starts) && Findable(live, engines, starts) && Running(engines, t)
    ensures t in starts && (engines[t].assignment.id !in live ==> starts[t].stage.Launched?)
  {
  }

  /**
   * So may a forget take the record of a running engine away: exactly while
   * the engine's handle is not yet where forgets look.
   */
  lemma ForgetMayTakeExactlyBeforeTheInsert(es: seq<Event>, t: nat)
    requires Run(es) && t in End(es).engines && Running(End(es).engines, t) && End(es).listing.None?
    ensures t in End(es).starts
    ensures var s, key := End(es), RecordOf(End(es).engines, t);
            && (Step(s, Forget(key)).Some? <==> s.starts[t].stage.Launched?)
            && (Step(s, Forget(key)).Some? ==> key !in Step(s, Forget(key)).value.store)
  {
    InvHolds(es);
    HandleIsOver(End(es), t);
    ForgetLooks(End(es), RecordOf(End(es).engines, t));
  }

  /** What a forget looks at, and what it takes away. */
  lemma ForgetLooks(s: State, key: Key)
    requires s.listing.None?
    ensures Step(s, Forget(key)).Some? <==> !(key.id in s.live && Running(s.engines, s.live[key.id]))
    ensures Step(s, Forget(key)).Some? ==> key !in Step(s, Forget(key)).value.store
  {
  }

  /** Under the id of a running engine there is its own handle, or one whose engine is over and it is only launched. */
  lemma HandleIsOver(s: State, t: nat)
    requires Inv(s) && Running(s.engines, t)
    ensures t in s.starts
    ensures var id := s.engines[t].assignment.id;
            if s.starts[t].stage.Launched? then id in s.live ==> s.live[id] in s.engines && !Running(s.engines, s.live[id])
            else id in s.live && s.live[id] == t
  {
    if s.starts[t].stage.Launched? && s.engines[t].assignment.id in s.live {
      InsertReplacesNothingRunning(s, t);
    }
  }

  /**
   * And where an earlier run is carried on and saving its record fails, which
   * nothing looks at, the engine is launched with the record still saying that
   * the run is over.
   */
  lemma UnsavedRecordSaysOver(es: seq<Event>, t: nat)
    requires Run(es) && t in End(es).starts && End(es).starts[t].stage.Chosen?
    requires var a := End(es).starts[t].stage.assignment;
             Key(a.repo, a.id) in End(es).store && End(es).store[Key(a.repo, a.id)].state.IsOver()
    ensures var more := es + [Save(t, false)] + [Launch(t)];
            && Run(more) && t in End(more).engines && Running(End(more).engines, t)
            && RecordOf(End(more).engines, t) in End(more).store
            && End(more).store[RecordOf(End(more).engines, t)].state.IsOver()
  {
    InvHolds(es);
    var s1, s2 := LaunchedUnsaved(End(es), t);
    Next(es, Save(t, false), End(es), s1);
    Next(es + [Save(t, false)], Launch(t), s1, s2);
  }

  lemma LaunchedUnsaved(s: State, t: nat) returns (s1: State, s2: State)
    requires Inv(s) && t in s.starts && s.starts[t].stage.Chosen?
    ensures Step(s, Save(t, false)) == Some(s1) && Step(s1, Launch(t)) == Some(s2)
    ensures s2.store == s.store && t in s2.engines && Running(s2.engines, t)
    ensures var a := s.starts[t].stage.assignment; RecordOf(s2.engines, t) == Key(a.repo, a.id)
  {
    var a := s.starts[t].stage.assignment;
    s1 := At(s, t, Saved(a));
    s2 := WithEngine(s1, t, a, s.starts[t].request);
    assert !a.state.IsOver();
  }

  /** Besides `t`, only engines in `earlier` have worked under `id`. */
  ghost predicate Known(engines: map<nat, Engine>, t: nat, id: string, earlier: set<nat>) {
    forall u | u in engines && u != t && engines[u].assignment.id == id :: u in earlier
  }

  /** While `t` runs, its handle is found and its record says it is not over. */
  ghost predicate SaysSo(s: State, t: nat, key: Key, earlier: set<nat>) {
    && t in s.engines && t in s.starts && s.starts[t].stage.HasEngine() && key == RecordOf(s.engines, t)
    && (Running(s.engines, t) ==>
          && key.id in s.live && s.live[key.id] == t
          && key in s.store && !s.store[key].state.IsOver()
          && Known(s.engines, t, key.id, earlier))
  }

  /** Nobody has opened an assignment under the id of one that runs. */
  lemma RunningIdIsItsOwn(s: State, t: nat, u: nat)
    requires Inv(s) && Running(s.engines, t) && u != t && u in s.starts && s.starts[u].stage.HasAssignment()
    ensures s.starts[u].stage.assignment.id != s.engines[t].assignment.id
  {
    var a, b := s.starts[u].stage.assignment, s.engines[t].assignment;
    assert Sound(s.issued, a) && Sound(s.issued, b);
    JobsAndRevisions(a.target, s.starts[u].request.target);
    assert Owns(s.engines, s.starts, t) && Owns(s.engines, s.starts, u);
  }

  lemma OpenedIsNotRunning(s: State, u: nat, t: nat)
    requires Inv(s) && t in s.starts && s.starts[t].stage.HasEngine()
    ensures Running(s.engines, t) && u in s.starts && s.starts[u].stage.HasAssignment() ==>
              s.starts[u].stage.assignment.id != s.engines[t].assignment.id
  {
    if Running(s.engines, t) && u in s.starts && s.starts[u].stage.HasAssignment() {
      RunningIdIsItsOwn(s, t, u);
    }
  }

  lemma EngineSaysSo(s: State, e: Event, t: nat, key: Key, earlier: set<nat>, s': State)
    requires SaysSo(s, t, key, earlier) && (e.Add? || e.Mark? || e.Over? || e.Persist?) && EngineStep(s, e) == Some(s')
    requires e.Persist? && e.ok && e.t in earlier ==> e.t == t
    ensures SaysSo(s', t, key, earlier)
  {
  }

  lemma ForgetSaysSo(s: State, e: Event, t: nat, key: Key, earlier: set<nat>, s': State)
    requires SaysSo(s, t, key, earlier) && e.Forget? && StoreStep(s, e) == Some(s')
    ensures SaysSo(s', t, key, earlier)
  {
  }

  lemma CloseSaysSo(s: State, e: Event, t: nat, key: Key, earlier: set<nat>, s': State)
    requires SaysSo(s, t, key, earlier) && Seen(s.issued, s.listing) && e.CloseRecord? && StoreStep(s, e) == Some(s')
    ensures SaysSo(s', t, key, earlier)
  {
    assert s.listing.value.seen[e.id].id == e.id;
  }

  lemma ListSaysSo(s: State, e: Event, t: nat, key: Key, earlier: set<nat>, s': State)
    requires SaysSo(s, t, key, earlier) && (e.BeginList? || e.ReadRecord? || e.EndList?) && StoreStep(s, e) == Some(s')
    ensures SaysSo(s', t, key, earlier)
  {
  }

  lemma InsertSaysSo(s: State, u: nat, t: nat, key: Key, earlier: set<nat>, s': State)
    requires SaysSo(s, t, key, earlier) && StartStep(s, Insert(u)) == Some(s')
    requires Running(s.engines, t) ==> s.starts[u].stage.id != key.id
    ensures SaysSo(s', t, key, earlier)
  {
  }

  lemma InsertIsElsewhere(s: State, u: nat, t: nat, key: Key, earlier: set<nat>)
    requires Inv(s) && SaysSo(s, t, key, earlier) && u in s.starts && s.starts[u].stage.Launched?
    ensures Running(s.engines, t) ==> s.starts[u].stage.id != key.id
  {
    if s.starts[u].stage.id in s.live {
      InsertReplacesNothingRunning(s, u);
    }
  }

  lemma SaveSaysSo(s: State, u: nat, ok: bool, t: nat, key: Key, earlier: set<nat>, s': State)
    requires SaysSo(s, t, key, earlier) && StartStep(s, Save(u, ok)) == Some(s')
    requires Running(s.engines, t) ==> s.starts[u].stage.assignment.id != key.id
    ensures SaysSo(s', t, key, earlier)
  {
  }

  lemma LaunchSaysSo(s: State, u: nat, t: nat, key: Key, earlier: set<nat>, s': State)
    requires SaysSo(s, t, key, earlier) && StartStep(s, Launch(u)) == Some(s')
    requires Running(s.engines, t) ==> s.starts[u].stage.assignment.id != key.id
    ensures SaysSo(s', t, key, earlier)
  {
  }

  lemma StartSaysSo(s: State, e: Event, t: nat, key: Key, earlier: set<nat>, s': State)
    requires SaysSo(s, t, key, earlier) && (e.Ask? || e.Claim? || e.Load?) && StartStep(s, e) == Some(s')
    ensures SaysSo(s', t, key, earlier)
  {
  }

  lemma EndSaysSo(s: State, e: Event, t: nat, key: Key, earlier: set<nat>, s': State)
    requires SaysSo(s, t, key, earlier) && (e.GiveUp? || e.Release?) && StartStep(s, e) == Some(s')
    ensures SaysSo(s', t, key, earlier)
  {
  }

  lemma StepSaysSo(s: State, e: Event, t: nat, key: Key, earlier: set<nat>, s': State)
    requires Inv(s) && SaysSo(s, t, key, earlier) && Step(s, e) == Some(s')
    requires e.Persist? && e.ok && e.t in earlier ==> e.t == t
    ensures SaysSo(s', t, key, earlier)
  {
    if e.Add? || e.Mark? || e.Over? || e.Persist? {
      EngineSaysSo(s, e, t, key, earlier, s');
    } else if e.Forget? {
      ForgetSaysSo(s, e, t, key, earlier, s');
    } else if e.CloseRecord? {
      CloseSaysSo(s, e, t, key, earlier, s');
    } else if e.BeginList? || e.ReadRecord? || e.EndList? {
      ListSaysSo(s, e, t, key, earlier, s');
    } else if e.Insert? {
      InsertIsElsewhere(s, e.t, t, key, earlier);
      InsertSaysSo(s, e.t, t, key, earlier, s');
    } else if e.Save? {
      OpenedIsNotRunning(s, e.t, t);
      SaveSaysSo(s, e.t, e.ok, t, key, earlier, s');
    } else if e.Launch? {
      OpenedIsNotRunning(s, e.t, t);
      LaunchSaysSo(s, e.t, t, key, earlier, s');
    } else if e.GiveUp? || e.Release? {
      EndSaysSo(s, e, t, key, earlier, s');
    } else {
      StartSaysSo(s, e, t, key, earlier, s');
    }
  }

  lemma {:induction false} RunSaysSo(s: State, es: seq<Event>, t: nat, key: Key, earlier: set<nat>)
    requires IsRun(Step, s, es) && Inv(s) && SaysSo(s, t, key, earlier)
    requires forall e | e in es && e.Persist? && e.ok && e.t in earlier :: e.t == t
    ensures SaysSo(After(Step, s, es), t, key, earlier)
    decreases |es|
  {
    if es != [] {
      assert es[0] in es && forall e | e in es[1..] :: e in es;
      StepKeeps(s, es[0], Step(s, es[0]).value);
      StepSaysSo(s, es[0], t, key, earlier, Step(s, es[0]).value);
      RunSaysSo(Step(s, es[0]).value, es[1..], t, key, earlier);
    }
  }

  /** The engines besides `t` that have worked under its id. */
  ghost function Earlier(engines: map<nat, Engine>, t: nat): set<nat>
    requires t in engines
  {
    set u | u in engines && u != t && engines[u].assignment.id == engines[t].assignment.id
  }

  /**
   * Once a running engine's handle is where lists look and the engine has
   * written its record, the record says that it is not over for as long as it
   * runs, whatever lists, forgets and other starts do — unless an engine of an
   * earlier run under the same id, over by then, writes its own once more.
   */
  lemma WrittenRecordSaysItRuns(es: seq<Event>, more: seq<Event>, t: nat)
    requires Run(es) && t in End(es).engines && Running(End(es).engines, t)
    requires var id := End(es).engines[t].assignment.id; id in End(es).live && End(es).live[id] == t
    requires Run(es + [Persist(t, true)] + more)
    requires forall e | e in more && e.Persist? && e.ok :: e.t !in Earlier(End(es).engines, t)
    ensures var s, key := End(es + [Persist(t, true)] + more), RecordOf(End(es).engines, t);
            Running(s.engines, t) ==> key in s.store && !s.store[key].state.IsOver()
  {
    var all := es + [Persist(t, true)] + more;
    var k := |es| + 1;
    Split(Step, INITIAL, all, k);
    assert all[..k] == es + [Persist(t, true)] && all[k..] == more;
    Then(Step, INITIAL, es, Persist(t, true));
    InvHolds(es);
    InvHolds(all[..k]);
    RunSaysSo(End(all[..k]), more, t, RecordOf(End(es).engines, t), Earlier(End(es).engines, t));
  }

  /** That exception is real in every reachable state: such an engine is over, and its record replaces the running one's. */
  lemma EarlierEngineOverwrites(es: seq<Event>, t: nat, u: nat)
    requires Run(es) && t in End(es).engines && Running(End(es).engines, t) && u in Earlier(End(es).engines, t)
    ensures var s := End(es);
            && Step(s, Persist(u, true)).Some? && RecordOf(s.engines, t) in Step(s, Persist(u, true)).value.store
            && Step(s, Persist(u, true)).value.store[RecordOf(s.engines, t)].state.IsOver()
  {
    InvHolds(es);
    var s := End(es);
    assert Sound(s.issued, s.engines[u].assignment) && Sound(s.issued, s.engines[t].assignment);
    assert Owns(s.engines, s.starts, t) && !Owns(s.engines, s.starts, u);
  }

  // --- The state itself ------------------------------------------------------

  /** What `claim` and the drop of a claim do to the shared vector. `live` is what each live handle's snapshot says. */
  class AgentsState {
    var starting: seq<Entry>
    var live: map<string, Assignment>

    /** These are the entries of `s`, and what its live handles say. */
    ghost predicate Is(s: State)
      reads this
    {
      && s.starting == starting && s.live.Keys == live.Keys
      && forall id | id in live :: s.live[id] in s.engines && s.engines[s.live[id]].assignment == live[id]
    }

    constructor ()
      ensures starting == [] && live == map[]
    {
      starting := [];
      live := map[];
    }

    method Claim(owner: nat, repo: string, target: Target) returns (ok: bool)
      modifies this`starting
      ensures ok <==> (forall e | e in old(starting) :: !(e.repo == repo && JobOf(e.target) == JobOf(target)))
                      && (forall id | id in live ::
                            live[id].state.IsOver() || !(live[id].repo == repo && JobOf(live[id].target) == JobOf(target)))
      ensures starting == if ok then old(starting) + [Entry(owner, repo, target)] else old(starting)
      ensures forall s | old(Is(s)) :: ok <==> !Busy(s, repo, target)
    {
      SameJobs(target);
      for i := 0 to |starting|
        invariant forall e | e in starting[..i] :: !HeldBy(e, repo, target)
      {
        if HeldBy(starting[i], repo, target) {
          return false;
        }
      }
      var ids := live.Keys;
      while ids != {}
        invariant ids <= live.Keys
        invariant forall id | id in live && id !in ids :: !WorksOn(live[id], repo, target)
      {
        var id :| id in ids;
        if WorksOn(live[id], repo, target) {
          return false;
        }
        ids := ids - {id};
      }
      assert starting[..|starting|] == starting;
      assert forall e | e in starting :: !HeldBy(e, repo, target);
      starting := starting + [Entry(owner, repo, target)];
      ok := true;
    }

    method Drop(repo: string, target: Target)
      modifies this`starting
      ensures starting == Dropped(old(starting), repo, target)
      ensures forall s, t | old(Is(s)) && t in s.starts && s.starts[t].stage.HoldsClaim() && Inv(s)
                            && s.starts[t].request.repo == repo && s.starts[t].request.target == target ::
                |starting| == |s.starting| - 1 && forall e :: e in starting <==> e in s.starting && e.owner != t
    {
      for i := 0 to |starting|
        invariant starting == old(starting)
        invariant forall j | 0 <= j < i :: !HeldBy(starting[j], repo, target)
      {
        if HeldBy(starting[i], repo, target) {
          DroppedAt(starting, repo, target, i);
          starting := starting[..i] + starting[i + 1..];
          return;
        }
      }
      NothingDropped(starting, repo, target);
    }
  }

  lemma SameJobs(target: Target)
    ensures forall t :: SameJob(t, target) <==> JobOf(t) == JobOf(target)
  {
    forall t ensures SameJob(t, target) <==> JobOf(t) == JobOf(target) {
      JobsAndRevisions(t, target);
    }
  }

  lemma {:induction false} NothingDropped(starting: seq<Entry>, repo: string, target: Target)
    requires forall i | 0 <= i < |starting| :: !HeldBy(starting[i], repo, target)
    ensures Dropped(starting, repo, target) == starting
  {
    if starting != [] {
      NothingDropped(starting[1..], repo, target);
    }
  }
}
