/**
 * The open repository and the calls on it (src-tauri/src/commands.rs).
 *
 * Any number of calls run at once: opens, closes, reads, writes and calls on
 * the graph's walk. Each is a little program; an event lets one call take its
 * next atomic action. An open loads the latest ticket and installs its session
 * in two actions, so another open may take a ticket in between.
 */
module OpenRepository {
  import opened Wrappers
  import opened Runs

  datatype Order = DateOrder | BranchOrder

  /** What a walk of the history shows: its roots, its held lanes, its order. */
  datatype View = View(visible: seq<string>, pinned: seq<string>, order: Order)

  /** A running walk, known to the screen by its token. */
  datatype Walk = Walk(token: nat, path: string, view: View)

  /** A command that chooses what the walk shows. */
  datatype Choice = Show(visible: seq<string>, pinned: seq<string>) | Arrange(order: Order)

  /** The open repository. `opening` and `chosen` are history: the order it was opened in, and every choice since. */
  datatype Session = Session(path: string, ticket: nat, walk: Walk, view: View, opening: Order, chosen: seq<Choice>)

  /** What a command works on, taken from the session under its lock. */
  datatype Handle = Handle(path: string, ticket: nat)

  /** Opening a repository, by what it does next. */
  datatype Opening =
    | OpenAsked(order: Order)
    | Reading(order: Order, ticket: nat)
    | Spawned(ticket: nat, walk: Walk)
    | OpenHolding(ticket: nat, walk: Walk)
    | Passed(ticket: nat, walk: Walk)
    | Opened(ticket: nat, walk: Walk)
    | Superseded(ticket: nat)
    | Unreadable(ticket: nat)
  {
    predicate Finished() { Opened? || Superseded? || Unreadable? }

    /** It may still install its session. */
    predicate Undecided() { Reading? || Spawned? || OpenHolding? || Passed? }

    /** It has a walk of its own that is not the session's yet. */
    predicate WalkPending() { Spawned? || OpenHolding? || Passed? }

    predicate HoldsSession() { OpenHolding? || Passed? }
  }

  /** Closing the repository. */
  datatype Closing = CloseAsked | CloseHolding | Ticketed(ticket: nat) | Closed(ticket: nat)
  {
    predicate HoldsSession() { CloseHolding? || Ticketed? }
  }

  /** A read, or a write when it has to wait for its turn. */
  datatype Turn =
    | TurnAsked(writes: bool)
    | TurnHolding(writes: bool)
    | Queued(open: Handle)
    | Running(writes: bool, open: Handle)
    | Read(open: Handle)
    | Checking(open: Handle)
    | Delivered(open: Handle)
    | Replaced(open: Handle)
    | Wrote(open: Handle)
    | NotOpen
  {
    predicate Finished() { Delivered? || Replaced? || Wrote? || NotOpen? }

    predicate HoldsSession() { TurnHolding? || Checking? }

    predicate HasHandle() { Queued? || Running? || Read? || Checking? || Delivered? || Replaced? || Wrote? }

    /** It runs the closure of a command that writes. */
    predicate Writing() { Running? && writes }
  }

  /** What a call on the walk asks for: more rows of one walk, or a new walk. */
  datatype Ask = Rows(token: nat) | Restart | Choose(choice: Choice)

  datatype Asking = AskAsked(ask: Ask) | AskHolding(ask: Ask) | Asked
  {
    predicate HoldsSession() { AskHolding? }
  }

  /** Whose lock it is. */
  datatype Caller = OpenCall(id: nat) | CloseCall(id: nat) | TurnCall(id: nat) | AskCall(id: nat)

  /** A request for rows, and the walk it was handed to. */
  datatype Reached = Reached(asked: nat, walk: Walk)

  /** `installs`, `walks` and `reached` are history: tickets installed, walks spawned and requests handed on, in order. */
  datatype State = State(
    latest: nat,
    nextToken: nat,
    session: Option<Session>,
    sessionLock: Option<Caller>,
    writeLock: Option<nat>,
    opens: map<nat, Opening>,
    closes: map<nat, Closing>,
    turns: map<nat, Turn>,
    asks: map<nat, Asking>,
    installs: seq<nat>,
    walks: seq<Walk>,
    reached: seq<Reached>)

  /** A call arrives, a call acts, or a worker elsewhere takes a token. `read` is what an open finds on disk. */
  datatype Event =
    | ArriveOpen(id: nat, order: Order)
    | ArriveClose(id: nat)
    | ArriveTurn(id: nat, writes: bool)
    | ArriveAsk(id: nat, ask: Ask)
    | Open(id: nat, read: Option<string>)
    | Close(id: nat)
    | Turn(id: nat)
    | Ask(id: nat)
    | TakeToken

  const INITIAL := State(0, 0, None, None, None, map[], map[], map[], map[], [], [], [])

  // --- What a walk shows -----------------------------------------------------

  function Chosen(view: View, choice: Choice): View {
    match choice
    case Show(visible, pinned) => View(visible, pinned, view.order)
    case Arrange(order) => View(view.visible, view.pinned, order)
  }

  /** What is shown after `choices`, from a repository opened in `order`. */
  function Fold(order: Order, choices: seq<Choice>): View {
    if choices == [] then View([], [], order)
    else Chosen(Fold(order, choices[..|choices| - 1]), choices[|choices| - 1])
  }

  // --- What happens to the session under its lock ----------------------------

  function Installed(ticket: nat, walk: Walk): Session {
    Session(walk.path, ticket, walk, walk.view, walk.view.order, [])
  }

  function HandleOf(session: Session): Handle {
    Handle(session.path, session.ticket)
  }

  /** The request reaches the walk the token names, and no other. */
  function Handed(walk: Walk, token: nat): seq<Reached> {
    if walk.token == token then [Reached(token, walk)] else []
  }

  /** The session once a choice is made and the walk restarted under `token`. */
  function Restarted(session: Session, ask: Ask, token: nat): Session {
    var chosen := if ask.Choose? then
                    session.(view := Chosen(session.view, ask.choice), chosen := session.chosen + [ask.choice])
                  else session;
    chosen.(walk := Walk(token, chosen.path, chosen.view))
  }

  // --- One action of one call ------------------------------------------------

  function OpenStep(s: State, id: nat, read: Option<string>): Option<State> {
    if id !in s.opens then None
    else
      match s.opens[id]
      case OpenAsked(order) =>
        Some(s.(opens := s.opens[id := Reading(order, s.latest + 1)], latest := s.latest + 1))
      case Reading(order, ticket) =>
        if read.None? then Some(s.(opens := s.opens[id := Unreadable(ticket)]))
        else
          var walk := Walk(s.nextToken, read.value, View([], [], order));
          Some(s.(opens := s.opens[id := Spawned(ticket, walk)],
                  nextToken := s.nextToken + 1, walks := s.walks + [walk]))
      case Spawned(ticket, walk) =>
        if s.sessionLock.Some? then None
        else Some(s.(opens := s.opens[id := OpenHolding(ticket, walk)], sessionLock := Some(OpenCall(id))))
      case OpenHolding(ticket, walk) =>
        if s.latest != ticket then Some(s.(opens := s.opens[id := Superseded(ticket)], sessionLock := None))
        else Some(s.(opens := s.opens[id := Passed(ticket, walk)]))
      case Passed(ticket, walk) =>
        Some(s.(opens := s.opens[id := Opened(ticket, walk)], sessionLock := None,
                session := Some(Installed(ticket, walk)), installs := s.installs + [ticket]))
      case _ => None
  }

  function CloseStep(s: State, id: nat): Option<State> {
    if id !in s.closes then None
    else
      match s.closes[id]
      case CloseAsked =>
        if s.sessionLock.Some? then None
        else Some(s.(closes := s.closes[id := CloseHolding], sessionLock := Some(CloseCall(id))))
      case CloseHolding =>
        Some(s.(closes := s.closes[id := Ticketed(s.latest + 1)], latest := s.latest + 1))
      case Ticketed(ticket) =>
        Some(s.(closes := s.closes[id := Closed(ticket)], sessionLock := None, session := None))
      case Closed(_) => None
  }

  /** `with_turn`: the handle is taken under the session lock, the work runs without it. */
  function TurnStep(s: State, id: nat): Option<State> {
    if id !in s.turns then None
    else
      match s.turns[id]
      case TurnAsked(writes) =>
        if s.sessionLock.Some? then None
        else Some(s.(turns := s.turns[id := TurnHolding(writes)], sessionLock := Some(TurnCall(id))))
      case TurnHolding(writes) =>
        if s.session.None? then Some(s.(turns := s.turns[id := NotOpen], sessionLock := None))
        else
          var open := HandleOf(s.session.value);
          Some(s.(turns := s.turns[id := if writes then Queued(open) else Running(false, open)], sessionLock := None))
      case Queued(open) =>
        if s.writeLock.Some? then None
        else Some(s.(turns := s.turns[id := Running(true, open)], writeLock := Some(id)))
      case Running(writes, open) =>
        if writes then Some(s.(turns := s.turns[id := Wrote(open)], writeLock := None))
        else Some(s.(turns := s.turns[id := Read(open)]))
      case Read(open) =>
        if s.sessionLock.Some? then None
        else Some(s.(turns := s.turns[id := Checking(open)], sessionLock := Some(TurnCall(id))))
      case Checking(open) =>
        var still := s.session.Some? && s.session.value.ticket == open.ticket;
        Some(s.(turns := s.turns[id := if still then Delivered(open) else Replaced(open)], sessionLock := None))
      case _ => None
  }

  function AskStep(s: State, id: nat): Option<State> {
    if id !in s.asks then None
    else
      match s.asks[id]
      case AskAsked(ask) =>
        if s.sessionLock.Some? then None
        else Some(s.(asks := s.asks[id := AskHolding(ask)], sessionLock := Some(AskCall(id))))
      case AskHolding(ask) =>
        var done := s.(asks := s.asks[id := Asked], sessionLock := None);
        if s.session.None? then Some(done)
        else if ask.Rows? then Some(done.(reached := s.reached + Handed(s.session.value.walk, ask.token)))
        else
          var session := Restarted(s.session.value, ask, s.nextToken);
          Some(done.(session := Some(session), nextToken := s.nextToken + 1, walks := s.walks + [session.walk]))
      case Asked => None
  }

  function Step(s: State, e: Event): Option<State> {
    match e
    case ArriveOpen(id, order) => if id in s.opens then None else Some(s.(opens := s.opens[id := OpenAsked(order)]))
    case ArriveClose(id) => if id in s.closes then None else Some(s.(closes := s.closes[id := CloseAsked]))
    case ArriveTurn(id, writes) => if id in s.turns then None else Some(s.(turns := s.turns[id := TurnAsked(writes)]))
    case ArriveAsk(id, ask) => if id in s.asks then None else Some(s.(asks := s.asks[id := AskAsked(ask)]))
    case Open(id, read) => OpenStep(s, id, read)
    case Close(id) => CloseStep(s, id)
    case Turn(id) => TurnStep(s, id)
    case Ask(id) => AskStep(s, id)
    case TakeToken => Some(s.(nextToken := s.nextToken + 1))
  }

  // --- What every reachable state satisfies ----------------------------------

  /** Each lock is held by the one call that is in its section. */
  ghost predicate SessionLock(lock: Option<Caller>, opens: map<nat, Opening>, closes: map<nat, Closing>,
                              turns: map<nat, Turn>, asks: map<nat, Asking>) {
    && (forall t | t in opens :: opens[t].HoldsSession() <==> lock == Some(OpenCall(t)))
    && (forall t | t in closes :: closes[t].HoldsSession() <==> lock == Some(CloseCall(t)))
    && (forall t | t in turns :: turns[t].HoldsSession() <==> lock == Some(TurnCall(t)))
    && (forall t | t in asks :: asks[t].HoldsSession() <==> lock == Some(AskCall(t)))
    && (lock.Some? ==>
          match lock.value
          case OpenCall(id) => id in opens
          case CloseCall(id) => id in closes
          case TurnCall(id) => id in turns
          case AskCall(id) => id in asks)
  }

  ghost predicate WriteLock(lock: Option<nat>, turns: map<nat, Turn>) {
    && (forall t | t in turns :: turns[t].Writing() <==> lock == Some(t))
    && (lock.Some? ==> lock.value in turns)
  }

  /** The ticket a call has taken, or 0. */
  function OpenTicket(o: Opening): nat { if o.OpenAsked? then 0 else o.ticket }

  function CloseTicket(c: Closing): nat { if c.Ticketed? || c.Closed? then c.ticket else 0 }

  /** Tickets are never shared, and none is later than the latest. */
  ghost predicate Tickets(latest: nat, opens: map<nat, Opening>, closes: map<nat, Closing>) {
    && (forall t | t in opens :: OpenTicket(opens[t]) <= latest && (OpenTicket(opens[t]) == 0 ==> opens[t].OpenAsked?))
    && (forall t | t in closes :: CloseTicket(closes[t]) <= latest)
    && (forall t, u | t in opens && u in opens && t != u && OpenTicket(opens[t]) == OpenTicket(opens[u]) ::
          OpenTicket(opens[t]) == 0)
    && (forall t, u | t in opens && u in closes && OpenTicket(opens[t]) == CloseTicket(closes[u]) ::
          OpenTicket(opens[t]) == 0)
  }

  ghost predicate Increasing(ns: seq<nat>) {
    forall i, j | 0 <= i < j < |ns| :: ns[i] < ns[j]
  }

  ghost predicate Installs(latest: nat, session: Option<Session>, installs: seq<nat>) {
    && Increasing(installs)
    && (forall i | 0 <= i < |installs| :: installs[i] <= latest)
    && (session.Some? ==> |installs| > 0 && installs[|installs| - 1] == session.value.ticket)
  }

  /** What an open may still install is new, and is newest once its check has passed. */
  ghost predicate Undecided(installs: seq<nat>, opens: map<nat, Opening>) {
    && (forall t | t in opens && opens[t].Undecided() :: opens[t].ticket !in installs)
    && (forall t, n | t in opens && opens[t].Passed? && n in installs :: n < opens[t].ticket)
  }

  /** A call about to act under the lock holds a later ticket than every call that has acted. */
  ghost predicate Decisions(opens: map<nat, Opening>, closes: map<nat, Closing>) {
    && (forall t, u | t in opens && u in opens && opens[t].Opened? && opens[u].Passed? ::
          opens[t].ticket < opens[u].ticket)
    && (forall t, u | t in closes && u in opens && closes[t].Closed? && opens[u].Passed? ::
          closes[t].ticket < opens[u].ticket)
    && (forall t, u | t in opens && u in closes && opens[t].Opened? && closes[u].Ticketed? ::
          opens[t].ticket < closes[u].ticket)
  }

  /** The session is what the request with the latest ticket left, once that request succeeded. */
  ghost predicate Latest(latest: nat, session: Option<Session>, opens: map<nat, Opening>, closes: map<nat, Closing>) {
    && (forall t | t in opens && opens[t].Opened? && opens[t].ticket == latest ::
          session.Some? && session.value.ticket == latest && session.value.path == opens[t].walk.path)
    && (forall t | t in closes && closes[t].Closed? && closes[t].ticket == latest :: session.None?)
  }

  ghost predicate Walks(nextToken: nat, walks: seq<Walk>) {
    && (forall w | w in walks :: w.token < nextToken)
    && (forall i, j | 0 <= i < j < |walks| :: walks[i].token != walks[j].token)
  }

  ghost predicate Requests(walks: seq<Walk>, reached: seq<Reached>) {
    forall r | r in reached :: r.walk in walks && r.walk.token == r.asked
  }

  ghost predicate Pending(walks: seq<Walk>, opens: map<nat, Opening>) {
    && (forall t | t in opens && opens[t].WalkPending() ::
          opens[t].walk in walks && opens[t].walk.view == View([], [], opens[t].walk.view.order))
    && (forall t, u | t in opens && u in opens && t != u && opens[t].WalkPending() && opens[u].WalkPending() ::
          opens[t].walk.token != opens[u].walk.token)
  }

  ghost predicate Shown(walks: seq<Walk>, session: Option<Session>) {
    session.Some? ==>
      && session.value.walk in walks
      && session.value.walk.path == session.value.path
      && session.value.walk.view == session.value.view == Fold(session.value.opening, session.value.chosen)
  }

  /** No open still holds the walk that the session shows. */
  ghost predicate Apart(session: Option<Session>, opens: map<nat, Opening>) {
    session.Some? ==>
      forall t | t in opens && opens[t].WalkPending() :: opens[t].walk.token != session.value.walk.token
  }

  /** A handle is of a session that was installed, and of the open one when their tickets agree. */
  ghost predicate Handles(session: Option<Session>, installs: seq<nat>, turns: map<nat, Turn>) {
    forall t | t in turns && turns[t].HasHandle() ::
      && turns[t].open.ticket in installs
      && (session.Some? && session.value.ticket == turns[t].open.ticket ==> session.value.path == turns[t].open.path)
  }

  ghost predicate Inv(s: State) {
    && SessionLock(s.sessionLock, s.opens, s.closes, s.turns, s.asks)
    && WriteLock(s.writeLock, s.turns)
    && Tickets(s.latest, s.opens, s.closes)
    && Installs(s.latest, s.session, s.installs)
    && Undecided(s.installs, s.opens)
    && Decisions(s.opens, s.closes)
    && Latest(s.latest, s.session, s.opens, s.closes)
    && Walks(s.nextToken, s.walks)
    && Requests(s.walks, s.reached)
    && Pending(s.walks, s.opens)
    && Shown(s.walks, s.session)
    && Apart(s.session, s.opens)
    && Handles(s.session, s.installs, s.turns)
  }

  // --- Every action keeps them -----------------------------------------------

  lemma TicketTaken(s: State)
    requires Inv(s)
    ensures Tickets(s.latest + 1, s.opens, s.closes)
    ensures Installs(s.latest + 1, s.session, s.installs)
    ensures Latest(s.latest + 1, s.session, s.opens, s.closes)
    ensures s.latest + 1 !in s.installs
  {
  }

  lemma TokenTaken(s: State, w: Walk)
    requires Inv(s) && w.token == s.nextToken
    ensures Walks(s.nextToken + 1, s.walks) && Walks(s.nextToken + 1, s.walks + [w])
    ensures Requests(s.walks + [w], s.reached) && Pending(s.walks + [w], s.opens) && Shown(s.walks + [w], s.session)
    ensures forall t | t in s.opens && s.opens[t].WalkPending() :: s.opens[t].walk.token < s.nextToken
    ensures s.session.Some? ==> s.session.value.walk.token < s.nextToken
  {
  }

  /** An open goes on with a new ticket, or with the one it has. */
  lemma OpenTicketed(latest: nat, opens: map<nat, Opening>, closes: map<nat, Closing>, id: nat, o: Opening, latest': nat)
    requires Tickets(latest, opens, closes) && latest <= latest' && !o.OpenAsked?
    requires o.ticket == latest' > latest || (id in opens && o.ticket == OpenTicket(opens[id]) > 0)
    ensures Tickets(latest', opens[id := o], closes)
  {
  }

  /** An open that installs nothing goes from one stage to the next. */
  lemma OpenMoved(latest: nat, session: Option<Session>, installs: seq<nat>, walks: seq<Walk>,
                  opens: map<nat, Opening>, closes: map<nat, Closing>, id: nat, o: Opening)
    requires Undecided(installs, opens) && Decisions(opens, closes) && Latest(latest, session, opens, closes)
    requires Pending(walks, opens) && Apart(session, opens) && !o.Opened?
    requires o.Undecided() ==> o.ticket !in installs
    requires o.Passed? ==>
      && (forall n | n in installs :: n < o.ticket)
      && (forall t | t in opens && opens[t].Opened? :: opens[t].ticket < o.ticket)
      && (forall t | t in closes && closes[t].Closed? :: closes[t].ticket < o.ticket)
    requires o.WalkPending() ==>
      && o.walk in walks && o.walk.view == View([], [], o.walk.view.order)
      && (forall t | t in opens && t != id && opens[t].WalkPending() :: opens[t].walk.token != o.walk.token)
      && (session.Some? ==> o.walk.token != session.value.walk.token)
    ensures Undecided(installs, opens[id := o]) && Decisions(opens[id := o], closes)
    ensures Latest(latest, session, opens[id := o], closes)
    ensures Pending(walks, opens[id := o]) && Apart(session, opens[id := o])
  {
  }

  lemma OpenLocked(lock: Option<Caller>, opens: map<nat, Opening>, closes: map<nat, Closing>,
                   turns: map<nat, Turn>, asks: map<nat, Asking>, id: nat, o: Opening, lock': Option<Caller>)
    requires SessionLock(lock, opens, closes, turns, asks) && id in opens
    requires lock == lock' || lock == Some(OpenCall(id)) || (lock.None? && lock' == Some(OpenCall(id)))
    requires o.HoldsSession() <==> lock' == Some(OpenCall(id))
    requires lock'.Some? && !o.HoldsSession() ==> lock == lock'
    ensures SessionLock(lock', opens[id := o], closes, turns, asks)
  {
  }

  lemma OpenAsks(s: State, id: nat, read: Option<string>, s': State)
    requires Inv(s) && OpenStep(s, id, read) == Some(s') && s.opens[id].OpenAsked?
    ensures Inv(s')
  {
    var o := s'.opens[id];
    TicketTaken(s);
    OpenLocked(s.sessionLock, s.opens, s.closes, s.turns, s.asks, id, o, s'.sessionLock);
    OpenTicketed(s.latest, s.opens, s.closes, id, o, s'.latest);
    OpenMoved(s'.latest, s.session, s.installs, s'.walks, s.opens, s.closes, id, o);
  }

  lemma OpenReads(s: State, id: nat, read: Option<string>, s': State)
    requires Inv(s) && OpenStep(s, id, read) == Some(s') && s.opens[id].Reading?
    ensures Inv(s')
  {
    var o := s'.opens[id];
    if read.Some? { TokenTaken(s, o.walk); }
    OpenLocked(s.sessionLock, s.opens, s.closes, s.turns, s.asks, id, o, s'.sessionLock);
    OpenTicketed(s.latest, s.opens, s.closes, id, o, s'.latest);
    OpenMoved(s'.latest, s.session, s.installs, s'.walks, s.opens, s.closes, id, o);
  }

  lemma OpenWaits(s: State, id: nat, read: Option<string>, s': State)
    requires Inv(s) && OpenStep(s, id, read) == Some(s') && s.opens[id].Spawned?
    ensures Inv(s')
  {
    var o := s'.opens[id];
    OpenLocked(s.sessionLock, s.opens, s.closes, s.turns, s.asks, id, o, s'.sessionLock);
    OpenTicketed(s.latest, s.opens, s.closes, id, o, s'.latest);
    OpenMoved(s'.latest, s.session, s.installs, s'.walks, s.opens, s.closes, id, o);
  }

  /** The ticket that is still the latest under the lock is later than every one decided. */
  lemma CheckPasses(s: State, id: nat)
    requires Inv(s) && id in s.opens && s.opens[id].OpenHolding? && s.opens[id].ticket == s.latest
    ensures forall n | n in s.installs :: n < s.latest
    ensures forall t | t in s.opens && s.opens[t].Opened? :: s.opens[t].ticket < s.latest
    ensures forall t | t in s.closes && s.closes[t].Closed? :: s.closes[t].ticket < s.latest
  {
    forall t | t in s.opens && s.opens[t].Opened? ensures s.opens[t].ticket < s.latest {
      assert OpenTicket(s.opens[t]) != OpenTicket(s.opens[id]);
    }
    forall t | t in s.closes && s.closes[t].Closed? ensures s.closes[t].ticket < s.latest {
      assert CloseTicket(s.closes[t]) != OpenTicket(s.opens[id]);
    }
  }

  lemma OpenSupersedes(s: State, id: nat, o: Opening)
    requires Inv(s) && id in s.opens && s.opens[id].OpenHolding? && o == Superseded(s.opens[id].ticket)
    ensures Inv(s.(opens := s.opens[id := o], sessionLock := None))
  {
    OpenLocked(s.sessionLock, s.opens, s.closes, s.turns, s.asks, id, o, None);
    OpenTicketed(s.latest, s.opens, s.closes, id, o, s.latest);
    OpenMoved(s.latest, s.session, s.installs, s.walks, s.opens, s.closes, id, o);
  }

  lemma OpenPasses(s: State, id: nat, o: Opening)
    requires Inv(s) && id in s.opens && s.opens[id].OpenHolding? && s.opens[id].ticket == s.latest
    requires o == Passed(s.opens[id].ticket, s.opens[id].walk)
    ensures Inv(s.(opens := s.opens[id := o]))
  {
    OpenLocked(s.sessionLock, s.opens, s.closes, s.turns, s.asks, id, o, s.sessionLock);
    OpenTicketed(s.latest, s.opens, s.closes, id, o, s.latest);
    CheckPasses(s, id);
    OpenMoved(s.latest, s.session, s.installs, s.walks, s.opens, s.closes, id, o);
  }

  lemma OpenChecks(s: State, id: nat, read: Option<string>, s': State)
    requires Inv(s) && OpenStep(s, id, read) == Some(s') && s.opens[id].OpenHolding?
    ensures Inv(s')
  {
    if s.latest != s.opens[id].ticket {
      OpenSupersedes(s, id, s'.opens[id]);
    } else {
      OpenPasses(s, id, s'.opens[id]);
    }
  }

  /** What the lock rules out while an open installs its session. */
  lemma AloneToInstall(s: State, id: nat)
    requires Inv(s) && id in s.opens && s.opens[id].Passed?
    ensures forall t | t in s.opens && t != id :: !s.opens[t].Passed?
    ensures forall t | t in s.closes :: !s.closes[t].Ticketed?
    ensures forall t | t in s.closes && s.closes[t].Closed? :: s.closes[t].ticket < s.latest
    ensures forall t | t in s.opens && s.opens[t].Opened? :: s.opens[t].ticket < s.latest
    ensures forall t | t in s.opens && s.opens[t].Undecided() && t != id :: s.opens[t].ticket != s.opens[id].ticket
    ensures forall n | n in s.installs :: n < s.opens[id].ticket
  {
    forall t | t in s.opens && s.opens[t].Undecided() && t != id
      ensures s.opens[t].ticket != s.opens[id].ticket
    {
      assert OpenTicket(s.opens[t]) != OpenTicket(s.opens[id]);
    }
  }

  lemma NewestInstalled(latest: nat, installs: seq<nat>, ticket: nat, walk: Walk)
    requires Installs(latest, None, installs) && ticket <= latest && forall n | n in installs :: n < ticket
    ensures Installs(latest, Some(Installed(ticket, walk)), installs + [ticket])
  {
    forall i | 0 <= i < |installs| ensures installs[i] < ticket {
      assert installs[i] in installs;
    }
  }

  lemma InstallDecides(s: State, id: nat, o: Opening)
    requires Inv(s) && id in s.opens && s.opens[id].Passed? && o == Opened(s.opens[id].ticket, s.opens[id].walk)
    ensures Undecided(s.installs + [o.ticket], s.opens[id := o])
    ensures Decisions(s.opens[id := o], s.closes)
    ensures Latest(s.latest, Some(Installed(o.ticket, o.walk)), s.opens[id := o], s.closes)
  {
    AloneToInstall(s, id);
  }

  lemma OpenInstalls(s: State, id: nat, read: Option<string>, s': State)
    requires Inv(s) && OpenStep(s, id, read) == Some(s') && s.opens[id].Passed?
    ensures Inv(s')
  {
    var o := s'.opens[id];
    OpenLocked(s.sessionLock, s.opens, s.closes, s.turns, s.asks, id, o, s'.sessionLock);
    OpenTicketed(s.latest, s.opens, s.closes, id, o, s'.latest);
    AloneToInstall(s, id);
    assert OpenTicket(s.opens[id]) <= s.latest;
    NewestInstalled(s.latest, s.installs, o.ticket, o.walk);
    InstallDecides(s, id, o);
  }

  lemma CloseLocked(lock: Option<Caller>, opens: map<nat, Opening>, closes: map<nat, Closing>,
                    turns: map<nat, Turn>, asks: map<nat, Asking>, id: nat, c: Closing, lock': Option<Caller>)
    requires SessionLock(lock, opens, closes, turns, asks) && id in closes
    requires lock == lock' || lock == Some(CloseCall(id)) || (lock.None? && lock' == Some(CloseCall(id)))
    requires c.HoldsSession() <==> lock' == Some(CloseCall(id))
    requires lock'.Some? && !c.HoldsSession() ==> lock == lock'
    ensures SessionLock(lock', opens, closes[id := c], turns, asks)
  {
  }

  lemma CloseWaits(s: State, id: nat, s': State)
    requires Inv(s) && CloseStep(s, id) == Some(s') && s.closes[id].CloseAsked?
    ensures Inv(s')
  {
    CloseLocked(s.sessionLock, s.opens, s.closes, s.turns, s.asks, id, CloseHolding, s'.sessionLock);
    CloseHasNoTicket(s.latest, s.session, s.opens, s.closes, id);
  }

  lemma CloseHasNoTicket(latest: nat, session: Option<Session>, opens: map<nat, Opening>, closes: map<nat, Closing>, id: nat)
    requires Tickets(latest, opens, closes) && Decisions(opens, closes) && Latest(latest, session, opens, closes)
    requires id in closes && closes[id].CloseAsked?
    ensures Tickets(latest, opens, closes[id := CloseHolding]) && Decisions(opens, closes[id := CloseHolding])
    ensures Latest(latest, session, opens, closes[id := CloseHolding])
  {
  }

  lemma CloseTickets(s: State, id: nat, s': State)
    requires Inv(s) && CloseStep(s, id) == Some(s') && s.closes[id].CloseHolding?
    ensures Inv(s')
  {
    CloseTicketed(s, id);
  }

  lemma CloseTicketed(s: State, id: nat)
    requires Inv(s) && id in s.closes && s.closes[id].CloseHolding?
    ensures Inv(s.(closes := s.closes[id := Ticketed(s.latest + 1)], latest := s.latest + 1))
  {
    CloseLocked(s.sessionLock, s.opens, s.closes, s.turns, s.asks, id, Ticketed(s.latest + 1), s.sessionLock);
    CloseDecides(s, id);
    LaterIsInstalled(s.latest, s.session, s.installs);
  }

  lemma LaterIsInstalled(latest: nat, session: Option<Session>, installs: seq<nat>)
    requires Installs(latest, session, installs)
    ensures Installs(latest + 1, session, installs)
  {
  }

  lemma CloseTakesTicket(latest: nat, opens: map<nat, Opening>, closes: map<nat, Closing>, id: nat)
    requires Tickets(latest, opens, closes) && id in closes
    ensures Tickets(latest + 1, opens, closes[id := Ticketed(latest + 1)])
  {
  }

  lemma CloseComesLast(latest: nat, opens: map<nat, Opening>, closes: map<nat, Closing>, id: nat)
    requires Tickets(latest, opens, closes) && Decisions(opens, closes) && id in closes
    ensures Decisions(opens, closes[id := Ticketed(latest + 1)])
  {
    forall t | t in opens && opens[t].Opened? ensures opens[t].ticket <= latest {
      assert OpenTicket(opens[t]) <= latest;
    }
  }

  /** The ticket a close takes under the lock is later than every one decided. */
  lemma CloseDecides(s: State, id: nat)
    requires Inv(s) && id in s.closes && s.closes[id].CloseHolding?
    ensures Tickets(s.latest + 1, s.opens, s.closes[id := Ticketed(s.latest + 1)])
    ensures Decisions(s.opens, s.closes[id := Ticketed(s.latest + 1)])
    ensures Latest(s.latest + 1, s.session, s.opens, s.closes[id := Ticketed(s.latest + 1)])
  {
    CloseTakesTicket(s.latest, s.opens, s.closes, id);
    CloseComesLast(s.latest, s.opens, s.closes, id);
    TicketTaken(s);
  }

  /** What the lock rules out while a close clears the session. */
  lemma AloneToClear(s: State, id: nat)
    requires Inv(s) && id in s.closes && s.closes[id].Ticketed?
    ensures forall t | t in s.opens :: !s.opens[t].Passed?
    ensures forall t | t in s.opens && s.opens[t].Opened? :: s.opens[t].ticket < s.latest
  {
    assert CloseTicket(s.closes[id]) <= s.latest;
  }

  lemma CloseClears(s: State, id: nat, s': State)
    requires Inv(s) && CloseStep(s, id) == Some(s') && s.closes[id].Ticketed?
    ensures Inv(s')
  {
    CloseLocked(s.sessionLock, s.opens, s.closes, s.turns, s.asks, id, s'.closes[id], s'.sessionLock);
    AloneToClear(s, id);
    ClearedIsDecided(s.latest, s.opens, s.closes, id);
    assert Latest(s.latest, s'.session, s.opens, s'.closes);
  }

  lemma ClearedIsDecided(latest: nat, opens: map<nat, Opening>, closes: map<nat, Closing>, id: nat)
    requires Tickets(latest, opens, closes) && Decisions(opens, closes)
    requires id in closes && closes[id].Ticketed? && forall t | t in opens :: !opens[t].Passed?
    ensures Tickets(latest, opens, closes[id := Closed(closes[id].ticket)])
    ensures Decisions(opens, closes[id := Closed(closes[id].ticket)])
  {
  }

  lemma TurnLocked(lock: Option<Caller>, opens: map<nat, Opening>, closes: map<nat, Closing>,
                   turns: map<nat, Turn>, asks: map<nat, Asking>, id: nat, t: Turn, lock': Option<Caller>)
    requires SessionLock(lock, opens, closes, turns, asks) && id in turns
    requires lock == lock' || lock == Some(TurnCall(id)) || (lock.None? && lock' == Some(TurnCall(id)))
    requires t.HoldsSession() <==> lock' == Some(TurnCall(id))
    requires lock'.Some? && !t.HoldsSession() ==> lock == lock'
    ensures SessionLock(lock', opens, closes, turns[id := t], asks)
  {
  }

  lemma TurnFrame(s: State, id: nat, s': State)
    requires TurnStep(s, id) == Some(s')
    ensures id in s.turns && id in s'.turns && s'.turns == s.turns[id := s'.turns[id]]
    ensures s'.latest == s.latest && s'.nextToken == s.nextToken && s'.session == s.session
    ensures s'.opens == s.opens && s'.closes == s.closes && s'.asks == s.asks
    ensures s'.installs == s.installs && s'.walks == s.walks && s'.reached == s.reached
  {
  }

  lemma TurnMoved(session: Option<Session>, installs: seq<nat>, lock: Option<nat>, turns: map<nat, Turn>,
                  id: nat, t: Turn, lock': Option<nat>)
    requires Handles(session, installs, turns) && WriteLock(lock, turns) && id in turns
    requires lock == lock' || lock == Some(id) || (lock.None? && lock' == Some(id))
    requires t.Writing() <==> lock' == Some(id)
    requires lock'.Some? && !t.Writing() ==> lock == lock'
    requires t.HasHandle() ==>
      || (turns[id].HasHandle() && t.open == turns[id].open)
      || (session.Some? && t.open == HandleOf(session.value) && session.value.ticket in installs)
    ensures Handles(session, installs, turns[id := t]) && WriteLock(lock', turns[id := t])
  {
  }

  lemma TurnLocks(s: State, id: nat, s': State)
    requires SessionLock(s.sessionLock, s.opens, s.closes, s.turns, s.asks) && TurnStep(s, id) == Some(s')
    ensures SessionLock(s'.sessionLock, s.opens, s.closes, s'.turns, s.asks)
  {
    TurnFrame(s, id, s');
    TurnLocked(s.sessionLock, s.opens, s.closes, s.turns, s.asks, id, s'.turns[id], s'.sessionLock);
  }

  lemma TurnHandles(s: State, id: nat, s': State)
    requires Handles(s.session, s.installs, s.turns) && WriteLock(s.writeLock, s.turns)
    requires s.session.Some? ==> s.session.value.ticket in s.installs
    requires TurnStep(s, id) == Some(s')
    ensures Handles(s.session, s.installs, s'.turns) && WriteLock(s'.writeLock, s'.turns)
  {
    TurnFrame(s, id, s');
    TurnMoved(s.session, s.installs, s.writeLock, s.turns, id, s'.turns[id], s'.writeLock);
  }

  lemma TurnKeeps(s: State, id: nat, s': State)
    requires Inv(s) && TurnStep(s, id) == Some(s')
    ensures Inv(s')
  {
    TurnFrame(s, id, s');
    TurnLocks(s, id, s');
    assert s.session.Some? ==> s.session.value.ticket in s.installs;
    TurnHandles(s, id, s');
  }

  lemma AskLocked(lock: Option<Caller>, opens: map<nat, Opening>, closes: map<nat, Closing>,
                  turns: map<nat, Turn>, asks: map<nat, Asking>, id: nat, a: Asking, lock': Option<Caller>)
    requires SessionLock(lock, opens, closes, turns, asks) && id in asks
    requires lock == lock' || lock == Some(AskCall(id)) || (lock.None? && lock' == Some(AskCall(id)))
    requires a.HoldsSession() <==> lock' == Some(AskCall(id))
    requires lock'.Some? && !a.HoldsSession() ==> lock == lock'
    ensures SessionLock(lock', opens, closes, turns, asks[id := a])
  {
  }

  lemma RestartShows(session: Session, ask: Ask, token: nat, walks: seq<Walk>)
    requires Shown(walks, Some(session))
    ensures Shown(walks + [Restarted(session, ask, token).walk], Some(Restarted(session, ask, token)))
  {
    if ask.Choose? {
      assert (session.chosen + [ask.choice])[..|session.chosen|] == session.chosen;
    }
  }

  lemma WalkRestarts(s: State, ask: Ask)
    requires Inv(s) && s.session.Some?
    ensures Latest(s.latest, Some(Restarted(s.session.value, ask, s.nextToken)), s.opens, s.closes)
    ensures Installs(s.latest, Some(Restarted(s.session.value, ask, s.nextToken)), s.installs)
    ensures Apart(Some(Restarted(s.session.value, ask, s.nextToken)), s.opens)
    ensures Handles(Some(Restarted(s.session.value, ask, s.nextToken)), s.installs, s.turns)
  {
    TokenTaken(s, Restarted(s.session.value, ask, s.nextToken).walk);
  }

  lemma AskRestarts(s: State, id: nat, s': State)
    requires Inv(s) && AskStep(s, id) == Some(s')
    requires s.asks[id].AskHolding? && s.session.Some? && !s.asks[id].ask.Rows?
    ensures Inv(s')
  {
    AskLocked(s.sessionLock, s.opens, s.closes, s.turns, s.asks, id, Asked, None);
    var session := Restarted(s.session.value, s.asks[id].ask, s.nextToken);
    TokenTaken(s, session.walk);
    RestartShows(s.session.value, s.asks[id].ask, s.nextToken, s.walks);
    WalkRestarts(s, s.asks[id].ask);
  }

  lemma AskWaits(s: State, id: nat, s': State)
    requires Inv(s) && AskStep(s, id) == Some(s') && s.asks[id].AskAsked?
    ensures Inv(s')
  {
    AskLocked(s.sessionLock, s.opens, s.closes, s.turns, s.asks, id, s'.asks[id], s'.sessionLock);
  }

  lemma RequestHanded(walks: seq<Walk>, session: Session, reached: seq<Reached>, token: nat)
    requires Requests(walks, reached) && Shown(walks, Some(session))
    ensures Requests(walks, reached + Handed(session.walk, token))
  {
  }

  lemma AskHands(s: State, id: nat, s': State)
    requires Inv(s) && AskStep(s, id) == Some(s')
    requires s.asks[id].AskHolding? && (s.session.Some? ==> s.asks[id].ask.Rows?)
    ensures Inv(s')
  {
    AskLocked(s.sessionLock, s.opens, s.closes, s.turns, s.asks, id, Asked, None);
    if s.session.Some? {
      RequestHanded(s.walks, s.session.value, s.reached, s.asks[id].ask.token);
    }
  }

  lemma OpenArrives(s: State, id: nat, order: Order)
    requires Inv(s) && id !in s.opens
    ensures Inv(s.(opens := s.opens[id := OpenAsked(order)]))
  {
    var opens := s.opens[id := OpenAsked(order)];
    assert SessionLock(s.sessionLock, opens, s.closes, s.turns, s.asks);
    assert Tickets(s.latest, opens, s.closes);
    OpenMoved(s.latest, s.session, s.installs, s.walks, s.opens, s.closes, id, OpenAsked(order));
  }

  lemma CloseArrives(s: State, id: nat)
    requires Inv(s) && id !in s.closes
    ensures Inv(s.(closes := s.closes[id := CloseAsked]))
  {
    var closes := s.closes[id := CloseAsked];
    assert SessionLock(s.sessionLock, s.opens, closes, s.turns, s.asks);
    CloseIsNew(s.latest, s.session, s.opens, s.closes, id);
  }

  lemma CloseIsNew(latest: nat, session: Option<Session>, opens: map<nat, Opening>, closes: map<nat, Closing>, id: nat)
    requires Tickets(latest, opens, closes) && Decisions(opens, closes) && Latest(latest, session, opens, closes)
    requires id !in closes
    ensures Tickets(latest, opens, closes[id := CloseAsked]) && Decisions(opens, closes[id := CloseAsked])
    ensures Latest(latest, session, opens, closes[id := CloseAsked])
  {
  }

  lemma TurnArrives(s: State, id: nat, writes: bool)
    requires Inv(s) && id !in s.turns
    ensures Inv(s.(turns := s.turns[id := TurnAsked(writes)]))
  {
    var turns := s.turns[id := TurnAsked(writes)];
    assert SessionLock(s.sessionLock, s.opens, s.closes, turns, s.asks);
    assert WriteLock(s.writeLock, turns);
    assert Handles(s.session, s.installs, turns);
  }

  lemma AskArrives(s: State, id: nat, ask: Ask)
    requires Inv(s) && id !in s.asks
    ensures Inv(s.(asks := s.asks[id := AskAsked(ask)]))
  {
    assert SessionLock(s.sessionLock, s.opens, s.closes, s.turns, s.asks[id := AskAsked(ask)]);
  }

  lemma StepKeeps(s: State, e: Event, s': State)
    requires Inv(s) && Step(s, e) == Some(s')
    ensures Inv(s')
  {
    match e
    case Open(id, read) =>
      match s.opens[id] {
        case OpenAsked(_) => OpenAsks(s, id, read, s');
        case Reading(_, _) => OpenReads(s, id, read, s');
        case Spawned(_, _) => OpenWaits(s, id, read, s');
        case OpenHolding(_, _) => OpenChecks(s, id, read, s');
        case Passed(_, _) => OpenInstalls(s, id, read, s');
      }
    case Close(id) =>
      match s.closes[id] {
        case CloseAsked => CloseWaits(s, id, s');
        case CloseHolding => CloseTickets(s, id, s');
        case Ticketed(_) => CloseClears(s, id, s');
      }
    case Turn(id) => TurnKeeps(s, id, s');
    case Ask(id) =>
      if s.asks[id].AskAsked? {
        AskWaits(s, id, s');
      } else if s.session.None? || s.asks[id].ask.Rows? {
        AskHands(s, id, s');
      } else {
        AskRestarts(s, id, s');
      }
    case ArriveOpen(id, order) => OpenArrives(s, id, order);
    case ArriveClose(id) => CloseArrives(s, id);
    case ArriveTurn(id, writes) => TurnArrives(s, id, writes);
    case ArriveAsk(id, ask) => AskArrives(s, id, ask);
    case TakeToken =>
  }

  // --- What one action can change --------------------------------------------

  ghost predicate OpensAfter(s: State, s': State) {
    forall t | t in s.opens && !s.opens[t].OpenAsked? ::
      && t in s'.opens && !s'.opens[t].OpenAsked? && s'.opens[t].ticket == s.opens[t].ticket
      && (s'.opens[t].Opened? ==> s.opens[t].Opened? || s.opens[t].Passed?)
      && (s'.opens[t].Passed? ==> s.opens[t].Passed? || s.opens[t].ticket == s.latest)
  }

  ghost predicate PendingAfter(s: State, s': State) {
    forall t | t in s'.opens && s'.opens[t].WalkPending() ::
      || s'.opens[t].walk.token >= s.nextToken
      || (t in s.opens && s.opens[t].WalkPending() && s.opens[t].walk == s'.opens[t].walk)
  }

  ghost predicate ClosesAfter(s: State, s': State) {
    forall t | t in s.closes && CloseTicket(s.closes[t]) > 0 ::
      t in s'.closes && CloseTicket(s'.closes[t]) == CloseTicket(s.closes[t])
  }

  ghost predicate TurnsAfter(s: State, s': State) {
    forall t | t in s.turns && s.turns[t].HasHandle() ::
      && t in s'.turns && s'.turns[t].HasHandle() && s'.turns[t].open == s.turns[t].open
      && (s'.turns[t].Delivered? ==> s.turns[t].Delivered? || HasTicket(s.session, s.turns[t].open.ticket))
  }

  ghost predicate SessionAfter(s: State, s': State) {
    s'.session.Some? ==>
      var session := s'.session.value;
      || (&& s.session.Some? && HandleOf(s.session.value) == HandleOf(session)
          && (session.walk == s.session.value.walk || session.walk.token >= s.nextToken))
      || (&& session.ticket !in s.installs
          && exists t | t in s.opens :: s.opens[t].Passed? && s.opens[t].walk == session.walk)
  }

  ghost predicate RequestsAfter(s: State, s': State) {
    && s.reached <= s'.reached
    && forall i | |s.reached| <= i < |s'.reached| ::
         s.session.Some? && s'.reached[i].asked == s.session.value.walk.token
  }

  predicate HasTicket(session: Option<Session>, ticket: nat) {
    session.Some? && session.value.ticket == ticket
  }

  ghost predicate Effect(s: State, s': State) {
    && s.latest <= s'.latest && s.nextToken <= s'.nextToken && s.installs <= s'.installs
    && OpensAfter(s, s') && PendingAfter(s, s') && ClosesAfter(s, s') && TurnsAfter(s, s')
    && SessionAfter(s, s') && RequestsAfter(s, s')
  }

  lemma OpenGoesOn(s: State, id: nat, read: Option<string>, s': State)
    requires OpenStep(s, id, read) == Some(s')
    ensures OpensAfter(s, s')
  {
  }

  lemma OpenHoldsWalk(s: State, id: nat, read: Option<string>, s': State)
    requires OpenStep(s, id, read) == Some(s')
    ensures PendingAfter(s, s')
  {
  }

  lemma OpenSession(s: State, id: nat, read: Option<string>, s': State)
    requires OpenStep(s, id, read) == Some(s')
    requires s.opens[id].Passed? ==> s.opens[id].ticket !in s.installs
    ensures SessionAfter(s, s')
    ensures s.latest <= s'.latest && s.nextToken <= s'.nextToken && s.installs <= s'.installs
    ensures s'.closes == s.closes && s'.turns == s.turns && s'.reached == s.reached
  {
  }

  lemma OpenEffect(s: State, id: nat, read: Option<string>, s': State)
    requires OpenStep(s, id, read) == Some(s')
    requires s.opens[id].Passed? ==> s.opens[id].ticket !in s.installs
    ensures Effect(s, s')
  {
    OpenGoesOn(s, id, read, s');
    OpenHoldsWalk(s, id, read, s');
    OpenSession(s, id, read, s');
  }

  lemma CloseEffect(s: State, id: nat, s': State)
    requires CloseStep(s, id) == Some(s')
    ensures Effect(s, s')
  {
    assert ClosesAfter(s, s');
  }

  lemma TurnEffect(s: State, id: nat, s': State)
    requires TurnStep(s, id) == Some(s')
    ensures Effect(s, s')
  {
    TurnFrame(s, id, s');
    assert TurnsAfter(s, s');
  }

  lemma AskEffect(s: State, id: nat, s': State)
    requires AskStep(s, id) == Some(s')
    ensures Effect(s, s')
  {
    assert SessionAfter(s, s');
    assert RequestsAfter(s, s');
  }

  lemma ArriveEffect(s: State, e: Event, s': State)
    requires Step(s, e) == Some(s') && !e.Open? && !e.Close? && !e.Turn? && !e.Ask?
    ensures Effect(s, s')
  {
  }

  lemma StepEffect(s: State, e: Event, s': State)
    requires Inv(s) && Step(s, e) == Some(s')
    ensures Effect(s, s')
  {
    match e
    case Open(id, read) => OpenEffect(s, id, read, s');
    case Close(id) => CloseEffect(s, id, s');
    case Turn(id) => TurnEffect(s, id, s');
    case Ask(id) => AskEffect(s, id, s');
    case _ => ArriveEffect(s, e, s');
  }

  // --- Whole runs ------------------------------------------------------------

  /** A run from the application's start: any interleaving of any calls. */
  ghost predicate Run(es: seq<Event>) {
    IsRun(Step, INITIAL, es)
  }

  /** The state `k` actions into a run. */
  ghost function At(es: seq<Event>, k: nat): State
    requires Run(es) && k <= |es|
  {
    Split(Step, INITIAL, es, k);
    After(Step, INITIAL, es[..k])
  }

  /** What holds after `k` actions, and is kept, holds after `n` actions. */
  lemma Onwards(es: seq<Event>, k: nat, n: nat, inv: State -> bool)
    requires Run(es) && k <= n <= |es| && Preserves(Step, inv) && inv(At(es, k))
    ensures inv(At(es, n))
  {
    Split(Step, INITIAL, es, n);
    Split(Step, INITIAL, es[..n], k);
    assert es[..n][..k] == es[..k];
    Always(Step, inv, At(es, k), es[..n][k..]);
  }

  lemma InvKept()
    ensures Preserves(Step, Inv)
  {
    forall s, e | Inv(s) && Step(s, e).Some? ensures Inv(Step(s, e).value) {
      StepKeeps(s, e, Step(s, e).value);
    }
  }

  lemma InvAt(es: seq<Event>, k: nat)
    requires Run(es) && k <= |es|
    ensures Inv(At(es, k))
  {
    InvKept();
    assert es[..0] == [];
    Onwards(es, 0, k, Inv);
  }

  predicate IsOpen(session: Option<Session>, open: Handle) {
    session.Some? && HandleOf(session.value) == open
  }

  /** The session `open` was taken from is over, and the read of it is not done. */
  ghost predicate Outlived(s: State, id: nat, open: Handle) {
    && Inv(s)
    && id in s.turns && s.turns[id].HasHandle() && s.turns[id].open == open && !s.turns[id].Delivered?
    && !IsOpen(s.session, open)
  }

  lemma OutlivedKept(s: State, s': State, id: nat, open: Handle)
    requires Outlived(s, id, open) && Effect(s, s') && Inv(s')
    ensures Outlived(s', id, open)
  {
    assert open.ticket in s.installs && !HasTicket(s.session, open.ticket);
  }

  /**
   * A read that is delivered saw one session for its whole run. At every
   * moment from the one it took its handle at to the one it was checked at,
   * that session was the open one: it was not even closed and opened again in
   * between, because no two sessions ever have the same ticket.
   */
  lemma ReadSawOneSession(es: seq<Event>, id: nat, k: nat)
    requires Run(es) && k <= |es|
    requires id in At(es, |es|).turns && At(es, |es|).turns[id].Delivered?
    requires id in At(es, k).turns && At(es, k).turns[id].HasHandle() && !At(es, k).turns[id].Delivered?
    ensures IsOpen(At(es, k).session, At(es, k).turns[id].open)
  {
    var open := At(es, k).turns[id].open;
    if !IsOpen(At(es, k).session, open) {
      InvAt(es, k);
      forall s, e | Outlived(s, id, open) && Step(s, e).Some? ensures Outlived(Step(s, e).value, id, open) {
        StepKeeps(s, e, Step(s, e).value);
        StepEffect(s, e, Step(s, e).value);
        OutlivedKept(s, Step(s, e).value, id, open);
      }
      Onwards(es, k, |es|, s => Outlived(s, id, open));
    }
  }

  lemma AtNext(es: seq<Event>, k: nat)
    requires Run(es) && k < |es|
    ensures Step(At(es, k), es[k]) == Some(At(es, k + 1))
  {
    Split(Step, INITIAL, es, k + 1);
    Split(Step, INITIAL, es[..k + 1], k);
    assert es[..k + 1][..k] == es[..k] && es[..k + 1][k..] == [es[k]];
  }

  /** Sessions are installed in the order of their tickets. */
  lemma InstalledInTicketOrder(es: seq<Event>)
    requires Run(es)
    ensures Increasing(At(es, |es|).installs)
  {
    InvAt(es, |es|);
  }

  /** `o` took its ticket before `c` did, and has installed nothing. */
  ghost predicate Overtaken(s: State, o: nat, c: nat) {
    && Inv(s)
    && o in s.opens && c in s.closes
    && !s.opens[o].OpenAsked? && !s.opens[o].Passed? && !s.opens[o].Opened?
    && s.opens[o].ticket < CloseTicket(s.closes[c])
  }

  lemma OvertakenKept(s: State, s': State, o: nat, c: nat)
    requires Overtaken(s, o, c) && Effect(s, s') && Inv(s')
    ensures Overtaken(s', o, c)
  {
    assert CloseTicket(s.closes[c]) <= s.latest;
  }

  /** An open overtaken by a close before it installed never installs. */
  lemma OvertakenNeverInstalls(es: seq<Event>, k: nat, o: nat, c: nat)
    requires Run(es) && k <= |es|
    requires o in At(es, k).opens && !At(es, k).opens[o].OpenAsked? && !At(es, k).opens[o].Opened?
    requires c in At(es, k).closes && At(es, k).opens[o].ticket < CloseTicket(At(es, k).closes[c])
    ensures o in At(es, |es|).opens && !At(es, |es|).opens[o].Opened?
  {
    InvAt(es, k);
    forall s, e | Overtaken(s, o, c) && Step(s, e).Some? ensures Overtaken(Step(s, e).value, o, c) {
      StepKeeps(s, e, Step(s, e).value);
      StepEffect(s, e, Step(s, e).value);
      OvertakenKept(s, Step(s, e).value, o, c);
    }
    Onwards(es, k, |es|, s => Overtaken(s, o, c));
  }

  /** Once the open with the latest ticket has succeeded, the session is the one it installed. */
  lemma LatestOpenDecides(es: seq<Event>, id: nat)
    requires Run(es) && id in At(es, |es|).opens && At(es, |es|).opens[id].Opened?
    requires At(es, |es|).opens[id].ticket == At(es, |es|).latest
    ensures IsOpen(At(es, |es|).session, Handle(At(es, |es|).opens[id].walk.path, At(es, |es|).latest))
  {
    InvAt(es, |es|);
  }

  /** Once the close with the latest ticket is done, nothing is open. */
  lemma LatestCloseDecides(es: seq<Event>, id: nat)
    requires Run(es) && id in At(es, |es|).closes && At(es, |es|).closes[id].Closed?
    requires At(es, |es|).closes[id].ticket == At(es, |es|).latest
    ensures At(es, |es|).session.None?
  {
    InvAt(es, |es|);
  }

  /** A later ticket has been taken, and `o` has not passed its check. */
  ghost predicate Behind(s: State, o: nat) {
    && Inv(s)
    && o in s.opens && !s.opens[o].OpenAsked? && !s.opens[o].Passed? && !s.opens[o].Opened?
    && s.opens[o].ticket < s.latest
  }

  lemma BehindKept(s: State, s': State, o: nat)
    requires Behind(s, o) && Effect(s, s') && Inv(s')
    ensures Behind(s', o)
  {
  }

  /** An open overtaken before its check has passed, by whatever call, never installs. */
  lemma OvertakenBeforeItsCheckNeverInstalls(es: seq<Event>, k: nat, o: nat)
    requires Run(es) && k <= |es|
    requires o in At(es, k).opens && !At(es, k).opens[o].OpenAsked? && !At(es, k).opens[o].Opened?
    requires !At(es, k).opens[o].Passed? && At(es, k).opens[o].ticket < At(es, k).latest
    ensures o in At(es, |es|).opens && !At(es, |es|).opens[o].Opened?
  {
    InvAt(es, k);
    forall s, e | Behind(s, o) && Step(s, e).Some? ensures Behind(Step(s, e).value, o) {
      StepKeeps(s, e, Step(s, e).value);
      StepEffect(s, e, Step(s, e).value);
      BehindKept(s, Step(s, e).value, o);
    }
    Onwards(es, k, |es|, s => Behind(s, o));
  }

  /** Some way of going on has open `o` install its session. */
  ghost predicate MayInstall(es: seq<Event>, o: nat) {
    exists more :: Run(es + more) && o in At(es + more, |es + more|).opens && At(es + more, |es + more|).opens[o].Opened?
  }

  /** An overtaken open may still install exactly when its check has passed already. */
  lemma OvertakenInstallsOnceChecked(es: seq<Event>, o: nat)
    requires Run(es) && o in At(es, |es|).opens && !At(es, |es|).opens[o].OpenAsked? && !At(es, |es|).opens[o].Opened?
    requires At(es, |es|).opens[o].ticket < At(es, |es|).latest
    ensures MayInstall(es, o) <==> At(es, |es|).opens[o].Passed?
  {
    assert es[..|es|] == es;
    if At(es, |es|).opens[o].Passed? {
      var all := es + [Open(o, None)];
      Then(Step, INITIAL, es, Open(o, None));
      assert all[..|all|] == all;
      assert At(all, |all|).opens[o].Opened?;
    } else if more :| Run(es + more) && o in At(es + more, |es + more|).opens
                      && At(es + more, |es + more|).opens[o].Opened? {
      assert (es + more)[..|es|] == es;
      OvertakenBeforeItsCheckNeverInstalls(es + more, |es|, o);
    }
  }

  /**
   * Such a run: an open is overtaken after its check and installs. What it
   * installs is replaced: here the second open holds the latest ticket while
   * the first one's session is the open one.
   */
  lemma OvertakenByAnOpenMayInstall()
    ensures exists es, o | Run(es) && o in At(es, |es|).opens ::
              At(es, |es|).opens[o].Opened? && At(es, |es|).opens[o].ticket < At(es, |es|).latest
              && At(es, |es|).session.Some? && At(es, |es|).session.value.ticket == At(es, |es|).opens[o].ticket
  {
    var first := [ArriveOpen(0, DateOrder), Open(0, None), Open(0, Some("repo")), Open(0, None), Open(0, None)];
    var second := [ArriveOpen(1, DateOrder), Open(1, None), Open(0, None)];
    var s := After(Step, INITIAL, first);
    assert s.opens[0].Passed? && s.opens[0].ticket == 1;
    assert IsRun(Step, s, second);
    Join(Step, INITIAL, first, second);
    var es := first + second;
    assert es[..|es|] == es;
    assert At(es, |es|).opens[0].Opened?;
  }

  // --- Walks -----------------------------------------------------------------

  /** No two walks ever share a token. */
  lemma TokensAreUnique(es: seq<Event>, i: nat, j: nat)
    requires Run(es) && i < j < |At(es, |es|).walks|
    ensures At(es, |es|).walks[i].token != At(es, |es|).walks[j].token
  {
    InvAt(es, |es|);
  }

  /** The walk `token` names was replaced, or never became the session's; no open will install it. */
  ghost predicate Retired(s: State, token: nat) {
    && token < s.nextToken
    && (s.session.Some? ==> s.session.value.walk.token != token)
    && (forall t | t in s.opens && s.opens[t].WalkPending() :: s.opens[t].walk.token != token)
  }

  /** Since `reached` was the whole history, `token` stayed retired and no request for it was handed on. */
  ghost predicate Unreached(s: State, token: nat, reached: seq<Reached>) {
    && Inv(s) && Retired(s, token) && reached <= s.reached
    && forall i | |reached| <= i < |s.reached| :: s.reached[i].asked != token
  }

  lemma UnreachedKept(s: State, s': State, token: nat, reached: seq<Reached>)
    requires Unreached(s, token, reached) && Effect(s, s') && Inv(s')
    ensures Unreached(s', token, reached)
  {
    assert Retired(s', token);
  }

  /** Every request that reached a walk was made with that walk's own token. */
  lemma RequestsReachTheirOwnWalk(es: seq<Event>, i: nat)
    requires Run(es) && i < |At(es, |es|).reached|
    ensures var s := At(es, |es|); s.reached[i].walk in s.walks && s.reached[i].walk.token == s.reached[i].asked
  {
    InvAt(es, |es|);
    assert At(es, |es|).reached[i] in At(es, |es|).reached;
  }

  /** A retired token is never handed a request again. */
  lemma RetiredIsNotReached(es: seq<Event>, k: nat, token: nat, i: nat)
    requires Run(es) && k <= |es| && Retired(At(es, k), token)
    requires |At(es, k).reached| <= i < |At(es, |es|).reached|
    ensures At(es, |es|).reached[i].asked != token
  {
    InvAt(es, k);
    var reached := At(es, k).reached;
    forall s, e | Unreached(s, token, reached) && Step(s, e).Some? ensures Unreached(Step(s, e).value, token, reached) {
      StepKeeps(s, e, Step(s, e).value);
      StepEffect(s, e, Step(s, e).value);
      UnreachedKept(s, Step(s, e).value, token, reached);
    }
    Onwards(es, k, |es|, s => Unreached(s, token, reached));
  }

  /** `token` was given out, and no open still holds a walk with it. */
  ghost predicate GivenOut(s: State, token: nat) {
    Inv(s) && token < s.nextToken && forall t | t in s.opens && s.opens[t].WalkPending() :: s.opens[t].walk.token != token
  }

  lemma GivenOutKept(s: State, s': State, token: nat)
    requires GivenOut(s, token) && Effect(s, s') && Inv(s')
    ensures GivenOut(s', token)
  {
  }

  lemma SessionsTokenIsGivenOut(s: State)
    requires Inv(s) && s.session.Some?
    ensures GivenOut(s, s.session.value.walk.token)
  {
    assert s.session.value.walk in s.walks;
  }

  /** A walk that was the session's and is not any more is never handed a request again. */
  lemma ReplacedWalksAreNotReached(es: seq<Event>, j: nat, k: nat, i: nat)
    requires Run(es) && j <= k <= |es| && At(es, j).session.Some?
    requires At(es, k).session.Some? ==> At(es, k).session.value.walk.token != At(es, j).session.value.walk.token
    requires |At(es, k).reached| <= i < |At(es, |es|).reached|
    ensures At(es, |es|).reached[i].asked != At(es, j).session.value.walk.token
  {
    var token := At(es, j).session.value.walk.token;
    InvAt(es, j);
    SessionsTokenIsGivenOut(At(es, j));
    forall s, e | GivenOut(s, token) && Step(s, e).Some? ensures GivenOut(Step(s, e).value, token) {
      StepKeeps(s, e, Step(s, e).value);
      StepEffect(s, e, Step(s, e).value);
      GivenOutKept(s, Step(s, e).value, token);
    }
    Onwards(es, j, k, s => GivenOut(s, token));
    RetiredIsNotReached(es, k, token, i);
  }

  /** What of the walk's view `ask` chooses, and that it leaves the rest of it. */
  predicate Chooses(ask: Ask, was: View, now: View) {
    && now.visible == (if ask.Choose? && ask.choice.Show? then ask.choice.visible else was.visible)
    && now.pinned == (if ask.Choose? && ask.choice.Show? then ask.choice.pinned else was.pinned)
    && now.order == (if ask.Choose? && ask.choice.Arrange? then ask.choice.order else was.order)
  }

  /** Branches and held lanes are those of the last time that they were chosen, or all and none. */
  ghost predicate ShowsTheLast(view: View, chosen: seq<Choice>) {
    || (exists i | 0 <= i < |chosen| ::
          && chosen[i] == Show(view.visible, view.pinned)
          && forall j | i < j < |chosen| :: chosen[j].Arrange?)
    || (view.visible == [] && view.pinned == [] && forall j | 0 <= j < |chosen| :: chosen[j].Arrange?)
  }

  /** The order is the one last chosen, or the one at opening. */
  ghost predicate ArrangedAsLast(view: View, opening: Order, chosen: seq<Choice>) {
    || (exists i | 0 <= i < |chosen| ::
          chosen[i] == Arrange(view.order) && forall j | i < j < |chosen| :: chosen[j].Show?)
    || (view.order == opening && forall j | 0 <= j < |chosen| :: chosen[j].Show?)
  }

  lemma {:induction false} FoldIsTheLast(order: Order, chosen: seq<Choice>)
    ensures ShowsTheLast(Fold(order, chosen), chosen) && ArrangedAsLast(Fold(order, chosen), order, chosen)
  {
    if chosen != [] {
      var n := |chosen| - 1;
      FoldIsTheLast(order, chosen[..n]);
      var was, now := Fold(order, chosen[..n]), Fold(order, chosen);
      if chosen[n].Show? {
        assert chosen[n] == Show(now.visible, now.pinned);
        if i :| 0 <= i < n && chosen[..n][i] == Arrange(was.order) && forall j | i < j < n :: chosen[..n][j].Show? {
          assert chosen[i] == Arrange(now.order);
        }
      } else {
        assert chosen[n] == Arrange(now.order);
        if i :| 0 <= i < n && chosen[..n][i] == Show(was.visible, was.pinned) && forall j | i < j < n :: chosen[..n][j].Arrange? {
          assert chosen[i] == Show(now.visible, now.pinned);
        }
      }
    }
  }

  /** The running walk shows the branches and lanes chosen last, in the order chosen last, of all choices since its repository was opened. */
  lemma WalkShowsEveryChoice(es: seq<Event>)
    requires Run(es) && At(es, |es|).session.Some?
    ensures var session := At(es, |es|).session.value;
            && session.walk.path == session.path
            && ShowsTheLast(session.walk.view, session.chosen)
            && ArrangedAsLast(session.walk.view, session.opening, session.chosen)
  {
    InvAt(es, |es|);
    FoldIsTheLast(At(es, |es|).session.value.opening, At(es, |es|).session.value.chosen);
  }

  /** `now` is `was` after `ask`, which is remembered when it chooses something; its walk is a new one with `token`. */
  predicate WalksAnew(ask: Ask, was: Session, now: Session, token: nat) {
    && now.path == was.path && now.ticket == was.ticket && now.opening == was.opening
    && now.chosen == was.chosen + (if ask.Choose? then [ask.choice] else [])
    && Chooses(ask, was.view, now.view) && now.walk == Walk(token, was.path, now.view)
  }

  // --- Locks -----------------------------------------------------------------

  /** The closures of two commands that write never run at once. */
  lemma WritesNeverOverlap(es: seq<Event>, t: nat, u: nat)
    requires Run(es) && t in At(es, |es|).turns && u in At(es, |es|).turns
    requires At(es, |es|).turns[t].Writing() && At(es, |es|).turns[u].Writing()
    ensures t == u
  {
    InvAt(es, |es|);
  }

  ghost predicate Unfinished(s: State, who: Caller) {
    match who
    case OpenCall(id) => id in s.opens && !s.opens[id].Finished()
    case CloseCall(id) => id in s.closes && !s.closes[id].Closed?
    case TurnCall(id) => id in s.turns && !s.turns[id].Finished()
    case AskCall(id) => id in s.asks && !s.asks[id].Asked?
  }

  function Act(who: Caller): Event {
    match who
    case OpenCall(id) => Open(id, None)
    case CloseCall(id) => Close(id)
    case TurnCall(id) => Turn(id)
    case AskCall(id) => Ask(id)
  }

  /** No call waits for the write lock while it holds the session lock. */
  lemma NoneQueuesHoldingTheSession(es: seq<Event>, t: nat)
    requires Run(es) && t in At(es, |es|).turns && At(es, |es|).turns[t].Queued?
    ensures At(es, |es|).sessionLock != Some(TurnCall(t))
  {
    InvAt(es, |es|);
  }

  lemma HolderIsUnfinished(s: State)
    requires SessionLock(s.sessionLock, s.opens, s.closes, s.turns, s.asks) && s.sessionLock.Some?
    ensures match s.sessionLock.value
            case OpenCall(id) => id in s.opens && s.opens[id].HoldsSession()
            case CloseCall(id) => id in s.closes && s.closes[id].HoldsSession()
            case TurnCall(id) => id in s.turns && s.turns[id].HoldsSession()
            case AskCall(id) => id in s.asks && s.asks[id].HoldsSession()
  {
  }

  lemma HolderCanAct(s: State)
    requires Inv(s) && s.sessionLock.Some?
    ensures Unfinished(s, s.sessionLock.value) && Step(s, Act(s.sessionLock.value)).Some?
  {
    HolderIsUnfinished(s);
    match s.sessionLock.value
    case OpenCall(id) => assert OpenStep(s, id, None).Some?;
    case CloseCall(id) => assert CloseStep(s, id).Some?;
    case TurnCall(id) => assert TurnStep(s, id).Some?;
    case AskCall(id) => assert AskStep(s, id).Some?;
  }

  lemma WriterCanAct(s: State)
    requires WriteLock(s.writeLock, s.turns) && s.writeLock.Some?
    ensures Unfinished(s, TurnCall(s.writeLock.value)) && Step(s, Turn(s.writeLock.value)).Some?
  {
    assert s.turns[s.writeLock.value].Writing();
  }

  lemma WaitingCanAct(s: State, who: Caller)
    requires s.sessionLock.None? && Unfinished(s, who)
    requires who.TurnCall? && s.turns[who.id].Queued? ==> s.writeLock.None?
    ensures Step(s, Act(who)).Some?
  {
  }

  /** Nothing deadlocks: while a call is unfinished, some unfinished call can act. */
  lemma SomeCallCanAct(es: seq<Event>, waiting: Caller) returns (who: Caller)
    requires Run(es) && Unfinished(At(es, |es|), waiting)
    ensures Unfinished(At(es, |es|), who) && Step(At(es, |es|), Act(who)).Some?
  {
    InvAt(es, |es|);
    var s := At(es, |es|);
    if s.sessionLock.Some? {
      who := s.sessionLock.value;
      HolderCanAct(s);
    } else if waiting.TurnCall? && s.turns[waiting.id].Queued? && s.writeLock.Some? {
      who := TurnCall(s.writeLock.value);
      WriterCanAct(s);
    } else {
      who := waiting;
      WaitingCanAct(s, who);
    }
  }

  // --- The state itself ------------------------------------------------------

  /** An open with the lock: its check, and its install when the check passes. */
  ghost function OpenActed(s: State, id: nat): State
    requires id in s.opens && s.opens[id].OpenHolding?
  {
    var checked := OpenStep(s, id, None).value;
    if checked.opens[id].Passed? then OpenStep(checked, id, None).value else checked
  }

  /** A close with the lock: its ticket, and then its clearing. */
  ghost function CloseActed(s: State, id: nat): State
    requires id in s.closes && s.closes[id].CloseHolding?
  {
    CloseStep(CloseStep(s, id).value, id).value
  }

  /** What becomes of a call that took `open` from the session. */
  function TurnWith(writes: bool, open: Option<Handle>): Turn {
    if open.None? then NotOpen else if writes then Queued(open.value) else Running(false, open.value)
  }

  /**
   * The application's open repository. Each method is one hold of the session
   * lock, or one atomic counter's step, and does to these fields what the
   * machine's steps do to a state that has them.
   */
  class AppState {
    var session: Option<Session>
    var latest: nat
    var nextToken: nat

    ghost predicate Is(s: State)
      reads this
    {
      s.session == session && s.latest == latest && s.nextToken == nextToken
    }

    constructor ()
      ensures Is(INITIAL)
    {
      session := None;
      latest := 0;
      nextToken := 0;
    }

    method Ticket() returns (ticket: nat)
      modifies this`latest
      ensures ticket == latest == old(latest) + 1
      ensures forall s, id | old(Is(s)) && id in s.opens && s.opens[id].OpenAsked? ::
                var s' := OpenStep(s, id, None).value;
                Is(s') && s'.opens[id] == Reading(s.opens[id].order, ticket)
    {
      latest := latest + 1;
      ticket := latest;
    }

    method Token() returns (token: nat)
      modifies this`nextToken
      ensures token == old(nextToken) && nextToken == token + 1
      ensures forall s | old(Is(s)) :: Is(Step(s, TakeToken).value)
    {
      token := nextToken;
      nextToken := nextToken + 1;
    }

    /** What an open does under the lock. */
    method OpenAs(ticket: nat, walk: Walk) returns (installed: bool)
      modifies this`session
      ensures installed <==> latest == ticket
      ensures session == if installed then Some(Session(walk.path, ticket, walk, walk.view, walk.view.order, []))
                         else old(session)
      ensures forall s, id | old(Is(s)) && id in s.opens && s.opens[id] == OpenHolding(ticket, walk) ::
                Is(OpenActed(s, id)) && (installed <==> OpenActed(s, id).opens[id].Opened?)
    {
      if latest != ticket {
        return false;
      }
      session := Some(Session(walk.path, ticket, walk, walk.view, walk.view.order, []));
      installed := true;
    }

    method CloseRepo() returns (ticket: nat)
      modifies this`session, this`latest
      ensures ticket == latest == old(latest) + 1 && session == None
      ensures forall s, id | old(Is(s)) && id in s.closes && s.closes[id].CloseHolding? ::
                Is(CloseActed(s, id)) && CloseActed(s, id).closes[id] == Closed(ticket)
    {
      ticket := Ticket();
      session := None;
    }

    /** What a command takes from the session before its turn: what it goes on with in the machine. */
    method TakeHandle() returns (open: Option<Handle>)
      ensures open == if session.None? then None else Some(Handle(session.value.path, session.value.ticket))
      ensures forall s, id | Is(s) && id in s.turns && s.turns[id].TurnHolding? ::
                TurnStep(s, id).value.turns[id] == TurnWith(s.turns[id].writes, open)
    {
      open := if session.None? then None else Some(Handle(session.value.path, session.value.ticket));
    }

    /** The check of a read that is done: in the machine it is delivered exactly when this is true. */
    method StillOpen(ticket: nat) returns (still: bool)
      ensures still <==> session.Some? && session.value.ticket == ticket
      ensures forall s, id | Is(s) && id in s.turns && s.turns[id].Checking? && s.turns[id].open.ticket == ticket ::
                && TurnStep(s, id).value.turns[id].open == s.turns[id].open
                && (if still then TurnStep(s, id).value.turns[id].Delivered? else TurnStep(s, id).value.turns[id].Replaced?)
    {
      still := session.Some? && session.value.ticket == ticket;
    }

    /** What a request for rows reaches: what the machine's step adds to the requests that were handed on. */
    method GraphRequest(token: nat) returns (reached: seq<Reached>)
      ensures session.Some? && session.value.walk.token == token ==> reached == [Reached(token, session.value.walk)]
      ensures session.None? || session.value.walk.token != token ==> reached == []
      ensures forall s, id | Is(s) && id in s.asks && s.asks[id] == AskHolding(Rows(token)) ::
                AskStep(s, id).value.reached == s.reached + reached
    {
      reached := [];
      if session.Some? && session.value.walk.token == token {
        reached := [Reached(token, session.value.walk)];
      }
    }

    /** `graph_restart`, `graph_visibility` and `graph_order`: what is shown changes, then the walk starts again. */
    method Restart(ask: Ask) returns (token: Option<nat>)
      requires !ask.Rows?
      modifies this`session, this`nextToken
      ensures old(session).None? ==> token == None && session == None && nextToken == old(nextToken)
      ensures old(session).Some? ==>
        && token == Some(old(nextToken)) && nextToken == old(nextToken) + 1
        && session.Some? && WalksAnew(ask, old(session).value, session.value, old(nextToken))
      ensures forall s, id | old(Is(s)) && id in s.asks && s.asks[id] == AskHolding(ask) ::
                Is(AskStep(s, id).value)
    {
      if session.None? {
        return None;
      }
      var open := session.value;
      if ask.Choose? {
        match ask.choice {
          case Show(visible, pinned) => open := open.(view := open.view.(visible := visible, pinned := pinned));
          case Arrange(order) => open := open.(view := open.view.(order := order));
        }
        open := open.(chosen := open.chosen + [ask.choice]);
      }
      var next := Token();
      session := Some(open.(walk := Walk(next, open.path, open.view)));
      token := Some(next);
    }
  }
}
