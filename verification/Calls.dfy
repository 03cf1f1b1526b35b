/**
 * What becomes of the calls on the open repository (src-tauri/src/commands.rs):
 * what each comes to in every run of the machine in `OpenRepository`, and what
 * its own actions alone can bring it to.
 */
module Calls {
  import opened Wrappers
  import opened Runs
  import opened OpenRepository

  // --- Reads and writes ------------------------------------------------------

  /** A read at its check is delivered by its next action exactly when its session is the open one, and is replaced otherwise. */
  lemma CheckDelivers(es: seq<Event>, id: nat)
    requires Run(es) && id in At(es, |es|).turns && At(es, |es|).turns[id].Checking?
    ensures Step(At(es, |es|), Turn(id)).Some? && id in Step(At(es, |es|), Turn(id)).value.turns
    ensures var s, open := At(es, |es|), At(es, |es|).turns[id].open;
            var t := Step(s, Turn(id)).value.turns[id];
            && (t == Delivered(open) || t == Replaced(open))
            && (t.Delivered? <==> s.session.Some? && s.session.value.ticket == open.ticket)
            && (t.Delivered? ==> s.session.value.path == open.path)
  {
    InvAt(es, |es|);
  }

  /**
   * And so is every read between whose handle and check no open installed and
   * no close cleared: whatever tickets were taken meanwhile, it is not replaced.
   */
  lemma {:induction false} UndisturbedIsNotReplaced(es: seq<Event>, k: nat, n: nat, id: nat)
    requires Run(es) && k <= n <= |es| && id in At(es, k).turns
    requires At(es, k).turns[id].HasHandle() && !At(es, k).turns[id].Replaced?
    requires forall i | k <= i < n ::
               At(es, i).session.Some? && At(es, i).session.value.ticket == At(es, k).turns[id].open.ticket
    ensures id in At(es, n).turns && At(es, n).turns[id].HasHandle() && !At(es, n).turns[id].Replaced?
    ensures At(es, n).turns[id].open == At(es, k).turns[id].open
  {
    if k < n {
      UndisturbedIsNotReplaced(es, k, n - 1, id);
      AtNext(es, n - 1);
      TurnGoesOn(At(es, n - 1), es[n - 1], id, At(es, n));
    }
  }

  lemma TurnGoesOn(s: State, e: Event, id: nat, s': State)
    requires Step(s, e) == Some(s') && id in s.turns && s.turns[id].HasHandle() && !s.turns[id].Replaced?
    requires s.session.Some? && s.session.value.ticket == s.turns[id].open.ticket
    ensures id in s'.turns && s'.turns[id].HasHandle() && !s'.turns[id].Replaced? && s'.turns[id].open == s.turns[id].open
  {
    if e == Turn(id) {
      TurnFrame(s, id, s');
    } else {
      TurnIsItsOwn(s, e, id, s');
    }
  }

  /** Nothing but its own actions moves a turn. */
  lemma TurnIsItsOwn(s: State, e: Event, id: nat, s': State)
    requires Step(s, e) == Some(s') && e != Turn(id)
    ensures id in s.turns ==> id in s'.turns && s'.turns[id] == s.turns[id]
    ensures id in s'.turns && id !in s.turns ==> e.ArriveTurn? && e.id == id && s'.turns[id] == TurnAsked(e.writes)
  {
    if e.Turn? {
      TurnFrame(s, e.id, s');
    }
  }

  lemma Overwrites(turns: map<nat, Turn>, id: nat, t: Turn)
    ensures forall u {:trigger turns[id := u]} :: turns[id := u][id := t] == turns[id := t]
  {
  }

  /** `s` with turn `id` at `t`, when nothing else is different. */
  function WithTurn(s: State, id: nat, t: Turn): State {
    s.(turns := s.turns[id := t])
  }

  /** What a turn comes to for the session that is open. */
  function OnSession(session: Option<Session>, writes: bool): Turn {
    if session.None? then NotOpen
    else if writes then Wrote(Handle(session.value.path, session.value.ticket))
    else Delivered(Handle(session.value.path, session.value.ticket))
  }

  /**
   * A read that is asked for while the session lock is free can go on by its
   * own actions alone, whatever command is writing, and is delivered from the
   * session that is open; where none is, it is told so.
   */
  lemma ReadRunsAlone(s: State, id: nat) returns (es: seq<Event>)
    requires id in s.turns && s.turns[id] == TurnAsked(false) && s.sessionLock.None?
    ensures IsRun(Step, s, es) && forall e | e in es :: e == Turn(id)
    ensures After(Step, s, es) == WithTurn(s, id, OnSession(s.session, false))
  {
    Overwrites(s.turns, id, OnSession(s.session, false));
    var s1 := WithTurn(s, id, TurnHolding(false)).(sessionLock := Some(TurnCall(id)));
    if s.session.None? {
      First(Step, s1, Turn(id), WithTurn(s, id, NotOpen), []);
      es := [Turn(id)] + [];
    } else {
      var open := Handle(s.session.value.path, s.session.value.ticket);
      Overwrites(s.turns, id, Running(false, open));
      es := ReadGoesOn(s, id, open);
      First(Step, s1, Turn(id), WithTurn(s, id, Running(false, open)), es);
      es := [Turn(id)] + es;
    }
    First(Step, s, Turn(id), s1, es);
    es := [Turn(id)] + es;
  }

  lemma ReadGoesOn(s: State, id: nat, open: Handle) returns (es: seq<Event>)
    requires s.sessionLock.None? && s.session.Some? && s.session.value.ticket == open.ticket
    ensures IsRun(Step, WithTurn(s, id, Running(false, open)), es) && forall e | e in es :: e == Turn(id)
    ensures After(Step, WithTurn(s, id, Running(false, open)), es) == WithTurn(s, id, Delivered(open))
  {
    Overwrites(s.turns, id, Read(open));
    Overwrites(s.turns, id, Checking(open));
    Overwrites(s.turns, id, Delivered(open));
    var s1 := WithTurn(s, id, Running(false, open));
    var s2 := WithTurn(s, id, Read(open));
    var s3 := WithTurn(s, id, Checking(open)).(sessionLock := Some(TurnCall(id)));
    First(Step, s3, Turn(id), WithTurn(s, id, Delivered(open)), []);
    First(Step, s2, Turn(id), s3, [Turn(id)] + []);
    First(Step, s1, Turn(id), s2, [Turn(id)] + ([Turn(id)] + []));
    es := [Turn(id)] + ([Turn(id)] + ([Turn(id)] + []));
  }

  /** A write, too, when both locks are free; what it did is reported as it is. */
  lemma WriteRunsAlone(s: State, id: nat) returns (es: seq<Event>)
    requires id in s.turns && s.turns[id] == TurnAsked(true) && s.sessionLock.None? && s.writeLock.None?
    ensures IsRun(Step, s, es) && forall e | e in es :: e == Turn(id)
    ensures After(Step, s, es) == WithTurn(s, id, OnSession(s.session, true))
  {
    Overwrites(s.turns, id, OnSession(s.session, true));
    var s1 := WithTurn(s, id, TurnHolding(true)).(sessionLock := Some(TurnCall(id)));
    if s.session.None? {
      First(Step, s1, Turn(id), WithTurn(s, id, NotOpen), []);
      es := [Turn(id)] + [];
    } else {
      var open := Handle(s.session.value.path, s.session.value.ticket);
      Overwrites(s.turns, id, Queued(open));
      Overwrites(s.turns, id, Running(true, open));
      var s2 := WithTurn(s, id, Queued(open));
      var s3 := WithTurn(s, id, Running(true, open)).(writeLock := Some(id));
      First(Step, s3, Turn(id), WithTurn(s, id, Wrote(open)), []);
      First(Step, s2, Turn(id), s3, [Turn(id)] + []);
      First(Step, s1, Turn(id), s2, [Turn(id)] + ([Turn(id)] + []));
      es := [Turn(id)] + ([Turn(id)] + ([Turn(id)] + []));
    }
    First(Step, s, Turn(id), s1, es);
    es := [Turn(id)] + es;
  }

  /** It is the turn of a command that writes. */
  predicate IsWrite(t: Turn) {
    match t
    case TurnAsked(writes) => writes
    case TurnHolding(writes) => writes
    case Queued(_) => true
    case Running(writes, _) => writes
    case Wrote(_) => true
    case _ => false
  }

  lemma TurnStaysAWrite(s: State, id: nat, s': State)
    requires TurnStep(s, id) == Some(s')
    ensures id in s.turns && id in s'.turns && !s.turns[id].NotOpen?
    ensures !s'.turns[id].NotOpen? ==> (IsWrite(s'.turns[id]) <==> IsWrite(s.turns[id]))
  {
  }

  /** In every run, the commands that take the write lock, and are not checked, are those that write. */
  lemma {:induction false} WritersWrite(es: seq<Event>, k: nat, id: nat)
    requires Run(es) && k <= |es|
    ensures id !in At(es, k).turns ==> forall e | e in es[..k] && e.ArriveTurn? :: e.id != id
    ensures id in At(es, k).turns && !At(es, k).turns[id].NotOpen? ==>
              (ArriveTurn(id, true) in es[..k] <==> IsWrite(At(es, k).turns[id]))
  {
    if k == 0 {
      assert es[..0] == [] && At(es, 0) == INITIAL;
    } else {
      WritersWrite(es, k - 1, id);
      AtNext(es, k - 1);
      assert es[..k] == es[..k - 1] + [es[k - 1]];
      if es[k - 1] == Turn(id) {
        TurnStaysAWrite(At(es, k - 1), id, At(es, k));
      } else {
        TurnIsItsOwn(At(es, k - 1), es[k - 1], id, At(es, k));
        assert es[k - 1].ArriveTurn? && es[k - 1].id == id ==> id !in At(es, k - 1).turns;
      }
    }
  }

  // --- Opens and closes ------------------------------------------------------

  /** An open at its check goes on to install exactly when its ticket is still the latest, and is superseded otherwise. */
  lemma CheckLetsTheLatestInstall(es: seq<Event>, id: nat, read: Option<string>)
    requires Run(es) && id in At(es, |es|).opens && At(es, |es|).opens[id].OpenHolding?
    ensures Step(At(es, |es|), Open(id, read)).Some? && id in Step(At(es, |es|), Open(id, read)).value.opens
    ensures var s, s' := At(es, |es|), Step(At(es, |es|), Open(id, read)).value;
            && s'.session == s.session && s'.latest == s.latest
            && s'.opens[id] == if s.opens[id].ticket == s.latest then Passed(s.latest, s.opens[id].walk)
                               else Superseded(s.opens[id].ticket)
  {
  }

  /** A close that is asked for while the session lock is free takes the next ticket and leaves nothing open, by its own actions alone. */
  lemma CloseRunsAlone(s: State, id: nat) returns (es: seq<Event>)
    requires id in s.closes && s.closes[id].CloseAsked? && s.sessionLock.None?
    ensures IsRun(Step, s, es) && forall e | e in es :: e == Close(id)
    ensures var s' := After(Step, s, es);
            && s'.session.None? && s'.latest == s.latest + 1 && s'.sessionLock.None? && s'.nextToken == s.nextToken
            && id in s'.closes && s'.closes[id] == Closed(s.latest + 1)
  {
    var s1 := s.(closes := s.closes[id := CloseHolding], sessionLock := Some(CloseCall(id)));
    var s2 := s1.(closes := s1.closes[id := Ticketed(s.latest + 1)], latest := s.latest + 1);
    First(Step, s2, Close(id), CloseStep(s2, id).value, []);
    First(Step, s1, Close(id), s2, [Close(id)] + []);
    First(Step, s, Close(id), s1, [Close(id)] + ([Close(id)] + []));
    es := [Close(id)] + ([Close(id)] + ([Close(id)] + []));
  }

  /** What of open `id` comes from its request, and what from what it found on disk. */
  ghost predicate IsAsAsked(es: seq<Event>, id: nat, o: Opening) {
    match o
    case OpenAsked(order) => ArriveOpen(id, order) in es
    case Reading(order, _) => ArriveOpen(id, order) in es
    case Spawned(_, walk) => WalkIsAsAsked(es, id, walk)
    case OpenHolding(_, walk) => WalkIsAsAsked(es, id, walk)
    case Passed(_, walk) => WalkIsAsAsked(es, id, walk)
    case Opened(_, walk) => WalkIsAsAsked(es, id, walk)
    case Superseded(_) => true
    case Unreadable(_) => Open(id, None) in es
  }

  /** It is of the repository that was read, in the order that was asked for, and shows every branch. */
  ghost predicate WalkIsAsAsked(es: seq<Event>, id: nat, walk: Walk) {
    && ArriveOpen(id, walk.view.order) in es && Open(id, Some(walk.path)) in es
    && walk.view.visible == [] && walk.view.pinned == []
  }

  lemma StillAsAsked(es: seq<Event>, e: Event, id: nat, o: Opening)
    requires IsAsAsked(es, id, o)
    ensures IsAsAsked(es + [e], id, o)
  {
    assert forall x | x in es :: x in es + [e];
  }

  lemma OpenGoesAsAsked(es: seq<Event>, s: State, id: nat, read: Option<string>, s': State)
    requires OpenStep(s, id, read) == Some(s') && IsAsAsked(es, id, s.opens[id])
    ensures IsAsAsked(es + [Open(id, read)], id, s'.opens[id])
  {
    StillAsAsked(es, Open(id, read), id, s.opens[id]);
    assert Open(id, read) in es + [Open(id, read)];
  }

  lemma OpensMoveOne(s: State, id: nat, read: Option<string>, s': State)
    requires OpenStep(s, id, read) == Some(s')
    ensures id in s.opens && id in s'.opens && s'.opens == s.opens[id := s'.opens[id]]
  {
  }

  lemma OthersLeaveOpens(s: State, e: Event, s': State)
    requires Step(s, e) == Some(s') && !e.Open? && !e.ArriveOpen?
    ensures s'.opens == s.opens
  {
    if e.Turn? {
      TurnFrame(s, e.id, s');
    }
  }

  /** Nothing but its own actions moves an open. */
  lemma OpenIsItsOwn(s: State, e: Event, id: nat, s': State)
    requires Step(s, e) == Some(s') && !(e.Open? && e.id == id)
    ensures id in s.opens ==> id in s'.opens && s'.opens[id] == s.opens[id]
    ensures id in s'.opens && id !in s.opens ==> e.ArriveOpen? && e.id == id && s'.opens[id] == OpenAsked(e.order)
  {
    if e.Open? {
      OpensMoveOne(s, e.id, e.read, s');
    } else if !e.ArriveOpen? {
      OthersLeaveOpens(s, e, s');
    }
  }

  /** In every run, what an open installs, or starts for it, is of the repository it read, shown as it was asked to. */
  lemma {:induction false} OpenIsAsAsked(es: seq<Event>, k: nat, id: nat)
    requires Run(es) && k <= |es|
    ensures id in At(es, k).opens ==> IsAsAsked(es[..k], id, At(es, k).opens[id])
  {
    if k == 0 {
      assert es[..0] == [] && At(es, 0) == INITIAL;
    } else {
      var s, e := At(es, k - 1), es[k - 1];
      AtNext(es, k - 1);
      assert es[..k] == es[..k - 1] + [e];
      OpenIsAsAsked(es, k - 1, id);
      if e.Open? && e.id == id {
        OpenGoesAsAsked(es[..k - 1], s, id, e.read, At(es, k));
      } else {
        OpenIsItsOwn(s, e, id, At(es, k));
        if id in s.opens {
          StillAsAsked(es[..k - 1], e, id, s.opens[id]);
        }
      }
    }
  }

  /** The session of a repository just opened at `path`: every branch is shown, in `order`. */
  predicate IsNew(session: Option<Session>, path: string, order: Order, ticket: nat, token: nat) {
    && session.Some? && session.value.path == path && session.value.ticket == ticket
    && session.value.walk == Walk(token, path, View([], [], order)) && session.value.view == View([], [], order)
    && session.value.opening == order && session.value.chosen == []
  }

  /**
   * An open that is asked for while the session lock is free can go on by its
   * own actions alone: it takes the next ticket and the next token, and what
   * it read is open. Where there is nothing to read it leaves the session.
   */
  lemma OpenRunsAlone(s: State, id: nat, order: Order, read: Option<string>) returns (es: seq<Event>)
    requires id in s.opens && s.opens[id] == OpenAsked(order) && s.sessionLock.None?
    ensures IsRun(Step, s, es) && forall e | e in es :: e.Open? && e.id == id
    ensures var s' := After(Step, s, es);
            && id in s'.opens && s'.latest == s.latest + 1 && s'.sessionLock.None?
            && (read.Some? ==> s'.opens[id].Opened? && IsNew(s'.session, read.value, order, s.latest + 1, s.nextToken))
            && (read.None? ==> s'.opens[id].Unreadable? && s'.session == s.session && s'.nextToken == s.nextToken)
  {
    var ticket := s.latest + 1;
    var s1 := s.(opens := s.opens[id := Reading(order, ticket)], latest := ticket);
    if read.None? {
      First(Step, s1, Open(id, None), s1.(opens := s1.opens[id := Unreadable(ticket)]), []);
      es := [Open(id, None)] + [];
    } else {
      var walk := Walk(s.nextToken, read.value, View([], [], order));
      var s2 := s1.(opens := s1.opens[id := Spawned(ticket, walk)], nextToken := s.nextToken + 1, walks := s.walks + [walk]);
      es := SpawnedInstalls(s2, id, ticket, walk);
      First(Step, s1, Open(id, read), s2, es);
      es := [Open(id, read)] + es;
    }
    First(Step, s, Open(id, None), s1, es);
    es := [Open(id, None)] + es;
  }

  lemma SpawnedInstalls(s: State, id: nat, ticket: nat, walk: Walk) returns (es: seq<Event>)
    requires id in s.opens && s.opens[id] == Spawned(ticket, walk) && s.latest == ticket && s.sessionLock.None?
    ensures IsRun(Step, s, es) && forall e | e in es :: e.Open? && e.id == id
    ensures var s' := After(Step, s, es);
            && id in s'.opens && s'.opens[id].Opened? && s'.latest == s.latest && s'.sessionLock.None?
            && s'.session == Some(Session(walk.path, ticket, walk, walk.view, walk.view.order, []))
  {
    var s1 := s.(opens := s.opens[id := OpenHolding(ticket, walk)], sessionLock := Some(OpenCall(id)));
    var s2 := s1.(opens := s1.opens[id := Passed(ticket, walk)]);
    var s3 := s2.(opens := s2.opens[id := Opened(ticket, walk)], sessionLock := None,
                  session := Some(Installed(ticket, walk)), installs := s2.installs + [ticket]);
    First(Step, s2, Open(id, None), s3, []);
    First(Step, s1, Open(id, None), s2, [Open(id, None)] + []);
    First(Step, s, Open(id, None), s1, [Open(id, None)] + ([Open(id, None)] + []));
    es := [Open(id, None)] + ([Open(id, None)] + ([Open(id, None)] + []));
  }

  // --- Choices and requests --------------------------------------------------

  lemma AskWalksAnew(s: State, id: nat, s': State)
    requires AskStep(s, id) == Some(s') && s.session.Some?
    ensures s'.session.Some?
    ensures s'.session == s.session
            || (s.asks[id].AskHolding? && !s.asks[id].ask.Rows?
                && WalksAnew(s.asks[id].ask, s.session.value, s'.session.value, s.nextToken))
  {
  }

  lemma OpenWalksItsOwn(s: State, id: nat, read: Option<string>, s': State)
    requires OpenStep(s, id, read) == Some(s')
    ensures s'.session == s.session
            || (s.opens[id].Passed? && s'.session.Some? && s'.session.value.ticket == s.opens[id].ticket
                && s'.session.value.walk == s.opens[id].walk && s'.session.value.chosen == [])
  {
  }

  lemma OthersLeaveTheSession(s: State, e: Event, s': State)
    requires Step(s, e) == Some(s') && !e.Open? && !e.Ask? && !e.Close?
    ensures s'.session == s.session
  {
    if e.Turn? {
      TurnFrame(s, e.id, s');
    }
  }

  /** From one moment of a run to the next the session goes on as it is, or a choice or restart is made, or an open installs. */
  lemma OnlyChoicesChangeTheWalk(es: seq<Event>, k: nat)
    requires Run(es) && k < |es| && At(es, k).session.Some? && At(es, k + 1).session.Some?
    ensures var s, e, was, now := At(es, k), es[k], At(es, k).session.value, At(es, k + 1).session.value;
            || now == was
            || (&& e.Ask? && e.id in s.asks && s.asks[e.id].AskHolding? && !s.asks[e.id].ask.Rows?
                && WalksAnew(s.asks[e.id].ask, was, now, s.nextToken))
            || (&& e.Open? && e.id in s.opens && s.opens[e.id].Passed?
                && now.ticket == s.opens[e.id].ticket && now.walk == s.opens[e.id].walk && now.chosen == [])
  {
    AtNext(es, k);
    var s, e, s' := At(es, k), es[k], At(es, k + 1);
    if e.Ask? {
      AskWalksAnew(s, e.id, s');
    } else if e.Open? {
      OpenWalksItsOwn(s, e.id, e.read, s');
    } else if !e.Close? {
      OthersLeaveTheSession(s, e, s');
    }
  }

  /** A choice or a restart that is asked for while the session lock is free is made by its own actions alone. */
  lemma ChoiceRunsAlone(s: State, id: nat, ask: Ask) returns (es: seq<Event>)
    requires id in s.asks && s.asks[id] == AskAsked(ask) && !ask.Rows? && s.sessionLock.None?
    ensures IsRun(Step, s, es) && forall e | e in es :: e == Ask(id)
    ensures var s' := After(Step, s, es);
            if s.session.None? then s'.session.None? && s'.nextToken == s.nextToken && s'.walks == s.walks
            else && s'.session.Some? && WalksAnew(ask, s.session.value, s'.session.value, s.nextToken)
                 && s'.nextToken == s.nextToken + 1 && s'.walks == s.walks + [s'.session.value.walk]
  {
    var s1 := s.(asks := s.asks[id := AskHolding(ask)], sessionLock := Some(AskCall(id)));
    First(Step, s1, Ask(id), Step(s1, Ask(id)).value, []);
    First(Step, s, Ask(id), s1, [Ask(id)] + []);
    es := [Ask(id)] + ([Ask(id)] + []);
  }

  /** A request for rows is handed on, once, when it names the walk that is running, and to nobody otherwise. */
  lemma RequestRunsAlone(s: State, id: nat, token: nat) returns (es: seq<Event>)
    requires id in s.asks && s.asks[id] == AskAsked(Rows(token)) && s.sessionLock.None?
    ensures IsRun(Step, s, es) && forall e | e in es :: e == Ask(id)
    ensures var s' := After(Step, s, es);
            && s'.session == s.session && s'.nextToken == s.nextToken
            && (if s.session.Some? && s.session.value.walk.token == token
                then s'.reached == s.reached + [Reached(token, s.session.value.walk)] else s'.reached == s.reached)
  {
    var s1 := s.(asks := s.asks[id := AskHolding(Rows(token))], sessionLock := Some(AskCall(id)));
    First(Step, s1, Ask(id), Step(s1, Ask(id)).value, []);
    First(Step, s, Ask(id), s1, [Ask(id)] + []);
    es := [Ask(id)] + ([Ask(id)] + []);
  }
}
