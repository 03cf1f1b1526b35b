/**
 * Asking the person before an extension's comment is posted
 * (src-tauri/src/extensions.rs). An ask puts a sender into a shared map and
 * polls its own end of the channel; an answer from the window takes the sender
 * out of the map and sends. Asks, answers, cancels and deadlines come in any
 * order. Taking a sender and sending are two steps here, which allows more
 * orders than the code, where the map stays locked between them.
 */
module Confirmations {
  import opened Wrappers
  import opened Runs

  /** `used` is history: which of the window's answers ended the wait. */
  datatype Stage =
    | Listed
    | Polling
    | Checked
    | Ending(answer: bool, used: Option<nat>)
    | Unlisted(answer: bool, used: Option<nat>)
    | Returned(answer: bool, used: Option<nat>)
    | Approved(used: Option<nat>)
    | Posted(used: Option<nat>)
    | Declined
    | Cancelled
  {
    predicate IsListed() { Listed? || Polling? || Checked? || Ending? }

    predicate IsOver() { Posted? || Declined? || Cancelled? }

    /** The answer that makes this stage a yes, once there is one. */
    predicate IsYes() { ((Ending? || Unlisted? || Returned?) && answer) || Approved? || Posted? }

    function Used(): Option<nat>
      requires IsYes()
    {
      used
    }
  }

  datatype Ask = Ask(id: string, stage: Stage, cancel: bool, late: bool, shown: bool)

  datatype Sending = Pressed | Took(channel: nat) | Sent(channel: nat) | Missed

  /** What the window was told: yes or no, under the id of the confirmation it showed, which was that of ask `about`. */
  datatype Answer = Answer(about: nat, id: string, yes: bool, stage: Sending)

  /** `confirmations` maps an id to the ask whose channel its sender belongs to; `boxes` holds what each channel was sent. */
  datatype State = State(
    asks: map<nat, Ask>, answers: map<nat, Answer>, confirmations: map<string, nat>, boxes: map<nat, seq<nat>>)

  datatype Event =
    | Begin(t: nat, id: string)
    | Show(t: nat, ok: bool)
    | Cancel(t: nat)
    | Expire(t: nat)
    | Check(t: nat)
    | Receive(t: nat)
    | Unlist(t: nat)
    | Return(t: nat)
    | Decide(t: nat)
    | Post(t: nat)
    | Press(a: nat, about: nat, yes: bool)
    | Take(a: nat)
    | Send(a: nat)

  const INITIAL := State(map[], map[], map[], map[])

  function To(s: State, t: nat, stage: Stage): State
    requires t in s.asks
  {
    s.(asks := s.asks[t := s.asks[t].(stage := stage)])
  }

  /** Nobody can send to the channel of `t` any more. */
  predicate Disconnected(s: State, t: nat) {
    && (forall id | id in s.confirmations :: s.confirmations[id] != t)
    && (forall a | a in s.answers :: s.answers[a].stage != Took(t))
  }

  /** One step of ask `t` by itself. */
  function AskStep(s: State, e: Event, t: nat, c: Ask): Option<State>
    requires t in s.asks && s.asks[t] == c
  {
    match (e, c.stage)
    case (Show(_, ok), Listed) =>
      Some(if ok then s.(asks := s.asks[t := c.(shown := true, stage := Polling)]) else To(s, t, Ending(false, None)))
    case (Cancel(_), _) => Some(s.(asks := s.asks[t := c.(cancel := true)]))
    case (Expire(_), _) => Some(s.(asks := s.asks[t := c.(late := true)]))
    case (Check(_), Polling) => Some(To(s, t, if c.cancel || c.late then Ending(false, None) else Checked))
    case (Receive(_), Checked) =>
      Some(if t in s.boxes && s.boxes[t] != [] && s.boxes[t][0] in s.answers
           then To(s.(boxes := s.boxes[t := s.boxes[t][1..]]), t,
                   Ending(s.answers[s.boxes[t][0]].yes, Some(s.boxes[t][0])))
           else To(s, t, if Disconnected(s, t) then Ending(false, None) else Polling))
    case (Unlist(_), Ending(answer, used)) =>
      Some(To(s.(confirmations := s.confirmations - {c.id}), t, Unlisted(answer, used)))
    case (Return(_), Unlisted(answer, used)) => Some(To(s, t, Returned(answer && !c.cancel, used)))
    case (Decide(_), Returned(answer, used)) =>
      Some(To(s, t, if c.cancel then Cancelled else if answer then Approved(used) else Declined))
    case (Post(_), Approved(used)) => Some(To(s, t, Posted(used)))
    case _ => None
  }

  function AnswerStep(s: State, e: Event): Option<State> {
    match e
    case Press(a, about, yes) =>
      if a in s.answers || about !in s.asks || !s.asks[about].shown then None
      else Some(s.(answers := s.answers[a := Answer(about, s.asks[about].id, yes, Pressed)]))
    case Take(a) =>
      if a !in s.answers || !s.answers[a].stage.Pressed? then None
      else
        var id := s.answers[a].id;
        if id in s.confirmations
        then Some(s.(confirmations := s.confirmations - {id},
                     answers := s.answers[a := s.answers[a].(stage := Took(s.confirmations[id]))]))
        else Some(s.(answers := s.answers[a := s.answers[a].(stage := Missed)]))
    case Send(a) =>
      if a !in s.answers || !s.answers[a].stage.Took? then None
      else
        var t := s.answers[a].stage.channel;
        var box := if t in s.boxes then s.boxes[t] else [];
        Some(s.(boxes := s.boxes[t := box + [a]], answers := s.answers[a := s.answers[a].(stage := Sent(t))]))
    case _ => None
  }

  function Step(s: State, e: Event): Option<State> {
    if e.Begin? then
      if e.t in s.asks then None
      else Some(s.(asks := s.asks[e.t := Ask(e.id, Listed, false, false, false)],
                   confirmations := s.confirmations[e.id := e.t]))
    else if e.Press? || e.Take? || e.Send? then AnswerStep(s, e)
    else if e.t in s.asks then AskStep(s, e, e.t, s.asks[e.t])
    else None
  }

  // --- What every step keeps -------------------------------------------------

  /** Every entry of the map belongs to an ask that has not removed its own yet. */
  ghost predicate EntriesOk(confirmations: map<string, nat>, asks: map<nat, Ask>) {
    forall id | id in confirmations ::
      && confirmations[id] in asks && asks[confirmations[id]].id == id && asks[confirmations[id]].stage.IsListed()
  }

  /** An answer is under the id of what was shown, and reaches only a channel of that id. */
  ghost predicate AnswerOk(asks: map<nat, Ask>, a: Answer) {
    && a.about in asks && asks[a.about].id == a.id && asks[a.about].shown
    && (a.stage.Took? || a.stage.Sent? ==> a.stage.channel in asks && asks[a.stage.channel].id == a.id)
  }

  ghost predicate AnswersOk(asks: map<nat, Ask>, answers: map<nat, Answer>) {
    forall a | a in answers :: AnswerOk(asks, answers[a])
  }

  /** What is in a channel was sent to it. */
  ghost predicate BoxesOk(boxes: map<nat, seq<nat>>, answers: map<nat, Answer>) {
    forall t, a | t in boxes && a in boxes[t] :: a in answers && answers[a].stage == Sent(t)
  }

  /** A yes is an answer that was yes and was sent to this ask. */
  ghost predicate YesOk(t: nat, stage: Stage, answers: map<nat, Answer>) {
    stage.IsYes() ==>
      && stage.Used().Some? && stage.Used().value in answers
      && answers[stage.Used().value].stage == Sent(t) && answers[stage.Used().value].yes
  }

  ghost predicate YesesOk(asks: map<nat, Ask>, answers: map<nat, Answer>) {
    forall t | t in asks :: YesOk(t, asks[t].stage, answers)
  }

  ghost predicate Inv(s: State) {
    && EntriesOk(s.confirmations, s.asks)
    && AnswersOk(s.asks, s.answers)
    && BoxesOk(s.boxes, s.answers)
    && YesesOk(s.asks, s.answers)
  }

  /** How an ask may change: its id and what was shown stay. */
  ghost predicate Evolves(c: Ask, c': Ask) {
    c'.id == c.id && (c.shown ==> c'.shown)
  }

  lemma AskChanges(s: State, t: nat, c': Ask)
    requires AnswersOk(s.asks, s.answers) && YesesOk(s.asks, s.answers)
    requires t in s.asks ==> Evolves(s.asks[t], c')
    requires YesOk(t, c'.stage, s.answers)
    ensures AnswersOk(s.asks[t := c'], s.answers) && YesesOk(s.asks[t := c'], s.answers)
  {
    forall a | a in s.answers ensures AnswerOk(s.asks[t := c'], s.answers[a]) {
      assert AnswerOk(s.asks, s.answers[a]);
    }
  }

  /** What a step of ask `t` leaves as it was. */
  ghost predicate Moved(s: State, t: nat, s': State) {
    && t in s.asks && t in s'.asks && Evolves(s.asks[t], s'.asks[t]) && YesOk(t, s'.asks[t].stage, s.answers)
    && s' == s.(asks := s.asks[t := s'.asks[t]], confirmations := s'.confirmations, boxes := s'.boxes)
    && (s'.boxes == s.boxes || (t in s.boxes && s.boxes[t] != [] && s'.boxes == s.boxes[t := s.boxes[t][1..]]))
    && (if s.asks[t].stage.IsListed() == s'.asks[t].stage.IsListed() then s'.confirmations == s.confirmations
        else s'.confirmations == s.confirmations - {s.asks[t].id})
  }

  lemma ReceiveMoves(s: State, t: nat, s': State)
    requires Inv(s) && Step(s, Receive(t)) == Some(s')
    ensures Moved(s, t, s')
  {
    if t in s.boxes && s.boxes[t] != [] {
      assert s.boxes[t][0] in s.boxes[t];
    }
  }

  lemma FlagMoves(s: State, e: Event, s': State)
    requires Inv(s) && (e.Cancel? || e.Expire?) && Step(s, e) == Some(s')
    ensures Moved(s, e.t, s')
  {
    assert YesOk(e.t, s.asks[e.t].stage, s.answers);
  }

  lemma WaitMoves(s: State, e: Event, s': State)
    requires Inv(s) && (e.Show? || e.Check?) && Step(s, e) == Some(s')
    ensures Moved(s, e.t, s')
  {
  }

  lemma EndMoves(s: State, e: Event, s': State)
    requires Inv(s) && (e.Unlist? || e.Return? || e.Decide? || e.Post?) && Step(s, e) == Some(s')
    ensures Moved(s, e.t, s')
  {
    assert YesOk(e.t, s.asks[e.t].stage, s.answers);
  }

  lemma MovedKeeps(s: State, t: nat, s': State)
    requires Inv(s) && Moved(s, t, s')
    ensures Inv(s')
  {
    AskChanges(s, t, s'.asks[t]);
  }

  lemma AskKeeps(s: State, e: Event, s': State)
    requires Inv(s) && !e.Begin? && !e.Press? && !e.Take? && !e.Send? && Step(s, e) == Some(s')
    ensures Inv(s')
  {
    if e.Receive? {
      ReceiveMoves(s, e.t, s');
    } else if e.Cancel? || e.Expire? {
      FlagMoves(s, e, s');
    } else if e.Show? || e.Check? {
      WaitMoves(s, e, s');
    } else {
      EndMoves(s, e, s');
    }
    MovedKeeps(s, e.t, s');
  }

  lemma BeginKeeps(s: State, t: nat, id: string, s': State)
    requires Inv(s) && Step(s, Begin(t, id)) == Some(s')
    ensures Inv(s')
  {
    AskChanges(s, t, s'.asks[t]);
  }

  lemma AnswerKeeps(s: State, e: Event, s': State)
    requires Inv(s) && (e.Press? || e.Take? || e.Send?) && Step(s, e) == Some(s')
    ensures Inv(s')
  {
    assert e.a in s.answers ==> AnswerOk(s.asks, s.answers[e.a]);
    forall t | t in s.asks ensures YesOk(t, s.asks[t].stage, s'.answers) {
      assert YesOk(t, s.asks[t].stage, s.answers);
    }
  }

  lemma StepKeeps(s: State, e: Event, s': State)
    requires Inv(s) && Step(s, e) == Some(s')
    ensures Inv(s')
  {
    if e.Begin? {
      BeginKeeps(s, e.t, e.id, s');
    } else if e.Press? || e.Take? || e.Send? {
      AnswerKeeps(s, e, s');
    } else {
      AskKeeps(s, e, s');
    }
  }

  /** A run from the start: any interleaving. */
  ghost predicate Run(es: seq<Event>) {
    IsRun(Step, INITIAL, es)
  }

  ghost function End(es: seq<Event>): State
    requires Run(es)
  {
    After(Step, INITIAL, es)
  }

  /** The state `k` steps into a run. */
  ghost function At(es: seq<Event>, k: nat): State
    requires Run(es) && k <= |es|
  {
    Split(Step, INITIAL, es, k);
    After(Step, INITIAL, es[..k])
  }

  lemma InvHolds(es: seq<Event>)
    requires Run(es)
    ensures Inv(End(es))
  {
    forall s, e | Inv(s) && Step(s, e).Some? ensures Inv(Step(s, e).value) {
      StepKeeps(s, e, Step(s, e).value);
    }
    Always(Step, Inv, INITIAL, es);
  }

  // --- Every run -------------------------------------------------------------

  ghost predicate DistinctIds(s: State) {
    forall t, u | t in s.asks && u in s.asks && s.asks[t].id == s.asks[u].id :: t == u
  }

  /** What an event does to the state `k` steps into a run. */
  lemma AtNext(es: seq<Event>, k: nat)
    requires Run(es) && k < |es|
    ensures Step(At(es, k), es[k]) == Some(At(es, k + 1))
  {
    Split(Step, INITIAL, es, k + 1);
    Split(Step, INITIAL, es[..k + 1], k);
    assert es[..k + 1][..k] == es[..k] && es[..k + 1][k..] == [es[k]];
  }

  lemma AnswersStay(s: State, e: Event, s': State)
    requires Step(s, e) == Some(s')
    ensures forall a | a in s'.answers && !(e.Press? && e.a == a) ::
              a in s.answers && s'.answers[a].about == s.answers[a].about && s'.answers[a].yes == s.answers[a].yes
    ensures e.Press? ==> e.a in s'.answers && s'.answers[e.a].about == e.about && s'.answers[e.a].yes == e.yes
  {
  }

  /** Every answer there is says what the window was told, and about the ask it was told about. */
  lemma {:induction false} AnswersWereGiven(es: seq<Event>, k: nat)
    requires Run(es) && k <= |es|
    ensures forall a | a in At(es, k).answers :: Press(a, At(es, k).answers[a].about, At(es, k).answers[a].yes) in es[..k]
  {
    if k == 0 {
      assert es[..0] == [] && At(es, 0) == INITIAL;
    } else {
      AnswersWereGiven(es, k - 1);
      AtNext(es, k - 1);
      AnswersStay(At(es, k - 1), es[k - 1], At(es, k));
      assert es[..k] == es[..k - 1] + [es[k - 1]];
    }
  }

  /**
   * With distinct ids, a comment is posted, and an ask comes out as yes, only
   * on an answer that the window gave to that very confirmation, after showing
   * it, and that was yes.
   */
  lemma YesWasSaidToThisOne(es: seq<Event>, t: nat)
    requires Run(es) && DistinctIds(End(es))
    requires t in End(es).asks && End(es).asks[t].stage.IsYes()
    ensures var s := End(es);
            var used := s.asks[t].stage.Used();
            && used.Some? && used.value in s.answers
            && s.answers[used.value].about == t && s.answers[used.value].yes && s.asks[t].shown
            && Press(used.value, t, true) in es
  {
    InvHolds(es);
    AnswersWereGiven(es, |es|);
    assert es[..|es|] == es && At(es, |es|) == End(es);
    var s := End(es);
    assert YesOk(t, s.asks[t].stage, s.answers);
    assert AnswerOk(s.asks, s.answers[s.asks[t].stage.Used().value]);
  }

  /** Whatever the ids, no two asks come out as yes on one answer. */
  lemma NoAnswerServesTwice(es: seq<Event>, t: nat, u: nat)
    requires Run(es)
    requires t in End(es).asks && End(es).asks[t].stage.IsYes()
    requires u in End(es).asks && End(es).asks[u].stage.IsYes()
    requires End(es).asks[t].stage.Used() == End(es).asks[u].stage.Used()
    ensures t == u
  {
    InvHolds(es);
    var s := End(es);
    assert YesOk(t, s.asks[t].stage, s.answers) && YesOk(u, s.asks[u].stage, s.answers);
  }

  /** An ask that has ended, in whatever way, has left no sender behind. */
  lemma NoEntryOutlivesItsAsk(es: seq<Event>, t: nat)
    requires Run(es) && t in End(es).asks
    requires !End(es).asks[t].stage.IsListed()
    ensures forall id | id in End(es).confirmations :: End(es).confirmations[id] != t
    ensures DistinctIds(End(es)) ==>
              End(es).asks[t].id !in End(es).confirmations
  {
    InvHolds(es);
  }

  /** The ask has come out as yes. */
  predicate SaidYes(stage: Stage) {
    (stage.Returned? && stage.answer) || stage.Approved? || stage.Posted?
  }

  /** Cancelled while the last look at the flag is still to come: that of the ask, or that of whoever asked. */
  ghost predicate CancelledInTime(s: State, t: nat, ofTheAsk: bool) {
    && t in s.asks && s.asks[t].cancel && !s.asks[t].stage.Approved? && !s.asks[t].stage.Posted?
    && (ofTheAsk ==> !SaidYes(s.asks[t].stage))
  }

  /**
   * A cancel always wins over any answer when it comes before the last check:
   * before the ask's, the ask does not come out as yes, and before the last of
   * all, nothing is posted.
   */
  lemma CancelWins(es: seq<Event>, k: nat, t: nat, ofTheAsk: bool)
    requires Run(es) && k < |es| && es[k] == Cancel(t) && t in At(es, k).asks
    requires !At(es, k).asks[t].stage.Approved? && !At(es, k).asks[t].stage.Posted?
    requires ofTheAsk ==> !SaidYes(At(es, k).asks[t].stage)
    ensures t in End(es).asks && !End(es).asks[t].stage.Posted?
    ensures ofTheAsk ==> !SaidYes(End(es).asks[t].stage)
  {
    AtNext(es, k);
    Split(Step, INITIAL, es, k + 1);
    var inv := s => CancelledInTime(s, t, ofTheAsk);
    forall s, e | inv(s) && Step(s, e).Some? ensures inv(Step(s, e).value) {
      CancelLasts(s, e, t, ofTheAsk, Step(s, e).value);
    }
    Always(Step, inv, At(es, k + 1), es[k + 1..]);
  }

  /** It has brought nothing yet. */
  predicate IsOpen(stage: Stage) {
    stage.Listed? || stage.Polling? || stage.Checked?
  }

  /** Late while it waits, or over without a yes. */
  ghost predicate TooLate(s: State, t: nat) {
    && t in s.asks && !s.asks[t].stage.IsYes()
    && (s.asks[t].stage.Listed? || s.asks[t].stage.Polling? ==> s.asks[t].late) && !s.asks[t].stage.Checked?
  }

  lemma LateLasts(s: State, e: Event, t: nat, s': State)
    requires TooLate(s, t) && Step(s, e) == Some(s')
    ensures TooLate(s', t)
  {
  }

  /**
   * When the time is up before an ask looks for an answer again, or when it
   * cannot be shown at all, no answer makes it a yes any more.
   */
  lemma LateIsNo(es: seq<Event>, k: nat, t: nat)
    requires Run(es) && k < |es| && (es[k] == Expire(t) || es[k] == Show(t, false)) && t in At(es, k).asks
    requires es[k] == Expire(t) ==> At(es, k).asks[t].stage.Listed? || At(es, k).asks[t].stage.Polling?
    ensures es[k] == Show(t, false) ==> t in At(es, k + 1).asks && !IsOpen(At(es, k + 1).asks[t].stage)
    ensures t in End(es).asks && !End(es).asks[t].stage.IsYes()
  {
    AtNext(es, k);
    Split(Step, INITIAL, es, k + 1);
    var inv := s => TooLate(s, t);
    forall s, e | inv(s) && Step(s, e).Some? ensures inv(Step(s, e).value) {
      LateLasts(s, e, t, Step(s, e).value);
    }
    Always(Step, inv, At(es, k + 1), es[k + 1..]);
  }

  lemma CancelLasts(s: State, e: Event, t: nat, ofTheAsk: bool, s': State)
    requires CancelledInTime(s, t, ofTheAsk) && Step(s, e) == Some(s')
    ensures CancelledInTime(s', t, ofTheAsk)
  {
  }

  /** A yes has reached `t` in time, and nobody has cancelled it. */
  ghost predicate IsHeard(s: State, t: nat, a: nat) {
    && t in s.asks && !s.asks[t].cancel && a in s.answers && s.answers[a].yes
    && match s.asks[t].stage
       case Polling => !s.asks[t].late && t in s.boxes && s.boxes[t] != [] && s.boxes[t][0] == a
       case Checked => t in s.boxes && s.boxes[t] != [] && s.boxes[t][0] == a
       case Declined => false
       case Cancelled => false
       case Listed => false
       case _ => s.asks[t].stage.IsYes() && s.asks[t].stage.Used() == Some(a)
  }

  lemma AnswersLeaveItHeard(s: State, e: Event, t: nat, a: nat, s': State)
    requires IsHeard(s, t, a) && Step(s, e) == Some(s') && (e.Begin? || e.Press? || e.Take? || e.Send?)
    ensures IsHeard(s', t, a)
  {
  }

  lemma AsksLeaveItHeard(s: State, e: Event, t: nat, a: nat, s': State)
    requires IsHeard(s, t, a) && Step(s, e) == Some(s') && !e.Begin? && !e.Press? && !e.Take? && !e.Send?
    requires e != Cancel(t) && e != Expire(t)
    ensures IsHeard(s', t, a)
  {
  }

  lemma HeardStaysHeard(s: State, e: Event, t: nat, a: nat, s': State)
    requires IsHeard(s, t, a) && Step(s, e) == Some(s') && e != Cancel(t) && e != Expire(t)
    ensures IsHeard(s', t, a)
  {
    if e.Begin? || e.Press? || e.Take? || e.Send? {
      AnswersLeaveItHeard(s, e, t, a, s');
    } else {
      AsksLeaveItHeard(s, e, t, a, s');
    }
  }

  /**
   * Once a yes has reached an ask in time, every way of going on in which the
   * ask is neither cancelled nor late leads to the comment, and to nothing
   * else: if it is over, it was posted, on that answer.
   */
  lemma {:induction false} YesIsHeard(s: State, es: seq<Event>, t: nat, a: nat)
    requires IsRun(Step, s, es) && IsHeard(s, t, a) && Cancel(t) !in es && Expire(t) !in es
    ensures IsHeard(After(Step, s, es), t, a)
    ensures After(Step, s, es).asks[t].stage.IsOver() ==> After(Step, s, es).asks[t].stage == Posted(Some(a))
    decreases |es|
  {
    if es != [] {
      assert es[0] in es && forall e | e in es[1..] :: e in es;
      HeardStaysHeard(s, es[0], t, a, Step(s, es[0]).value);
      YesIsHeard(Step(s, es[0]).value, es[1..], t, a);
    }
  }

  /** An ask that a yes has reached in time can go on by its own steps until the comment is posted. */
  lemma YesCanBePosted(s: State, t: nat, a: nat) returns (es: seq<Event>)
    requires t in s.asks && s.asks[t].stage.Polling? && !s.asks[t].cancel && !s.asks[t].late
    requires t in s.boxes && s.boxes[t] != [] && s.boxes[t][0] == a && a in s.answers && s.answers[a].yes
    ensures IsRun(Step, s, es) && After(Step, s, es).answers == s.answers && forall e | e in es :: !e.Begin?
    ensures t in After(Step, s, es).asks && After(Step, s, es).asks[t].stage == Posted(Some(a))
  {
    var s1 := To(s, t, Checked);
    assert Step(s, Check(t)) == Some(s1);
    var s2 := To(s1.(boxes := s1.boxes[t := s1.boxes[t][1..]]), t, Ending(true, Some(a)));
    assert Step(s1, Receive(t)) == Some(s2);
    es := EndingIsPosted(s2, t, a);
    First(Step, s1, Receive(t), s2, es);
    First(Step, s, Check(t), s1, [Receive(t)] + es);
    es := [Check(t)] + ([Receive(t)] + es);
  }

  lemma EndingIsPosted(s: State, t: nat, a: nat) returns (es: seq<Event>)
    requires t in s.asks && s.asks[t].stage == Ending(true, Some(a)) && !s.asks[t].cancel
    ensures IsRun(Step, s, es) && After(Step, s, es).answers == s.answers && forall e | e in es :: !e.Begin?
    ensures t in After(Step, s, es).asks && After(Step, s, es).asks[t].stage == Posted(Some(a))
  {
    var s1 := To(s.(confirmations := s.confirmations - {s.asks[t].id}), t, Unlisted(true, Some(a)));
    var s2 := To(s1, t, Returned(true, Some(a)));
    var s3 := To(s2, t, Approved(Some(a)));
    var s4 := To(s3, t, Posted(Some(a)));
    assert Step(s, Unlist(t)) == Some(s1) && Step(s1, Return(t)) == Some(s2);
    assert Step(s2, Decide(t)) == Some(s3) && Step(s3, Post(t)) == Some(s4);
    First(Step, s3, Post(t), s4, []);
    First(Step, s2, Decide(t), s3, [Post(t)] + []);
    First(Step, s1, Return(t), s2, [Decide(t)] + ([Post(t)] + []));
    First(Step, s, Unlist(t), s1, [Return(t)] + ([Decide(t)] + ([Post(t)] + [])));
    es := [Unlist(t)] + ([Return(t)] + ([Decide(t)] + ([Post(t)] + [])));
  }

  /**
   * Two asks in one nanosecond share their id, and then, whichever two they
   * are, a yes to one can post the other: nothing checks that ids are distinct.
   */
  lemma SharedIdMisleads(t: nat, u: nat, id: string) returns (es: seq<Event>)
    requires t != u
    ensures Run(es) && forall e | e in es && e.Begin? :: e.id == id && (e.t == t || e.t == u)
    ensures 0 in End(es).answers && End(es).answers[0].about == t
    ensures u in End(es).asks && End(es).asks[u].stage == Posted(Some(0))
  {
    var c := Ask(id, Polling, false, false, true);
    var begun := c.(stage := Listed, shown := false);
    var s1 := INITIAL.(asks := INITIAL.asks[t := begun], confirmations := INITIAL.confirmations[id := t]);
    var s2 := s1.(asks := s1.asks[t := c]);
    var s3 := s2.(asks := s2.asks[u := begun], confirmations := s2.confirmations[id := u]);
    var s4 := s3.(asks := s3.asks[u := c]);
    assert Step(INITIAL, Begin(t, id)) == Some(s1) && Step(s1, Show(t, true)) == Some(s2);
    assert Step(s2, Begin(u, id)) == Some(s3) && Step(s3, Show(u, true)) == Some(s4);
    es := YesGoesToTheOther(s4, t, u, 0);
    First(Step, s3, Show(u, true), s4, es);
    First(Step, s2, Begin(u, id), s3, [Show(u, true)] + es);
    First(Step, s1, Show(t, true), s2, [Begin(u, id)] + ([Show(u, true)] + es));
    First(Step, INITIAL, Begin(t, id), s1, [Show(t, true)] + ([Begin(u, id)] + ([Show(u, true)] + es)));
    es := [Begin(t, id)] + ([Show(t, true)] + ([Begin(u, id)] + ([Show(u, true)] + es)));
  }

  /** Every ask of the run has the id it is given. */
  ghost predicate Gives(es: seq<Event>, ids: nat -> string) {
    forall e | e in es && e.Begin? :: e.id == ids(e.t)
  }

  /** Some ask comes out as yes on an answer that was about another. */
  ghost predicate Misleads(s: State) {
    exists t | t in s.asks && s.asks[t].stage.IsYes() ::
      var used := s.asks[t].stage.Used(); used.Some? && used.value in s.answers && s.answers[used.value].about != t
  }

  lemma {:induction false} IdsAreGiven(s: State, es: seq<Event>, ids: nat -> string)
    requires IsRun(Step, s, es) && Gives(es, ids) && forall t | t in s.asks :: s.asks[t].id == ids(t)
    ensures forall t | t in After(Step, s, es).asks :: After(Step, s, es).asks[t].id == ids(t)
    decreases |es|
  {
    if es != [] {
      assert es[0] in es && forall e | e in es[1..] :: e in es;
      IdIsGiven(s, es[0], ids, Step(s, es[0]).value);
      IdsAreGiven(Step(s, es[0]).value, es[1..], ids);
    }
  }

  lemma NoIdChanges(s: State, e: Event, s': State)
    requires Step(s, e) == Some(s') && !e.Begin? && !e.Press? && !e.Take? && !e.Send?
    ensures e.t in s.asks && e.t in s'.asks && s'.asks[e.t].id == s.asks[e.t].id
    ensures s'.asks == s.asks[e.t := s'.asks[e.t]]
  {
  }

  lemma IdIsGiven(s: State, e: Event, ids: nat -> string, s': State)
    requires Step(s, e) == Some(s') && (forall t | t in s.asks :: s.asks[t].id == ids(t)) && (e.Begin? ==> e.id == ids(e.t))
    ensures forall t | t in s'.asks :: s'.asks[t].id == ids(t)
  {
    if !e.Begin? && !e.Press? && !e.Take? && !e.Send? {
      NoIdChanges(s, e, s');
    }
  }

  /** However ids are given to asks: no run misleads exactly when no two asks are given one. */
  lemma DistinctIdsAreWhatItTakes(ids: nat -> string)
    ensures (forall es | Run(es) && Gives(es, ids) :: !Misleads(End(es))) <==> forall t, u :: ids(t) == ids(u) ==> t == u
  {
    if forall t, u :: ids(t) == ids(u) ==> t == u {
      forall es | Run(es) && Gives(es, ids) ensures !Misleads(End(es)) {
        NoneMisleads(es, ids);
      }
    } else {
      var t, u :| ids(t) == ids(u) && t != u;
      var es := SharedIdMisleads(t, u, ids(t));
      assert Gives(es, ids) && End(es).asks[u].stage.IsYes();
      assert Misleads(End(es));
    }
  }

  lemma NoneMisleads(es: seq<Event>, ids: nat -> string)
    requires Run(es) && Gives(es, ids) && forall t, u :: ids(t) == ids(u) ==> t == u
    ensures !Misleads(End(es))
  {
    IdsAreGiven(INITIAL, es, ids);
    forall t | t in End(es).asks && End(es).asks[t].stage.IsYes()
      ensures var used := End(es).asks[t].stage.Used();
              used.Some? && used.value in End(es).answers && End(es).answers[used.value].about == t
    {
      YesWasSaidToThisOne(es, t);
    }
  }

  /** Where the map has the sender of `u` under the id of `t`, a yes to `t` posts `u`. */
  lemma YesGoesToTheOther(s: State, t: nat, u: nat, a: nat) returns (es: seq<Event>)
    requires t in s.asks && s.asks[t].shown && a !in s.answers
    requires s.asks[t].id in s.confirmations && s.confirmations[s.asks[t].id] == u && u !in s.boxes
    requires u in s.asks && s.asks[u].stage.Polling? && !s.asks[u].cancel && !s.asks[u].late
    ensures IsRun(Step, s, es) && forall e | e in es :: !e.Begin?
    ensures a in After(Step, s, es).answers && After(Step, s, es).answers[a].about == t
    ensures u in After(Step, s, es).asks && After(Step, s, es).asks[u].stage == Posted(Some(a))
  {
    var id := s.asks[t].id;
    var s1 := s.(answers := s.answers[a := Answer(t, id, true, Pressed)]);
    var s2 := s1.(answers := s1.answers[a := Answer(t, id, true, Took(u))], confirmations := s1.confirmations - {id});
    var s3 := s2.(answers := s2.answers[a := Answer(t, id, true, Sent(u))], boxes := s2.boxes[u := [] + [a]]);
    assert Step(s, Press(a, t, true)) == Some(s1) && Step(s1, Take(a)) == Some(s2) && Step(s2, Send(a)) == Some(s3);
    es := YesCanBePosted(s3, u, a);
    First(Step, s2, Send(a), s3, es);
    First(Step, s1, Take(a), s2, [Send(a)] + es);
    First(Step, s, Press(a, t, true), s1, [Take(a)] + ([Send(a)] + es));
    es := [Press(a, t, true)] + ([Take(a)] + ([Send(a)] + es));
  }

  // --- The polling loop, in the source's own form ----------------------------

  /** What a wait on the channel brings back. */
  datatype Received = Yes | No | Timeout | Gone

  /** One turn of the loop: the flag and the clock as they are read, and then what comes through the channel. */
  datatype Turn = Turn(cancel: bool, late: bool, received: Received)

  predicate Waits(turn: Turn) {
    !turn.cancel && !turn.late && turn.received.Timeout?
  }

  /** After `k` turns of waiting a yes comes, with the flag unset and the deadline not reached. */
  predicate YesAt(turns: seq<Turn>, k: nat) {
    && k < |turns| && !turns[k].cancel && !turns[k].late && turns[k].received.Yes?
    && forall i | 0 <= i < k :: Waits(turns[i])
  }

  ghost predicate SaysYes(turns: seq<Turn>) {
    exists k: nat :: YesAt(turns, k)
  }

  /** What a receive of ask `t` brings. */
  function Met(s: State, t: nat): Received {
    if t in s.boxes && s.boxes[t] != [] && s.boxes[t][0] in s.answers then
      if s.answers[s.boxes[t][0]].yes then Yes else No
    else if Disconnected(s, t) then Gone
    else Timeout
  }

  /** The turn that `e` is for ask `t`, if it is one: a check that stops it, or a receive. */
  function TurnBy(s: State, e: Event, t: nat): seq<Turn>
    requires t in s.asks
  {
    if e == Check(t) && (s.asks[t].cancel || s.asks[t].late) then [Turn(s.asks[t].cancel, s.asks[t].late, Timeout)]
    else if e == Receive(t) then [Turn(false, false, Met(s, t))]
    else []
  }

  /** The turns that ask `t` takes in a run. */
  function TurnsOf(s: State, es: seq<Event>, t: nat): seq<Turn>
    requires IsRun(Step, s, es) && t in s.asks
    decreases |es|
  {
    if es == [] then [] else TurnBy(s, es[0], t) + TurnsOf(Step(s, es[0]).value, es[1..], t)
  }

  /**
   * What turns leave an ask with. While it is open they were all waits; then
   * its answer is what they said, and no once it is cancelled; it is approved
   * or posted only when they said yes, declined only when they did not, and
   * cancelled only when it was.
   */
  ghost predicate TurnsLeave(c: Ask, turns: seq<Turn>) {
    match c.stage
    case Listed => turns == []
    case Polling => forall i | 0 <= i < |turns| :: Waits(turns[i])
    case Checked => forall i | 0 <= i < |turns| :: Waits(turns[i])
    case Ending(answer, _) => answer <==> SaysYes(turns)
    case Unlisted(answer, _) => answer <==> SaysYes(turns)
    case Returned(answer, _) => (answer ==> SaysYes(turns)) && (!answer ==> c.cancel || !SaysYes(turns))
    case Approved(_) => SaysYes(turns)
    case Posted(_) => SaysYes(turns)
    case Declined => !SaysYes(turns)
    case Cancelled => c.cancel
  }

  lemma LaterStep(s: State, e: Event, t: nat, turns: seq<Turn>, s': State)
    requires Step(s, e) == Some(s') && t in s.asks && !IsOpen(s.asks[t].stage) && TurnsLeave(s.asks[t], turns)
    ensures e != Check(t) && e != Receive(t)
    ensures t in s'.asks && !IsOpen(s'.asks[t].stage) && TurnsLeave(s'.asks[t], turns)
  {
  }

  lemma {:induction false} LaterSteps(s: State, es: seq<Event>, t: nat, turns: seq<Turn>)
    requires IsRun(Step, s, es) && t in s.asks && !IsOpen(s.asks[t].stage) && TurnsLeave(s.asks[t], turns)
    ensures TurnsOf(s, es, t) == []
    ensures t in After(Step, s, es).asks && TurnsLeave(After(Step, s, es).asks[t], turns)
    ensures !IsOpen(After(Step, s, es).asks[t].stage)
    decreases |es|
  {
    if es != [] {
      LaterStep(s, es[0], t, turns, Step(s, es[0]).value);
      LaterSteps(Step(s, es[0]).value, es[1..], t, turns);
    }
  }

  lemma OpenStep(s: State, e: Event, t: nat, s': State)
    requires Step(s, e) == Some(s') && t in s.asks && IsOpen(s.asks[t].stage)
    ensures t in s'.asks
    ensures e == Check(t) && (s.asks[t].cancel || s.asks[t].late) ==> s'.asks[t].stage == Ending(false, None)
    ensures e == Receive(t) ==>
              if Met(s, t).Timeout? then s'.asks[t].stage.Polling?
              else s'.asks[t].stage.Ending? && (s'.asks[t].stage.answer <==> Met(s, t).Yes?)
    ensures e != Receive(t) && !(e == Check(t) && (s.asks[t].cancel || s.asks[t].late)) ==>
              IsOpen(s'.asks[t].stage) || s'.asks[t].stage == Ending(false, None)
    ensures IsOpen(s'.asks[t].stage) && e != Receive(t) ==> (s'.asks[t].stage.Listed? ==> s.asks[t].stage.Listed?)
  {
  }

  lemma OneTurnLeaves(turn: Turn, c: Ask)
    requires c.stage.Ending? && !Waits(turn) && (c.stage.answer <==> !turn.cancel && !turn.late && turn.received.Yes?)
    ensures TurnsLeave(c, [turn])
  {
    assert YesAt([turn], 0) <==> !turn.cancel && !turn.late && turn.received.Yes?;
  }

  lemma WaitingFirst(turn: Turn, rest: seq<Turn>, c: Ask)
    requires Waits(turn) && TurnsLeave(c, rest) && !c.stage.Listed?
    ensures TurnsLeave(c, [turn] + rest)
  {
    var turns := [turn] + rest;
    assert forall i | 0 <= i < |rest| :: turns[i + 1] == rest[i];
    if k: nat :| YesAt(rest, k) {
      assert YesAt(turns, k + 1);
    }
    if k: nat :| YesAt(turns, k) {
      assert YesAt(rest, k - 1);
    }
  }

  /** A turn that leaves it open was a wait. */
  lemma StaysOpen(s: State, e: Event, t: nat, s': State, rest: seq<Turn>, c: Ask)
    requires Step(s, e) == Some(s') && t in s.asks && IsOpen(s.asks[t].stage)
    requires t in s'.asks && IsOpen(s'.asks[t].stage)
    requires TurnsLeave(c, rest) && (!s'.asks[t].stage.Listed? ==> !c.stage.Listed?)
    ensures TurnsLeave(c, TurnBy(s, e, t) + rest) && (!s.asks[t].stage.Listed? ==> !c.stage.Listed?)
  {
    OpenStep(s, e, t, s');
    if e == Receive(t) {
      WaitingFirst(Turn(false, false, Timeout), rest, c);
    } else {
      assert TurnBy(s, e, t) + rest == rest;
    }
  }

  lemma LeavesTheLoop(s: State, e: Event, t: nat, s': State)
    requires Step(s, e) == Some(s') && t in s.asks && IsOpen(s.asks[t].stage)
    requires t in s'.asks && !IsOpen(s'.asks[t].stage)
    ensures TurnsLeave(s'.asks[t], TurnBy(s, e, t))
  {
    OpenStep(s, e, t, s');
    if TurnBy(s, e, t) != [] {
      OneTurnLeaves(TurnBy(s, e, t)[0], s'.asks[t]);
    }
  }

  /** In every run, whatever else happens in it, an ask has come to what the turns it took leave it with. */
  lemma {:induction false} AsksComeOutAsTheirTurns(s: State, es: seq<Event>, t: nat)
    requires IsRun(Step, s, es) && t in s.asks && IsOpen(s.asks[t].stage)
    ensures t in After(Step, s, es).asks && TurnsLeave(After(Step, s, es).asks[t], TurnsOf(s, es, t))
    ensures !s.asks[t].stage.Listed? ==> !After(Step, s, es).asks[t].stage.Listed?
    decreases |es|
  {
    if es != [] {
      var e, s' := es[0], Step(s, es[0]).value;
      AskStays(s, e, t, s');
      if IsOpen(s'.asks[t].stage) {
        AsksComeOutAsTheirTurns(s', es[1..], t);
        StaysOpen(s, e, t, s', TurnsOf(s', es[1..], t), After(Step, s', es[1..]).asks[t]);
      } else {
        LeavesTheLoop(s, e, t, s');
        LaterSteps(s', es[1..], t, TurnBy(s, e, t));
        assert TurnBy(s, e, t) + [] == TurnBy(s, e, t);
      }
    }
  }

  lemma AskStays(s: State, e: Event, t: nat, s': State)
    requires Step(s, e) == Some(s') && t in s.asks
    ensures t in s'.asks && (IsOpen(s'.asks[t].stage) && !s.asks[t].stage.Listed? ==> !s'.asks[t].stage.Listed?)
    ensures !IsOpen(s'.asks[t].stage) ==> !s'.asks[t].stage.Listed?
  {
  }

  /** What the flag says at the last look of all decides, and then the answer: cancelled, approved and posted, or declined. */
  lemma LastLookDecides(es: seq<Event>, t: nat)
    requires Run(es) && t in End(es).asks && End(es).asks[t].stage.Returned?
    ensures Step(End(es), Decide(t)).Some? && t in Step(End(es), Decide(t)).value.asks
    ensures var c, now := End(es).asks[t], Step(End(es), Decide(t)).value.asks[t].stage;
            now == if c.cancel then Cancelled else if c.stage.answer then Approved(c.stage.used) else Declined
    ensures Step(Step(End(es), Decide(t)).value, Post(t)).Some? <==> !End(es).asks[t].cancel && End(es).asks[t].stage.answer
  {
  }

  /**
   * So an ask comes out of any run as it comes out of the method `Ask` below,
   * given the turns it took in the run and the flag as it was at the end.
   */
  lemma AskComesOutAsInEveryRun(s: State, es: seq<Event>, t: nat)
    requires IsRun(Step, s, es) && t in s.asks && IsOpen(s.asks[t].stage)
    requires t in After(Step, s, es).asks && After(Step, s, es).asks[t].stage.Unlisted?
    ensures var s' := After(Step, s, es);
            && Step(s', Return(t)).Some? && Step(s', Return(t)).value.asks[t].stage.Returned?
            && (Step(s', Return(t)).value.asks[t].stage.answer
                <==> !s'.asks[t].cancel && SaysYes(TurnsOf(s, es, t)))
  {
    AsksComeOutAsTheirTurns(s, es, t);
    UnlistedReturns(After(Step, s, es), t);
  }

  lemma UnlistedReturns(s: State, t: nat)
    requires t in s.asks && s.asks[t].stage.Unlisted?
    ensures Step(s, Return(t)).Some? && Step(s, Return(t)).value.asks[t].stage.Returned?
    ensures Step(s, Return(t)).value.asks[t].stage.answer <==> s.asks[t].stage.answer && !s.asks[t].cancel
  {
  }

  /** The map that is shared by all asks, from each id to the channel its answer goes to. */
  class Desktop {
    var confirmations: map<string, nat>

    constructor ()
      ensures confirmations == INITIAL.confirmations
    {
      confirmations := map[];
    }

    /**
     * Ask once. `shown` is whether the window could be told, `turns` what each
     * turn of the loop meets before the deadline, `cancel` the flag at the end.
     */
    method Ask(id: string, channel: nat, shown: bool, turns: seq<Turn>, cancel: bool) returns (approved: bool)
      modifies this
      ensures confirmations == old(confirmations) - {id}
      ensures approved <==> shown && !cancel && SaysYes(turns)
    {
      confirmations := confirmations[id := channel];
      if !shown {
        confirmations := confirmations - {id};
        return false;
      }
      var answer, i := false, 0;
      while i < |turns|
        invariant 0 <= i <= |turns| && forall j | 0 <= j < i :: Waits(turns[j])
      {
        if turns[i].cancel || turns[i].late {
          break;
        }
        match turns[i].received {
          case Yes =>
            answer := true;
            assert YesAt(turns, i);
            break;
          case No => break;
          case Gone => break;
          case Timeout =>
        }
        i := i + 1;
      }
      confirmations := confirmations - {id};
      approved := answer && !cancel;
    }

    /** The window's answer: whose channel it goes to, if anyone is still listed under that id. */
    method Confirm(id: string) returns (channel: Option<nat>)
      modifies this
      ensures confirmations == old(confirmations) - {id}
      ensures channel == if id in old(confirmations) then Some(old(confirmations)[id]) else None
      ensures forall s: State, a: nat | s.confirmations == old(confirmations) && a in s.answers
                            && s.answers[a].stage.Pressed? && s.answers[a].id == id ::
                var s' := Step(s, Take(a)).value;
                && s'.confirmations == confirmations
                && s'.answers[a].stage == if channel.Some? then Took(channel.value) else Missed
    {
      channel := None;
      if id in confirmations {
        channel := Some(confirmations[id]);
        confirmations := confirmations - {id};
      }
    }
  }
}
