/**
 * Tokens counted against an agent's day (src-tauri/src/agents.rs). The list
 * keeps one number and one day per agent; next to it the model keeps the
 * whole book of what was counted when, and shows what the pair says about it.
 */
module Spending {
  import opened Wrappers
  import opened Runs
  import opened MachineList

  datatype Line = Line(day: nat, tokens: nat)

  /** Everything in `book` for `day`. */
  function SumOn(book: seq<Line>, day: nat): nat {
    if book == [] then 0
    else SumOn(book[..|book| - 1], day) + if book[|book| - 1].day == day then book[|book| - 1].tokens else 0
  }

  lemma SumOnAppends(book: seq<Line>, l: Line, day: nat)
    ensures SumOn(book + [l], day) == SumOn(book, day) + if l.day == day then l.tokens else 0
  {
    assert (book + [l])[..|book|] == book;
  }

  lemma {:induction false} NothingOn(book: seq<Line>, day: nat)
    requires forall l | l in book :: l.day == day ==> l.tokens == 0
    ensures SumOn(book, day) == 0
  {
    if book != [] {
      NothingOn(book[..|book| - 1], day);
    }
  }

  // --- One agent, whatever its clock does ------------------------------------

  /** An agent saved for the first time and then counted against, line by line. */
  function CountedAll(r: RemoteAgent, book: seq<Line>): RemoteAgent {
    if book == [] then r
    else Counted(CountedAll(r, book[..|book| - 1]), book[|book| - 1].day, book[|book| - 1].tokens)
  }

  /** From line `i` on, the book is all for one day. */
  predicate OneDayFrom(book: seq<Line>, i: nat, day: nat) {
    forall k | i <= k < |book| :: book[k].day == day
  }

  /** The clock never came back to the last day with tokens already on it. */
  ghost predicate NeverReturns(book: seq<Line>) {
    book != [] ==>
      forall i, j | 0 <= i < j < |book| && book[j].day != book[|book| - 1].day && book[i].day == book[|book| - 1].day ::
        book[i].tokens == 0
  }

  /** `spent` only ever leaves tokens out, and counts them all exactly when the clock never came back. */
  lemma CountIsTheDaysSum(r: RemoteAgent, book: seq<Line>)
    requires r.spent == 0 && book != []
    ensures CountedAll(r, book).spentDay == book[|book| - 1].day
    ensures CountedAll(r, book).spent <= SumOn(book, book[|book| - 1].day)
    ensures CountedAll(r, book).spent == SumOn(book, book[|book| - 1].day) <==> NeverReturns(book)
  {
    var day := book[|book| - 1].day;
    var i := LastStretch(r, book);
    SumOnSplits(book, i, day);
    if NeverReturns(book) {
      if i > 0 {
        forall l | l in book[..i] ensures l.day == day ==> l.tokens == 0 {
          var k :| 0 <= k < i && book[k] == l;
          assert k < i - 1 || book[i - 1].day != day;
        }
      }
      NothingOn(book[..i], day);
    } else {
      var k, j :| 0 <= k < j < |book| && book[j].day != day && book[k].day == day && book[k].tokens != 0;
      assert j < i;
      SomethingOn(book[..i], k);
    }
  }

  lemma {:induction false} SomethingOn(book: seq<Line>, k: nat)
    requires k < |book|
    ensures SumOn(book, book[k].day) >= book[k].tokens
  {
    if k < |book| - 1 {
      SomethingOn(book[..|book| - 1], k);
    }
  }

  lemma {:induction false} SumOnSplits(book: seq<Line>, i: nat, day: nat)
    requires i <= |book|
    ensures SumOn(book, day) == SumOn(book[..i], day) + SumOn(book[i..], day)
  {
    if i < |book| {
      SumOnSplits(book[..|book| - 1], i, day);
      assert book[..|book| - 1][..i] == book[..i];
      assert book[i..][..|book[i..]| - 1] == book[..|book| - 1][i..];
    } else {
      assert book[..i] == book && book[i..] == [];
    }
  }

  lemma StretchGrows(book: seq<Line>, i: nat)
    requires book != [] && i < |book| - 1 && OneDayFrom(book[..|book| - 1], i, book[|book| - 1].day)
    ensures OneDayFrom(book, i, book[|book| - 1].day) && (i > 0 ==> book[i - 1] == book[..|book| - 1][i - 1])
    ensures var last := book[|book| - 1];
            SumOn(book[i..], last.day) == SumOn(book[..|book| - 1][i..], last.day) + last.tokens
  {
    var before, last := book[..|book| - 1], book[|book| - 1];
    assert forall k | 0 <= k < |before| :: before[k] == book[k];
    assert book[i..] == before[i..] + [last];
    SumOnAppends(before[i..], last, last.day);
  }

  /** Where the last stretch of lines on one day begins: `spent` is what that stretch adds up to. */
  lemma {:induction false} LastStretch(r: RemoteAgent, book: seq<Line>) returns (i: nat)
    requires r.spent == 0 && book != []
    ensures i < |book| && OneDayFrom(book, i, book[|book| - 1].day)
    ensures i > 0 ==> book[i - 1].day != book[|book| - 1].day
    ensures CountedAll(r, book).spentDay == book[|book| - 1].day
    ensures CountedAll(r, book).spent == SumOn(book[i..], book[|book| - 1].day)
  {
    var before, last := book[..|book| - 1], book[|book| - 1];
    assert CountedAll(r, book) == Counted(CountedAll(r, before), last.day, last.tokens);
    if before != [] && before[|before| - 1].day == last.day {
      i := LastStretch(r, before);
      StretchGrows(book, i);
    } else {
      if before != [] {
        var _ := LastStretch(r, before);
        assert book[|book| - 2] == before[|before| - 1];
      }
      i := |book| - 1;
      assert book[i..] == [] + [last];
      SumOnAppends([], last, last.day);
    }
  }

  // --- What is left of a day -------------------------------------------------

  const ASK_TOKENS := 2000

  function Least(a: nat, b: nat): nat {
    if a <= b then a else b
  }

  /** What is left of `perDay`, as the pair kept with the agent says. */
  function Left(perDay: nat, spent: nat, spentDay: nat, today: nat): nat {
    var counted := if spentDay == today then spent else 0;
    if counted >= perDay then 0 else perDay - counted
  }

  /** The tokens a run is started with, when it may start; none within is no limit. */
  function StartLimit(r: RemoteAgent, today: nat): Option<Option<nat>> {
    if r.perDay.None? then Some(r.perRun)
    else
      var left := Left(r.perDay.value, r.spent, r.spentDay, today);
      if left == 0 then None
      else Some(Some(if r.perRun.Some? then Least(r.perRun.value, left) else left))
  }

  /** The tokens a question may be answered in, when it may be asked. */
  function AskAllowance(perDay: Option<nat>, spent: nat, spentDay: nat, today: nat): Option<nat> {
    if perDay.None? then Some(ASK_TOKENS)
    else
      var left := Left(perDay.value, spent, spentDay, today);
      if left == 0 then None else Some(Least(left, ASK_TOKENS))
  }

  /** The pair kept with an agent says what its book says, on a clock that has reached `today`. */
  ghost predicate Refines(r: RemoteAgent, book: seq<Line>, today: nat) {
    && r.spentDay <= today
    && (forall l | l in book :: l.day <= r.spentDay)
    && r.spent == SumOn(book, r.spentDay)
  }

  /** The most that can be counted on `today` without going over `perDay`. */
  ghost predicate IsRoom(n: nat, perDay: nat, book: seq<Line>, today: nat) {
    if SumOn(book, today) >= perDay then n == 0 else SumOn(book, today) + n == perDay
  }

  /** What the code takes to be left is what the book leaves, today and after any number of midnights. */
  lemma LeftIsRoom(r: RemoteAgent, book: seq<Line>, today: nat, perDay: nat)
    requires Refines(r, book, today)
    ensures IsRoom(Left(perDay, r.spent, r.spentDay, today), perDay, book, today)
  {
    if r.spentDay != today {
      NothingOn(book, today);
    }
  }

  /** There is a daily limit, and the book has used it up. */
  ghost predicate IsUsedUp(r: RemoteAgent, book: seq<Line>, today: nat) {
    r.perDay.Some? && SumOn(book, today) >= r.perDay.value
  }

  /** The least of the limit per run and of what the book leaves of the day, each where it is set; none where neither is. */
  ghost predicate IsTheLeast(r: RemoteAgent, book: seq<Line>, today: nat, limit: Option<nat>) {
    && (limit.None? <==> r.perRun.None? && r.perDay.None?)
    && (limit.Some? ==>
          && (r.perRun.Some? ==> limit.value <= r.perRun.value)
          && (r.perDay.Some? ==> SumOn(book, today) + limit.value <= r.perDay.value)
          && (limit == r.perRun || (r.perDay.Some? && SumOn(book, today) + limit.value == r.perDay.value)))
  }

  /** Whatever limits an agent has, a start of it is refused exactly when its day is used up, and gets the least of them otherwise. */
  lemma StartsWithinTheBook(r: RemoteAgent, book: seq<Line>, today: nat)
    requires Refines(r, book, today)
    ensures StartLimit(r, today).None? <==> IsUsedUp(r, book, today)
    ensures StartLimit(r, today).Some? ==> IsTheLeast(r, book, today, StartLimit(r, today).value)
  {
    if r.perDay.Some? {
      LeftIsRoom(r, book, today, r.perDay.value);
    }
  }

  lemma AsksWithinTheBook(r: RemoteAgent, book: seq<Line>, today: nat)
    requires Refines(r, book, today)
    ensures AskAllowance(r.perDay, r.spent, r.spentDay, today).None? <==>
              r.perDay.Some? && SumOn(book, today) >= r.perDay.value
    ensures AskAllowance(r.perDay, r.spent, r.spentDay, today).Some? ==>
              var n := AskAllowance(r.perDay, r.spent, r.spentDay, today).value;
              && n <= ASK_TOKENS
              && (r.perDay.Some? ==> SumOn(book, today) + n <= r.perDay.value)
              && (n == ASK_TOKENS || n == r.perDay.value - SumOn(book, today))
  {
    if r.perDay.Some? {
      LeftIsRoom(r, book, today, r.perDay.value);
    }
  }

  /** Any agent whose day has been reached has a book it refines: the one line it remembers. */
  lemma SomeBookIsRefined(r: RemoteAgent, today: nat)
    requires r.spentDay <= today
    ensures Refines(r, [Line(r.spentDay, r.spent)], today)
  {
    SumOnAppends([], Line(r.spentDay, r.spent), r.spentDay);
  }

  lemma {:induction false} FindsIt(remote: seq<RemoteAgent>, r: RemoteAgent)
    requires DistinctIds(remote) && r in remote
    ensures Find(remote, r.id) == Some(r)
  {
    if remote[0] != r {
      assert r in remote[1..];
      var i :| 0 <= i < |remote[1..]| && remote[1..][i] == r;
      assert remote[0].id != remote[i + 1].id;
      FindsIt(remote[1..], r);
    }
  }

  lemma CountedRefines(r: RemoteAgent, book: seq<Line>, today: nat, tokens: nat)
    requires Refines(r, book, today)
    ensures Refines(Counted(r, today, tokens), book + [Line(today, tokens)], today)
  {
    SumOnAppends(book, Line(today, tokens), today);
    if r.spentDay != today {
      NothingOn(book, today);
    }
  }

  // --- The list, its agents' books, and the runs that count against them -----

  /** A run goes on, is over with the tokens its record has by then, or is settled: they are counted. */
  datatype Progress = Running | Over(tokens: nat) | Settled(tokens: nat)

  /**
   * A run: the agent that does it, the tokens it was started with, the run it
   * carries on, and the tokens its record had `before` from that. One with no
   * limit is never counted.
   */
  datatype Going = Going(id: string, limit: Option<nat>, carries: Option<nat>, before: nat, progress: Progress)

  datatype State = State(machine: Machine, books: map<string, seq<Line>>, runs: seq<Going>, today: nat)

  /** The keeper of a run's tokens looks every two seconds, so a run is over some time before it is counted. */
  datatype Event =
    | Edited(edit: Edit)
    | Start(id: string, carries: Option<nat>)
    | End(run: nat, used: nat)
    | Count(run: nat)
    | Answered(id: string, tokens: nat)
    | Reach(day: nat)

  function Record(s: State, id: string, tokens: nat): State {
    s.(machine := Applied(s.machine, Edit.Record(id, s.today, tokens)).value,
       books := if Find(s.machine.remote, id).Some? && id in s.books
                then s.books[id := s.books[id] + [Line(s.today, tokens)]] else s.books)
  }

  function Closed(r: Going): Going
    requires !r.progress.Running?
  {
    r.(progress := Settled(r.progress.tokens))
  }

  /** The run that is carried on is over, and the same agent's. */
  predicate CanCarry(runs: seq<Going>, id: string, carries: Option<nat>) {
    carries.Some? ==>
      carries.value < |runs| && runs[carries.value].id == id && !runs[carries.value].progress.Running?
  }

  /** A run that is starting. Its record keeps the tokens of the one it carries on. */
  function Started(runs: seq<Going>, id: string, limit: Option<nat>, carries: Option<nat>): Going
    requires CanCarry(runs, id, carries)
  {
    Going(id, limit, carries, if carries.Some? then runs[carries.value].progress.tokens else 0, Running)
  }

  function CountRun(s: State, run: nat): State
    requires run < |s.runs| && s.runs[run].progress.Over?
  {
    Record(s.(runs := s.runs[run := Closed(s.runs[run])]), s.runs[run].id, s.runs[run].progress.tokens)
  }

  function Step(s: State, e: Event): Option<State> {
    match e
    case Edited(edit) =>
      if edit.Record? || Applied(s.machine, edit).None? then None
      else
        var opens := edit.SaveRemote? && Find(s.machine.remote, IdFor(s.machine.remote, edit.input)).None?;
        Some(s.(machine := Applied(s.machine, edit).value,
                books := if opens then s.books[IdFor(s.machine.remote, edit.input) := []] else s.books))
    case Start(id, carries) =>
      var r := Find(s.machine.remote, id);
      if r.None? || StartLimit(r.value, s.today).None? || !CanCarry(s.runs, id, carries) then None
      else Some(s.(runs := s.runs + [Started(s.runs, id, StartLimit(r.value, s.today).value, carries)]))
    case End(run, used) =>
      if run >= |s.runs| || !s.runs[run].progress.Running? then None
      else Some(s.(runs := s.runs[run := s.runs[run].(progress := Over(s.runs[run].before + used))]))
    case Count(run) =>
      if run >= |s.runs| || !s.runs[run].progress.Over? || s.runs[run].limit.None? then None
      else Some(CountRun(s, run))
    case Answered(id, tokens) => Some(Record(s, id, tokens))
    case Reach(day) => if day < s.today then None else Some(s.(today := day))
  }

  ghost predicate AllRefine(remote: seq<RemoteAgent>, books: map<string, seq<Line>>, today: nat) {
    forall r | r in remote :: r.id in books && Refines(r, books[r.id], today)
  }

  ghost predicate Kept(s: State) {
    DistinctIds(s.machine.remote) && AllRefine(s.machine.remote, s.books, s.today)
  }

  lemma RecordKeeps(s: State, id: string, tokens: nat)
    requires Kept(s)
    ensures Kept(Record(s, id, tokens))
  {
    var remote, s' := s.machine.remote, Record(s, id, tokens);
    var f := (r: RemoteAgent) => Counted(r, s.today, tokens);
    EditKeepsIdsDistinct(s.machine, Edit.Record(id, s.today, tokens));
    ChangedOnlyThere(remote, id, f);
    FindFinds(remote, id);
    forall r | r in s'.machine.remote ensures r.id in s'.books && Refines(r, s'.books[r.id], s.today) {
      var i :| 0 <= i < |remote| && s'.machine.remote[i] == r;
      assert remote[i] in remote;
      CountedRefines(remote[i], s.books[remote[i].id], s.today, tokens);
    }
  }

  lemma SaveKeeps(s: State, input: RemoteInput, s': State)
    requires Kept(s) && Step(s, Edited(SaveRemote(input))) == Some(s')
    ensures Kept(s')
  {
    var remote := s.machine.remote;
    var id := IdFor(remote, input);
    EditKeepsIdsDistinct(s.machine, SaveRemote(input));
    WithoutIsWithout(remote, id);
    FindFinds(remote, id);
    forall r | r in s'.machine.remote ensures r.id in s'.books && Refines(r, s'.books[r.id], s.today) {
      if r !in Without(remote, id) {
        assert r == SavedAs(remote, input);
      }
    }
  }

  lemma EditKeeps(s: State, e: Edit, s': State)
    requires Kept(s) && Step(s, Edited(e)) == Some(s') && !e.SaveRemote?
    ensures Kept(s')
  {
    var remote := s.machine.remote;
    EditKeepsIdsDistinct(s.machine, e);
    match e
    case SetJobs(id, jobs) =>
      var f := (r: RemoteAgent) => r.(jobs := jobs.(farm := false));
      ChangedOnlyThere(remote, id, f);
      if Find(remote, id).Some? {
        forall r | r in s'.machine.remote ensures r.id in s.books && Refines(r, s.books[r.id], s.today) {
          var i :| 0 <= i < |remote| && s'.machine.remote[i] == r;
          assert remote[i] in remote;
        }
      }
    case Remove(id) => WithoutIsWithout(remote, id);
    case SaveCustom(_) =>
    case Record(_, _, _) =>
  }

  lemma StepKeeps(s: State, e: Event, s': State)
    requires Kept(s) && Step(s, e) == Some(s')
    ensures Kept(s')
  {
    match e
    case Edited(edit) => if edit.SaveRemote? { SaveKeeps(s, edit.input, s'); } else { EditKeeps(s, edit, s'); }
    case Count(run) =>
      RecordKeeps(s.(runs := s.runs[run := Closed(s.runs[run])]), s.runs[run].id, s.runs[run].progress.tokens);
    case End(_, _) =>
    case Answered(id, tokens) => RecordKeeps(s, id, tokens);
    case Start(_, _) =>
    case Reach(_) =>
  }

  /** The one line that an agent remembers. */
  function Remembered(r: Option<RemoteAgent>): seq<Line> {
    if r.Some? then [Line(r.value.spentDay, r.value.spent)] else []
  }

  /** Any list whose days have been reached has books that its agents refine. */
  lemma AnyListIsKept(m: Machine, today: nat) returns (s: State)
    requires DistinctIds(m.remote) && forall r | r in m.remote :: r.spentDay <= today
    ensures Kept(s) && s.machine == m && s.runs == [] && s.today == today
  {
    var books := map r | r in m.remote :: r.id := Remembered(Find(m.remote, r.id));
    s := State(m, books, [], today);
    forall r | r in m.remote ensures r.id in books && Refines(r, books[r.id], today) {
      FindsIt(m.remote, r);
      SomeBookIsRefined(r, today);
    }
  }

  /** After any edits, runs, questions and midnights, every agent's pair is the sum of its book for its day. */
  lemma BooksAreKept(s: State, es: seq<Event>)
    requires Kept(s) && IsRun(Step, s, es)
    ensures Kept(After(Step, s, es))
  {
    forall s, e | Kept(s) && Step(s, e).Some? ensures Kept(Step(s, e).value) {
      StepKeeps(s, e, Step(s, e).value);
    }
    Always(Step, Kept, s, es);
  }

  /** The agent `id` is listed and has tokens left of its day. */
  ghost predicate MayStart(s: State, id: string) {
    exists r :: r in s.machine.remote && r.id == id && id in s.books && !IsUsedUp(r, s.books[id], s.today)
  }

  /** Run `k` is the agent's, and goes on no more. */
  predicate IsOverRunOf(runs: seq<Going>, id: string, k: nat) {
    k < |runs| && runs[k].id == id && (runs[k].progress.Over? || runs[k].progress.Settled?)
  }

  /** What a start adds to `s`: a run with the least of its agent's limits, and the tokens of the run it carries on. */
  ghost predicate Adds(s: State, id: string, carries: Option<nat>, run: Going)
    requires CanCarry(s.runs, id, carries)
  {
    && run.id == id && run.carries == carries && run.progress == Running
    && run.before == (if carries.Some? then s.runs[carries.value].progress.tokens else 0)
    && forall r | r in s.machine.remote && r.id == id && id in s.books :: IsTheLeast(r, s.books[id], s.today, run.limit)
  }

  /** At every moment of every run an agent that is listed can start exactly when its day is not used up, and this is what starts. */
  lemma StartIsAdmitted(s0: State, es: seq<Event>, id: string, carries: Option<nat>)
    requires Kept(s0) && IsRun(Step, s0, es)
    ensures var s := After(Step, s0, es);
            Step(s, Start(id, carries)).Some? <==> MayStart(s, id) && (carries.Some? ==> IsOverRunOf(s.runs, id, carries.value))
    ensures var s := After(Step, s0, es);
            Step(s, Start(id, carries)).Some? ==>
              var s' := Step(s, Start(id, carries)).value;
              && |s'.runs| == |s.runs| + 1 && s' == s.(runs := s.runs + [s'.runs[|s.runs|]])
              && Adds(s, id, carries, s'.runs[|s.runs|])
  {
    BooksAreKept(s0, es);
    var s := After(Step, s0, es);
    FindFinds(s.machine.remote, id);
    forall r | r in s.machine.remote && r.id == id
      ensures Find(s.machine.remote, id) == Some(r) && id in s.books
      ensures StartLimit(r, s.today).None? <==> IsUsedUp(r, s.books[id], s.today)
      ensures StartLimit(r, s.today).Some? ==> IsTheLeast(r, s.books[id], s.today, StartLimit(r, s.today).value)
    {
      FindsIt(s.machine.remote, r);
      StartsWithinTheBook(r, s.books[id], s.today);
    }
  }

  /**
   * A run ends with the tokens it had before and those it used; its keeper
   * counts it once it is over, when it was started with a limit; and nothing
   * else changes a run.
   */
  lemma RunsChangeOnlySo(s: State, e: Event, k: nat, s': State)
    requires Step(s, e) == Some(s') && k < |s.runs|
    ensures k < |s'.runs|
    ensures e.End? && e.run == k ==>
              s.runs[k].progress.Running? && s'.runs[k] == s.runs[k].(progress := Over(s.runs[k].before + e.used))
    ensures e.Count? && e.run == k ==>
              && s.runs[k].progress.Over? && s.runs[k].limit.Some?
              && s'.runs[k] == s.runs[k].(progress := Settled(s.runs[k].progress.tokens))
    ensures !((e.End? || e.Count?) && e.run == k) ==> s'.runs[k] == s.runs[k]
  {
  }

  /** And it can: a run that goes on can end, and one that is over is counted exactly when it was started with a limit. */
  lemma RunsEndAndAreCounted(s: State, k: nat, used: nat)
    requires k < |s.runs|
    ensures Step(s, End(k, used)).Some? <==> s.runs[k].progress.Running?
    ensures Step(s, Count(k)).Some? <==> s.runs[k].progress.Over? && s.runs[k].limit.Some?
  {
  }

  /** What a step adds to the book of `id`. */
  function Adding(s: State, e: Event, id: string): seq<Line> {
    match e
    case Count(run) =>
      if run < |s.runs| && s.runs[run].id == id && s.runs[run].progress.Over? then [Line(s.today, s.runs[run].progress.tokens)]
      else []
    case Answered(agent, tokens) => if agent == id then [Line(s.today, tokens)] else []
    case _ => []
  }

  /** The book of an agent that is listed has one line for each of its runs that is counted and each of its questions, and no other. */
  lemma BooksChangeOnlySo(s: State, e: Event, id: string, s': State)
    requires Step(s, e) == Some(s') && id in s.books && Find(s.machine.remote, id).Some?
    ensures id in s'.books && s'.books[id] == s.books[id] + Adding(s, e, id)
  {
  }

  // --- The daily limit -------------------------------------------------------

  predicate Limits(remote: seq<RemoteAgent>, id: string, perDay: nat) {
    Find(remote, id).Some? && Find(remote, id).value.perDay == Some(perDay)
  }

  /** The most that the record of a run may have in the end: a run uses nothing once it has what it was started with. */
  function Cap(r: Going): nat
    requires r.limit.Some?
  {
    if r.before >= r.limit.value then r.before else r.limit.value
  }

  /** A run of `id` may end having used `used`: no more than takes its record to what it was started with. */
  predicate KeepsTo(runs: seq<Going>, run: nat, id: string, used: nat) {
    run < |runs| && runs[run].id == id && runs[run].limit.Some? ==> runs[run].before + used <= Cap(runs[run])
  }

  predicate Starts(e: Event, id: string) {
    e.Start? && e.id == id
  }

  /**
   * A step while agent `id` keeps the daily limit `perDay` and is asked no
   * questions, and none of its runs goes past what it was started with.
   */
  function StepWithin(id: string, perDay: nat, s: State, e: Event): Option<State> {
    if Step(s, e).None? || !Limits(Step(s, e).value.machine.remote, id, perDay) then None
    else if e.Answered? && e.id == id then None
    else if e.End? && !KeepsTo(s.runs, e.run, id, e.used) then None
    else Step(s, e)
  }

  /** What a run of `id` may still add to the book. */
  function Pending(r: Going, id: string): nat {
    if r.id != id || r.limit.None? then 0
    else
      match r.progress
      case Running => Cap(r)
      case Over(tokens) => tokens
      case Settled(_) => 0
  }

  function Flight(runs: seq<Going>, id: string): nat {
    if runs == [] then 0 else Flight(runs[..|runs| - 1], id) + Pending(runs[|runs| - 1], id)
  }

  /** The day has room for everything that is counted and everything that may still be. */
  predicate HasRoom(s: State, id: string, perDay: nat) {
    id in s.books && SumOn(s.books[id], s.today) + Flight(s.runs, id) <= perDay
  }

  ghost predicate Fits(book: seq<Line>, perDay: nat) {
    forall day :: SumOn(book, day) <= perDay
  }

  /** A list whose agent `id` has this daily limit, and has kept to it. */
  ghost predicate Sound(id: string, perDay: nat, s: State) {
    Kept(s) && Limits(s.machine.remote, id, perDay) && id in s.books && Fits(s.books[id], perDay)
  }

  lemma FlightAppends(runs: seq<Going>, r: Going, id: string)
    ensures Flight(runs + [r], id) == Flight(runs, id) + Pending(r, id)
  {
    assert (runs + [r])[..|runs|] == runs;
  }

  lemma {:induction false} FlightChanges(runs: seq<Going>, i: nat, r: Going, id: string)
    requires i < |runs|
    ensures Flight(runs[i := r], id) + Pending(runs[i], id) == Flight(runs, id) + Pending(r, id)
  {
    var n := |runs| - 1;
    if i == n {
      assert runs[i := r][..n] == runs[..n];
    } else {
      FlightChanges(runs[..n], i, r, id);
      assert runs[i := r][..n] == runs[..n][i := r];
    }
  }

  /** Counting within the room there is keeps every day within the limit. */
  lemma CountingFits(book: seq<Line>, perDay: nat, today: nat, tokens: nat)
    requires Fits(book, perDay) && SumOn(book, today) + tokens <= perDay
    ensures Fits(book + [Line(today, tokens)], perDay)
    ensures SumOn(book + [Line(today, tokens)], today) == SumOn(book, today) + tokens
  {
    forall day ensures SumOn(book + [Line(today, tokens)], day) <= perDay {
      SumOnAppends(book, Line(today, tokens), day);
    }
    SumOnAppends(book, Line(today, tokens), today);
  }

  lemma CountKeepsRoom(id: string, perDay: nat, s: State, run: nat, s': State)
    requires Sound(id, perDay, s) && HasRoom(s, id, perDay) && StepWithin(id, perDay, s, Count(run)) == Some(s')
    ensures Sound(id, perDay, s') && HasRoom(s', id, perDay)
  {
    var r := s.runs[run];
    StepKeeps(s, Count(run), s');
    FlightChanges(s.runs, run, Closed(r), id);
    if r.id == id {
      CountingFits(s.books[id], perDay, s.today, r.progress.tokens);
    } else {
      assert s'.books[id] == s.books[id];
    }
  }

  lemma EndKeepsRoom(id: string, perDay: nat, s: State, run: nat, used: nat, s': State)
    requires Sound(id, perDay, s) && HasRoom(s, id, perDay) && StepWithin(id, perDay, s, End(run, used)) == Some(s')
    ensures Sound(id, perDay, s') && HasRoom(s', id, perDay)
  {
    FlightChanges(s.runs, run, s.runs[run].(progress := Over(s.runs[run].before + used)), id);
  }

  lemma ReachKeepsRoom(id: string, perDay: nat, s: State, day: nat, s': State)
    requires Sound(id, perDay, s) && HasRoom(s, id, perDay) && StepWithin(id, perDay, s, Reach(day)) == Some(s')
    ensures Sound(id, perDay, s') && HasRoom(s', id, perDay)
  {
    StepKeeps(s, Reach(day), s');
    FindFinds(s.machine.remote, id);
    if day > s.today {
      NothingOn(s.books[id], day);
    }
  }

  lemma EditKeepsRoom(id: string, perDay: nat, s: State, edit: Edit, s': State)
    requires Sound(id, perDay, s) && HasRoom(s, id, perDay) && StepWithin(id, perDay, s, Edited(edit)) == Some(s')
    ensures Sound(id, perDay, s') && HasRoom(s', id, perDay)
  {
    StepKeeps(s, Edited(edit), s');
    assert s'.books[id] == s.books[id];
  }

  lemma AnsweredKeepsRoom(id: string, perDay: nat, s: State, agent: string, tokens: nat, s': State)
    requires Sound(id, perDay, s) && HasRoom(s, id, perDay)
    requires StepWithin(id, perDay, s, Answered(agent, tokens)) == Some(s')
    ensures Sound(id, perDay, s') && HasRoom(s', id, perDay)
  {
    StepKeeps(s, Answered(agent, tokens), s');
    assert s'.books[id] == s.books[id];
  }

  /** A start of another agent changes nothing, and one of this agent must leave room itself. */
  lemma StartKeepsRoom(id: string, perDay: nat, s: State, agent: string, carries: Option<nat>, s': State)
    requires Sound(id, perDay, s) && HasRoom(s, id, perDay)
    requires StepWithin(id, perDay, s, Start(agent, carries)) == Some(s')
    ensures Sound(id, perDay, s')
    ensures agent != id ==> HasRoom(s', id, perDay)
  {
    StepKeeps(s, Start(agent, carries), s');
    FlightAppends(s.runs, s'.runs[|s.runs|], id);
  }

  lemma StepKeepsRoom(id: string, perDay: nat, s: State, e: Event, s': State)
    requires Sound(id, perDay, s) && HasRoom(s, id, perDay) && StepWithin(id, perDay, s, e) == Some(s')
    requires Starts(e, id) ==> HasRoom(s', id, perDay)
    ensures Sound(id, perDay, s') && HasRoom(s', id, perDay)
  {
    match e
    case Edited(edit) => EditKeepsRoom(id, perDay, s, edit, s');
    case Start(agent, carries) => StartKeepsRoom(id, perDay, s, agent, carries, s');
    case End(run, used) => EndKeepsRoom(id, perDay, s, run, used, s');
    case Count(run) => CountKeepsRoom(id, perDay, s, run, s');
    case Answered(agent, tokens) => AnsweredKeepsRoom(id, perDay, s, agent, tokens, s');
    case Reach(day) => ReachKeepsRoom(id, perDay, s, day, s');
  }

  /** A step at which a start of `id` leaves room for all of its runs that are not counted yet. */
  function StepWithRoom(id: string, perDay: nat, s: State, e: Event): Option<State> {
    if Starts(e, id) && StepWithin(id, perDay, s, e).Some? && !HasRoom(StepWithin(id, perDay, s, e).value, id, perDay)
    then None
    else StepWithin(id, perDay, s, e)
  }

  /** While every start leaves room, no day's tokens exceed the daily limit, whatever runs at once, across all midnights. */
  lemma NoDayIsExceeded(id: string, perDay: nat, s: State, es: seq<Event>)
    requires Sound(id, perDay, s) && HasRoom(s, id, perDay)
    requires IsRun((s, e) => StepWithRoom(id, perDay, s, e), s, es)
    ensures Sound(id, perDay, After((s, e) => StepWithRoom(id, perDay, s, e), s, es))
  {
    var step := (s, e) => StepWithRoom(id, perDay, s, e);
    var inv := (s: State) => Sound(id, perDay, s) && HasRoom(s, id, perDay);
    forall s, e | inv(s) && step(s, e).Some? ensures inv(step(s, e).value) {
      StepKeepsRoom(id, perDay, s, e, step(s, e).value);
    }
    Always(step, inv, s, es);
  }

  /**
   * When every earlier run of the agent has been counted, a start leaves room
   * exactly when the tokens that its record has already still fit in the day:
   * always, unless it carries an earlier run on.
   */
  lemma CountedStartLeavesRoom(id: string, perDay: nat, s: State, carries: Option<nat>, s': State)
    requires Sound(id, perDay, s) && Flight(s.runs, id) == 0 && Step(s, Start(id, carries)) == Some(s')
    ensures var before := s'.runs[|s.runs|].before;
            && (HasRoom(s', id, perDay) <==> SumOn(s.books[id], s.today) + before <= perDay)
            && (carries.None? ==> HasRoom(s', id, perDay))
  {
    FindFinds(s.machine.remote, id);
    StartsWithinTheBook(Find(s.machine.remote, id).value, s.books[id], s.today);
    FlightAppends(s.runs, s'.runs[|s.runs|], id);
  }

  // --- And only then ---------------------------------------------------------

  lemma {:induction false} FindChanged(remote: seq<RemoteAgent>, at: string, f: RemoteAgent -> RemoteAgent, id: string)
    requires forall r: RemoteAgent :: f(r).id == r.id
    ensures Find(Changed(remote, at, f), id)
            == if at == id && Find(remote, id).Some? then Some(f(Find(remote, id).value)) else Find(remote, id)
  {
    if remote != [] {
      FindChanged(remote[1..], at, f, id);
    }
  }

  lemma RecordIsWithin(id: string, perDay: nat, s: State, tokens: nat)
    requires Limits(s.machine.remote, id, perDay) && id in s.books
    ensures Limits(Record(s, id, tokens).machine.remote, id, perDay)
    ensures Record(s, id, tokens).books == s.books[id := s.books[id] + [Line(s.today, tokens)]]
    ensures Record(s, id, tokens).runs == s.runs && Record(s, id, tokens).today == s.today
  {
    FindChanged(s.machine.remote, id, (r: RemoteAgent) => Counted(r, s.today, tokens), id);
  }

  ghost predicate NoStart(es: seq<Event>, id: string) {
    forall e | e in es :: !Starts(e, id)
  }

  /** One run of `id` can be counted today with all that it may still add. */
  lemma RunCanBeCounted(id: string, perDay: nat, s: State, run: nat) returns (es: seq<Event>, s': State)
    requires Kept(s) && Limits(s.machine.remote, id, perDay) && id in s.books && run < |s.runs|
    ensures IsRun((s, e) => StepWithin(id, perDay, s, e), s, es) && After((s, e) => StepWithin(id, perDay, s, e), s, es) == s'
    ensures NoStart(es, id)
    ensures Kept(s') && Limits(s'.machine.remote, id, perDay) && id in s'.books && s'.today == s.today
    ensures SumOn(s'.books[id], s.today) == SumOn(s.books[id], s.today) + Pending(s.runs[run], id)
    ensures |s'.runs| == |s.runs| && forall i | 0 <= i < |s.runs| && i != run :: s'.runs[i] == s.runs[i]
  {
    var step := (s, e) => StepWithin(id, perDay, s, e);
    var r := s.runs[run];
    es, s' := [], s;
    if r.id == id && r.limit.Some? && !r.progress.Settled? {
      var over, tokens := s, Pending(r, id);
      if r.progress.Running? {
        over := s.(runs := s.runs[run := r.(progress := Over(tokens))]);
        assert step(s, End(run, tokens - r.before)) == Some(over);
        StepKeeps(s, End(run, tokens - r.before), over);
      }
      s' := CountRun(over, run);
      RecordIsWithin(id, perDay, over.(runs := over.runs[run := Closed(over.runs[run])]), tokens);
      assert step(over, Count(run)) == Some(s');
      StepKeeps(over, Count(run), s');
      SumOnAppends(s.books[id], Line(s.today, tokens), s.today);
      First(step, over, Count(run), s', []);
      es := [Count(run)] + [];
      if r.progress.Running? {
        First(step, s, End(run, tokens - r.before), over, es);
        es := [End(run, tokens - r.before)] + es;
      }
    }
  }

  /** All runs of `id` among the first `n` can be. */
  lemma {:induction false} AllCanBeCounted(id: string, perDay: nat, s: State, n: nat) returns (es: seq<Event>)
    requires Kept(s) && Limits(s.machine.remote, id, perDay) && id in s.books && n <= |s.runs|
    ensures IsRun((s, e) => StepWithin(id, perDay, s, e), s, es) && NoStart(es, id)
    ensures var s' := After((s, e) => StepWithin(id, perDay, s, e), s, es);
            id in s'.books && SumOn(s'.books[id], s.today) == SumOn(s.books[id], s.today) + Flight(s.runs[..n], id)
    decreases n
  {
    es := [];
    if n > 0 {
      var s1;
      es, s1 := RunCanBeCounted(id, perDay, s, n - 1);
      var more := AllCanBeCounted(id, perDay, s1, n - 1);
      FlightTakes(s.runs, s1.runs, n, id);
      Join((s, e) => StepWithin(id, perDay, s, e), s, es, more);
      es := es + more;
    }
  }

  lemma FlightTakes(runs: seq<Going>, after: seq<Going>, n: nat, id: string)
    requires 0 < n <= |runs| == |after| && forall i | 0 <= i < n - 1 :: after[i] == runs[i]
    ensures Flight(runs[..n], id) == Flight(after[..n - 1], id) + Pending(runs[n - 1], id)
  {
    assert after[..n - 1] == runs[..n][..n - 1];
  }

  /** However things go on without another start of `id`, no day exceeds the limit. */
  ghost predicate StaysWithin(id: string, perDay: nat, s: State) {
    forall es | IsRun((s, e) => StepWithin(id, perDay, s, e), s, es) && NoStart(es, id) ::
      var s' := After((s, e) => StepWithin(id, perDay, s, e), s, es);
      id in s'.books && Fits(s'.books[id], perDay)
  }

  lemma {:induction false} RoomLasts(id: string, perDay: nat, s: State, es: seq<Event>)
    requires Sound(id, perDay, s) && HasRoom(s, id, perDay)
    requires IsRun((s, e) => StepWithin(id, perDay, s, e), s, es) && NoStart(es, id)
    ensures Sound(id, perDay, After((s, e) => StepWithin(id, perDay, s, e), s, es))
    decreases |es|
  {
    if es != [] {
      assert es[0] in es && forall e | e in es[1..] :: e in es;
      StepKeepsRoom(id, perDay, s, es[0], StepWithin(id, perDay, s, es[0]).value);
      RoomLasts(id, perDay, StepWithin(id, perDay, s, es[0]).value, es[1..]);
    }
  }

  /**
   * What room means: with it, nothing that is under way can exceed any day;
   * without it, ending and counting what is under way today does. So a start
   * keeps the limit safe exactly when it leaves room — and the code checks
   * only what is counted.
   */
  lemma RoomIsWhatItTakes(id: string, perDay: nat, s: State)
    requires Sound(id, perDay, s)
    ensures StaysWithin(id, perDay, s) <==> HasRoom(s, id, perDay)
  {
    if HasRoom(s, id, perDay) {
      forall es | IsRun((s, e) => StepWithin(id, perDay, s, e), s, es) && NoStart(es, id)
        ensures var s' := After((s, e) => StepWithin(id, perDay, s, e), s, es); id in s'.books && Fits(s'.books[id], perDay)
      {
        RoomLasts(id, perDay, s, es);
      }
    } else {
      var es := AllCanBeCounted(id, perDay, s, |s.runs|);
      assert s.runs[..|s.runs|] == s.runs;
      var s' := After((s, e) => StepWithin(id, perDay, s, e), s, es);
      assert SumOn(s'.books[id], s.today) > perDay;
    }
  }

  // --- Two starts that leave no room -----------------------------------------

  /** One agent and nothing else, on day 0. */
  function Lone(r: RemoteAgent, runs: seq<Going>): State {
    State(DEFAULT.(remote := [r]), map[r.id := []], runs, 0)
  }

  lemma TwoStarts(r: RemoteAgent, perDay: nat, over: bool) returns (es: seq<Event>, first: Going)
    requires perDay > 0 && r.perDay == Some(perDay) && r.perRun.None? && r.spent == 0 && r.spentDay == 0
    ensures es == if over then [Start(r.id, None), End(0, perDay), Start(r.id, None)] else [Start(r.id, None), Start(r.id, None)]
    ensures Pending(first, r.id) == perDay && IsRun(Step, Lone(r, []), es)
    ensures After(Step, Lone(r, []), es) == Lone(r, [first] + [Going(r.id, Some(perDay), None, 0, Running)])
  {
    var full := Going(r.id, Some(perDay), None, 0, Running);
    first := if over then full.(progress := Over(perDay)) else full;
    var s0, s1, s2 := Lone(r, []), Lone(r, [full]), Lone(r, [first]);
    var s3 := Lone(r, [first] + [full]);
    assert Step(s0, Start(r.id, None)) == Some(s1) by { assert [] + [full] == [full]; }
    assert Step(s2, Start(r.id, None)) == Some(s3);
    First(Step, s2, Start(r.id, None), s3, []);
    es := [Start(r.id, None)] + [];
    if over {
      assert Step(s1, End(0, perDay)) == Some(s2) by { assert [full][0 := first] == [first]; }
      First(Step, s1, End(0, perDay), s2, es);
      es := [End(0, perDay)] + es;
    }
    First(Step, s0, Start(r.id, None), s1, es);
    es := [Start(r.id, None)] + es;
  }

  /**
   * Two runs of one agent at once can use any daily limit twice; and so can
   * two that follow one another, when the first is over and its keeper has not
   * looked yet: the second reads what was spent without it.
   */
  lemma UncountedRunsExceed(r: RemoteAgent, perDay: nat, over: bool) returns (es: seq<Event>)
    requires perDay > 0 && r.perDay == Some(perDay) && r.perRun.None? && r.spent == 0 && r.spentDay == 0
    ensures Sound(r.id, perDay, Lone(r, []))
    ensures es == if over then [Start(r.id, None), End(0, perDay), Start(r.id, None)] else [Start(r.id, None), Start(r.id, None)]
    ensures IsRun(Step, Lone(r, []), es)
    ensures !StaysWithin(r.id, perDay, After(Step, Lone(r, []), es))
  {
    var first, full;
    full := Going(r.id, Some(perDay), None, 0, Running);
    es, first := TwoStarts(r, perDay, over);
    LoneIsSound(r, perDay, []);
    LoneIsSound(r, perDay, [first] + [full]);
    FlightAppends([], first, r.id);
    FlightAppends([first], full, r.id);
    assert [] + [first] == [first];
    RoomIsWhatItTakes(r.id, perDay, Lone(r, [first] + [full]));
  }

  lemma LoneIsSound(r: RemoteAgent, perDay: nat, runs: seq<Going>)
    requires r.perDay == Some(perDay) && r.spent == 0 && r.spentDay == 0
    ensures Sound(r.id, perDay, Lone(r, runs))
  {
  }

  // --- Runs that are carried on ----------------------------------------------

  /** Where a run becomes settled, that many tokens of its record are a new line of its agent's book. */
  lemma SettledIsInTheBook(s: State, e: Event, s': State, k: nat)
    requires Step(s, e) == Some(s') && k < |s.runs| && !s.runs[k].progress.Settled? && s'.runs[k].progress.Settled?
    requires var id := s.runs[k].id; Find(s.machine.remote, id).Some? && id in s.books
    ensures var id := s.runs[k].id;
            id in s'.books && s'.books[id] == s.books[id] + [Line(s.today, s'.runs[k].progress.tokens)]
  {
  }

  /**
   * A run that carries another on is counted with the tokens of both: whatever
   * state it starts in, and whether or not the other was counted before.
   */
  lemma CarriedOnIsCountedAgain(s: State, id: string, k: nat, used: nat) returns (es: seq<Event>)
    requires Find(s.machine.remote, id).Some? && id in s.books && CanCarry(s.runs, id, Some(k))
    requires StartLimit(Find(s.machine.remote, id).value, s.today).Some?
    requires StartLimit(Find(s.machine.remote, id).value, s.today).value.Some?
    ensures es == [Start(id, Some(k)), End(|s.runs|, used), Count(|s.runs|)] && IsRun(Step, s, es)
    ensures var s' := After(Step, s, es);
            id in s'.books && s'.books[id] == s.books[id] + [Line(s.today, s.runs[k].progress.tokens + used)]
  {
    var n, limit := |s.runs|, StartLimit(Find(s.machine.remote, id).value, s.today).value;
    var r := Started(s.runs, id, limit, Some(k));
    var s1 := s.(runs := s.runs + [r]);
    var s2 := s1.(runs := s1.runs[n := r.(progress := Over(r.before + used))]);
    var s3 := CountRun(s2, n);
    assert Step(s, Start(id, Some(k))) == Some(s1) && Step(s1, End(n, used)) == Some(s2) && Step(s2, Count(n)) == Some(s3);
    SettledIsInTheBook(s2, Count(n), s3, n);
    First(Step, s2, Count(n), s3, []);
    First(Step, s1, End(n, used), s2, [Count(n)] + []);
    First(Step, s, Start(id, Some(k)), s1, [End(n, used)] + ([Count(n)] + []));
    es := [Start(id, Some(k))] + ([End(n, used)] + ([Count(n)] + []));
  }

  /** Whoever carries a run on started after it was over, with the tokens of its record; and no record loses tokens. */
  ghost predicate Linked(runs: seq<Going>) {
    forall k | 0 <= k < |runs| :: LinkedAt(runs, k)
  }

  ghost predicate LinkedAt(runs: seq<Going>, k: nat)
    requires k < |runs|
  {
    var r := runs[k];
    && (r.progress.Running? || r.before <= r.progress.tokens)
    && match r.carries
       case None => r.before == 0
       case Some(c) => c < k && !runs[c].progress.Running? && r.before == runs[c].progress.tokens
  }

  lemma StepLinks(s: State, e: Event, s': State)
    requires Linked(s.runs) && Step(s, e) == Some(s')
    ensures Linked(s'.runs)
  {
    forall k | 0 <= k < |s'.runs| ensures LinkedAt(s'.runs, k) {
      if k < |s.runs| {
        assert LinkedAt(s.runs, k);
      }
    }
  }

  /** What run `k` and those it carries on have used, each what it used itself. */
  ghost function Used(runs: seq<Going>, k: nat): nat
    requires Linked(runs) && k < |runs| && !runs[k].progress.Running?
  {
    assert LinkedAt(runs, k);
    (if runs[k].carries.Some? then Used(runs, runs[k].carries.value) else 0) + runs[k].progress.tokens - runs[k].before
  }

  /** What has been counted for them: for each that is settled, all its record had. */
  ghost function CountedFor(runs: seq<Going>, k: nat): nat
    requires Linked(runs) && k < |runs| && !runs[k].progress.Running?
  {
    assert LinkedAt(runs, k);
    (if runs[k].carries.Some? then CountedFor(runs, runs[k].carries.value) else 0)
    + if runs[k].progress.Settled? then runs[k].progress.tokens else 0
  }

  /** No run that was settled with any tokens is among `k` and those it carries on. */
  ghost predicate NoneSettled(runs: seq<Going>, k: nat)
    requires Linked(runs) && k < |runs| && !runs[k].progress.Running?
  {
    assert LinkedAt(runs, k);
    && (runs[k].progress.Settled? ==> runs[k].progress.tokens == 0)
    && (runs[k].carries.Some? ==> NoneSettled(runs, runs[k].carries.value))
  }

  lemma {:induction false} RecordHasAll(runs: seq<Going>, k: nat)
    requires Linked(runs) && k < |runs| && !runs[k].progress.Running?
    ensures Used(runs, k) == runs[k].progress.tokens
    ensures CountedFor(runs, k) == 0 <==> NoneSettled(runs, k)
  {
    assert LinkedAt(runs, k);
    if runs[k].carries.Some? {
      RecordHasAll(runs, runs[k].carries.value);
    }
  }

  /**
   * In every run of the machine: for a run that was counted and those it
   * carries on, however many, all that they used has been counted, and each
   * token once exactly when none of those carried on had been counted with
   * any.
   */
  lemma CountedOnceUnlessCarriedOn(s: State, es: seq<Event>, k: nat)
    requires s.runs == [] && IsRun(Step, s, es)
    requires k < |After(Step, s, es).runs| && After(Step, s, es).runs[k].progress.Settled?
    ensures var runs := After(Step, s, es).runs;
            && Linked(runs) && LinkedAt(runs, k) && CountedFor(runs, k) >= Used(runs, k)
            && (CountedFor(runs, k) == Used(runs, k) <==> (runs[k].carries.Some? ==> NoneSettled(runs, runs[k].carries.value)))
  {
    var inv := (s: State) => Linked(s.runs);
    forall s, e | inv(s) && Step(s, e).Some? ensures inv(Step(s, e).value) {
      StepLinks(s, e, Step(s, e).value);
    }
    Always(Step, inv, s, es);
    var runs := After(Step, s, es).runs;
    assert LinkedAt(runs, k);
    RecordHasAll(runs, k);
    if runs[k].carries.Some? {
      RecordHasAll(runs, runs[k].carries.value);
    }
  }
}
