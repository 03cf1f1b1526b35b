/**
 * The list of agents kept on this machine, and the edits that commands make to
 * it (src-tauri/src/agents.rs). The parts that no edit here looks at — the
 * options of built-in agents, notifications, consents — are not modelled.
 */
module MachineList {
  import opened Wrappers
  import opened Text

  datatype Jobs = Jobs(review: bool, merge: bool, farm: bool)

  /** An agent reached over an API. `spent` counts tokens for `spentDay` only. */
  datatype RemoteAgent = RemoteAgent(
    id: string, name: string, provider: string, base: string, model: string, jobs: Jobs,
    perRun: Option<nat>, perDay: Option<nat>, minutes: Option<nat>, keyEnd: Option<string>,
    spent: nat, spentDay: nat)

  /** What a remote agent is saved with. `stores` is whether the keychain takes a new key. */
  datatype RemoteInput = RemoteInput(
    id: Option<string>, name: string, provider: string, base: string, model: string, jobs: Option<Jobs>,
    perRun: Option<nat>, perDay: Option<nat>, minutes: Option<nat>, key: Option<string>, stores: bool)

  datatype Machine = Machine(
    jobs: map<string, Jobs>, custom: seq<string>, remote: seq<RemoteAgent>,
    repos: map<string, Option<seq<string>>>, reviewDefault: Option<string>, mergeDefault: Option<string>)

  datatype Edit =
    | SaveRemote(input: RemoteInput)
    | SetJobs(id: string, jobs: Jobs)
    | SaveCustom(custom: string)
    | Remove(id: string)
    | Record(id: string, day: nat, tokens: nat)

  const DEFAULT := Machine(map[], [], [], map[], None, None)

  // --- An id nobody has ------------------------------------------------------

  function ApiId(n: nat): string {
    "api-" + Decimal(n)
  }

  lemma ApiIdIsInjective(m: nat, n: nat)
    requires ApiId(m) == ApiId(n)
    ensures m == n
  {
    assert ApiId(m)[4..] == Decimal(m) && ApiId(n)[4..] == Decimal(n);
    DecimalIsInjective(m, n);
  }

  function Ids(remote: seq<RemoteAgent>): seq<string> {
    seq(|remote|, i requires 0 <= i < |remote| => remote[i].id)
  }

  /** The ids in use that a search from `n` on can run into. */
  ghost function InTheWay(ids: seq<string>, n: nat): set<string> {
    set id | id in ids && exists m: nat :: m >= n && id == ApiId(m)
  }

  lemma OneLessInTheWay(ids: seq<string>, n: nat)
    requires ApiId(n) in ids
    ensures |InTheWay(ids, n + 1)| == |InTheWay(ids, n)| - 1
  {
    forall id | id in InTheWay(ids, n + 1) ensures id in InTheWay(ids, n) - {ApiId(n)} {
      var m: nat :| m >= n + 1 && id == ApiId(m);
      if id == ApiId(n) {
        ApiIdIsInjective(m, n);
      }
    }
    forall id | id in InTheWay(ids, n) - {ApiId(n)} ensures id in InTheWay(ids, n + 1) {
      var m: nat :| m >= n && id == ApiId(m);
      assert m >= n + 1;
    }
    assert InTheWay(ids, n + 1) == InTheWay(ids, n) - {ApiId(n)};
  }

  lemma {:induction false} NoMoreThanThereAre(ids: seq<string>)
    ensures |set id | id in ids| <= |ids|
  {
    if ids != [] {
      NoMoreThanThereAre(ids[1..]);
      assert (set id | id in ids) == (set id | id in ids[1..]) + {ids[0]};
    }
  }

  /** The first number from `n` on whose id nobody has. It exists because ids that are in the way run out. */
  function FirstUnused(ids: seq<string>, n: nat): (r: nat)
    ensures r >= n && ApiId(r) !in ids && forall k | n <= k < r :: ApiId(k) in ids
    ensures r - n <= |InTheWay(ids, n)|
    decreases |InTheWay(ids, n)|
  {
    if ApiId(n) in ids then
      OneLessInTheWay(ids, n);
      FirstUnused(ids, n + 1)
    else n
  }

  /** The search takes at most as many increments as there are agents. */
  lemma SearchIsShort(remote: seq<RemoteAgent>)
    ensures FirstUnused(Ids(remote), |remote| + 1) <= 2 * |remote| + 1
  {
    var ids := Ids(remote);
    NoMoreThanThereAre(ids);
    assert InTheWay(ids, |remote| + 1) <= set id | id in ids;
    Fewer(InTheWay(ids, |remote| + 1), set id | id in ids);
  }

  lemma {:induction false} Fewer(a: set<string>, b: set<string>)
    requires a <= b
    ensures |a| <= |b|
  {
    if a != {} {
      var x :| x in a;
      Fewer(a - {x}, b - {x});
    }
  }

  // --- The edits -------------------------------------------------------------

  function Find(remote: seq<RemoteAgent>, id: string): Option<RemoteAgent> {
    if remote == [] then None else if remote[0].id == id then Some(remote[0]) else Find(remote[1..], id)
  }

  function Without(remote: seq<RemoteAgent>, id: string): seq<RemoteAgent> {
    if remote == [] then []
    else (if remote[0].id == id then [] else [remote[0]]) + Without(remote[1..], id)
  }

  /** `remote` with the first agent called `id` replaced by `f` of it. */
  function Changed(remote: seq<RemoteAgent>, id: string, f: RemoteAgent -> RemoteAgent): seq<RemoteAgent> {
    if remote == [] then []
    else if remote[0].id == id then [f(remote[0])] + remote[1..]
    else [remote[0]] + Changed(remote[1..], id, f)
  }

  function LastFour(key: string): Option<string> {
    var k := Trim(key);
    if |k| >= 8 then Some(k[|k| - 4..]) else None
  }

  /** The key that comes with `input`, when one does. */
  function NewKey(input: RemoteInput): Option<string> {
    if input.key.Some? && Trim(input.key.value) != "" then Some(Trim(input.key.value)) else None
  }

  function IdFor(remote: seq<RemoteAgent>, input: RemoteInput): string {
    if input.id.Some? then input.id.value else ApiId(FirstUnused(Ids(remote), |remote| + 1))
  }

  /** What `input` is saved as under `id`: what it does not bring comes from the agent that had the id before. */
  function Built(id: string, input: RemoteInput, previous: Option<RemoteAgent>): RemoteAgent {
    RemoteAgent(
      id, if Trim(input.name) == "" then input.provider else Trim(input.name), input.provider,
      Trim(input.base), Trim(input.model),
      if input.jobs.Some? then input.jobs.value.(farm := false) else Jobs(true, true, false),
      input.perRun, input.perDay, input.minutes,
      if NewKey(input).Some? then LastFour(NewKey(input).value) else if previous.Some? then previous.value.keyEnd else None,
      if previous.Some? then previous.value.spent else 0,
      if previous.Some? then previous.value.spentDay else 0)
  }

  function SavedAs(remote: seq<RemoteAgent>, input: RemoteInput): RemoteAgent {
    Built(IdFor(remote, input), input, Find(remote, IdFor(remote, input)))
  }

  /** Count `tokens` against `day`: another day starts again from nothing. */
  function Counted(r: RemoteAgent, day: nat, tokens: nat): RemoteAgent {
    r.(spent := (if r.spentDay == day then r.spent else 0) + tokens, spentDay := day)
  }

  function Forgotten(custom: seq<string>, id: string): seq<string> {
    if custom == [] then []
    else (if custom[0] == id then [] else [custom[0]]) + Forgotten(custom[1..], id)
  }

  /** What an edit makes of the list, or nothing when it is refused and the list is left alone. */
  function Applied(m: Machine, e: Edit): Option<Machine> {
    match e
    case SaveRemote(input) =>
      if Trim(input.model) == "" || (NewKey(input).Some? && !input.stores) then None
      else
        var saved := SavedAs(m.remote, input);
        Some(m.(remote := Without(m.remote, saved.id) + [saved]))
    case SetJobs(id, jobs) =>
      if Find(m.remote, id).Some? then
        Some(m.(remote := Changed(m.remote, id, (r: RemoteAgent) => r.(jobs := jobs.(farm := false)))))
      else Some(m.(jobs := m.jobs[id := jobs]))
    case SaveCustom(custom) => Some(m.(custom := Forgotten(m.custom, custom) + [custom]))
    case Remove(id) =>
      Some(m.(remote := Without(m.remote, id), custom := Forgotten(m.custom, id), jobs := m.jobs - {id},
              repos := map k | k in m.repos ::
                if m.repos[k].Some? then Some(Forgotten(m.repos[k].value, id)) else None,
              reviewDefault := if m.reviewDefault == Some(id) then None else m.reviewDefault,
              mergeDefault := if m.mergeDefault == Some(id) then None else m.mergeDefault))
    case Record(id, day, tokens) =>
      Some(m.(remote := Changed(m.remote, id, (r: RemoteAgent) => Counted(r, day, tokens))))
  }

  // --- What is saved ---------------------------------------------------------

  /** A key comes with `input`, and this is it without the white space around it. */
  predicate Brings(input: RemoteInput, key: string) {
    input.key.Some? && Trim(input.key.value) == key && key != ""
  }

  /** `input` is saved under the id it names, or under the first of `api-2`, `api-3` and so on, past the agents there are, that nobody has. */
  ghost predicate HasItsId(was: seq<RemoteAgent>, input: RemoteInput, id: string) {
    match input.id
    case Some(given) => id == given
    case None =>
      && (forall r | r in was :: r.id != id)
      && exists n: nat :: n > |was| && id == "api-" + Decimal(n)
                          && forall k: nat | |was| < k < n :: IsTaken(was, "api-" + Decimal(k))
  }

  ghost predicate IsTaken(was: seq<RemoteAgent>, id: string) {
    exists i :: 0 <= i < |was| && was[i].id == id
  }

  /** What comes with `input` is kept as it came, without white space around it; it is offered for no farm. */
  ghost predicate HasWhatCame(input: RemoteInput, r: RemoteAgent) {
    && r.name == (if Trim(input.name) != "" then Trim(input.name) else input.provider)
    && r.provider == input.provider && r.base == Trim(input.base) && r.model == Trim(input.model)
    && r.perRun == input.perRun && r.perDay == input.perDay && r.minutes == input.minutes
    && !r.jobs.farm && r.jobs.review == (input.jobs.Some? ==> input.jobs.value.review)
    && r.jobs.merge == (input.jobs.Some? ==> input.jobs.value.merge)
    && forall key | Brings(input, key) :: r.keyEnd == if |key| >= 8 then Some(key[|key| - 4..]) else None
  }

  /** The rest comes from `previous`: what was spent, and the end of a key that is not replaced. */
  ghost predicate HasWhatWas(input: RemoteInput, previous: Option<RemoteAgent>, r: RemoteAgent) {
    && r.spent == (if previous.Some? then previous.value.spent else 0)
    && r.spentDay == (if previous.Some? then previous.value.spentDay else 0)
    && ((forall key :: !Brings(input, key)) ==> r.keyEnd == if previous.Some? then previous.value.keyEnd else None)
  }

  /** `i` is where the first agent called `id` is. */
  ghost predicate IsFirst(remote: seq<RemoteAgent>, id: string, i: nat) {
    i < |remote| && remote[i].id == id && forall j | 0 <= j < i :: remote[j].id != id
  }

  /** `r` is what `input` is saved as in the list `was`. */
  ghost predicate IsSaved(was: seq<RemoteAgent>, input: RemoteInput, r: RemoteAgent) {
    && HasItsId(was, input, r.id) && HasWhatCame(input, r)
    && (forall i: nat | IsFirst(was, r.id, i) :: HasWhatWas(input, Some(was[i]), r))
    && ((forall q | q in was :: q.id != r.id) ==> HasWhatWas(input, None, r))
  }

  lemma IdForIsItsId(was: seq<RemoteAgent>, input: RemoteInput)
    ensures HasItsId(was, input, IdFor(was, input))
  {
    if input.id.None? {
      var ids, n := Ids(was), FirstUnused(Ids(was), |was| + 1);
      assert n > |was| && IdFor(was, input) == "api-" + Decimal(n);
      forall k: nat | |was| < k < n ensures IsTaken(was, "api-" + Decimal(k)) {
        var i :| 0 <= i < |ids| && ids[i] == ApiId(k);
        assert was[i].id == "api-" + Decimal(k);
      }
      forall r | r in was ensures r.id != IdFor(was, input) {
        var i :| 0 <= i < |was| && was[i] == r;
        assert ids[i] == r.id;
      }
    }
  }

  lemma {:induction false} FirstIsFound(remote: seq<RemoteAgent>, id: string, i: nat)
    requires IsFirst(remote, id, i)
    ensures Find(remote, id) == Some(remote[i])
  {
    if i > 0 {
      FirstIsFound(remote[1..], id, i - 1);
    }
  }

  lemma {:induction false} NoneIsFound(remote: seq<RemoteAgent>, id: string)
    requires forall r | r in remote :: r.id != id
    ensures Find(remote, id).None?
  {
    if remote != [] {
      NoneIsFound(remote[1..], id);
    }
  }

  lemma KeyIsBrought(input: RemoteInput, key: string)
    requires Brings(input, key)
    ensures NewKey(input) == Some(key) && Trim(key) == key
  {
    var _, _ := TrimIsTight(input.key.value);
    TrimIsIdentity(key);
  }

  lemma BuiltHasWhatCame(id: string, input: RemoteInput, previous: Option<RemoteAgent>)
    ensures HasWhatCame(input, Built(id, input, previous))
  {
    forall key | Brings(input, key)
      ensures Built(id, input, previous).keyEnd == if |key| >= 8 then Some(key[|key| - 4..]) else None
    {
      KeyIsBrought(input, key);
    }
  }

  lemma BuiltHasWhatWas(id: string, input: RemoteInput, previous: Option<RemoteAgent>)
    ensures HasWhatWas(input, previous, Built(id, input, previous))
  {
    NewKeyIsBrought(input);
  }

  lemma NewKeyIsBrought(input: RemoteInput)
    ensures NewKey(input).None? <==> forall key :: !Brings(input, key)
  {
    assert NewKey(input).Some? ==> Brings(input, NewKey(input).value);
  }

  /** In every list, what is saved is what was asked for, under a free id or the one named, with what was there under it. */
  lemma SavedIsAsAsked(was: seq<RemoteAgent>, input: RemoteInput)
    ensures IsSaved(was, input, SavedAs(was, input))
  {
    var id := IdFor(was, input);
    IdForIsItsId(was, input);
    BuiltHasWhatCame(id, input, Find(was, id));
    BuiltHasWhatWas(id, input, Find(was, id));
    forall i: nat | IsFirst(was, id, i) ensures HasWhatWas(input, Some(was[i]), SavedAs(was, input)) {
      FirstIsFound(was, id, i);
    }
    if forall q | q in was :: q.id != id {
      NoneIsFound(was, id);
    }
  }

  // --- Ids stay distinct -----------------------------------------------------

  ghost predicate DistinctIds(remote: seq<RemoteAgent>) {
    forall i, j | 0 <= i < j < |remote| :: remote[i].id != remote[j].id
  }

  lemma {:induction false} WithoutIsWithout(remote: seq<RemoteAgent>, id: string)
    ensures forall r :: r in Without(remote, id) <==> r in remote && r.id != id
    ensures DistinctIds(remote) ==> DistinctIds(Without(remote, id))
  {
    if remote != [] {
      WithoutIsWithout(remote[1..], id);
      var rest := Without(remote[1..], id);
      assert forall r :: r in remote <==> r == remote[0] || r in remote[1..];
      if DistinctIds(remote) {
        forall i | 0 <= i < |rest| ensures rest[i].id != remote[0].id {
          assert rest[i] in rest;
        }
      }
    }
  }

  /** Changing an agent without renaming it changes it and no other. */
  lemma {:induction false} ChangedOnlyThere(remote: seq<RemoteAgent>, id: string, f: RemoteAgent -> RemoteAgent)
    requires forall r: RemoteAgent :: f(r).id == r.id
    ensures |Changed(remote, id, f)| == |remote|
    ensures forall i | 0 <= i < |remote| ::
              Changed(remote, id, f)[i].id == remote[i].id
              && (remote[i].id != id ==> Changed(remote, id, f)[i] == remote[i])
    ensures DistinctIds(remote) ==> forall i | 0 <= i < |remote| && remote[i].id == id ::
              Changed(remote, id, f)[i] == f(remote[i])
  {
    if remote != [] && remote[0].id != id {
      ChangedOnlyThere(remote[1..], id, f);
    }
  }

  lemma {:induction false} FindFinds(remote: seq<RemoteAgent>, id: string)
    ensures Find(remote, id).Some? ==> Find(remote, id).value in remote && Find(remote, id).value.id == id
    ensures Find(remote, id).None? ==> forall r | r in remote :: r.id != id
  {
    if remote != [] {
      FindFinds(remote[1..], id);
    }
  }

  /** No edit, of any kind with any input, gives two remote agents one id. */
  lemma EditKeepsIdsDistinct(m: Machine, e: Edit)
    requires DistinctIds(m.remote) && Applied(m, e).Some?
    ensures DistinctIds(Applied(m, e).value.remote)
  {
    match e
    case SaveRemote(input) =>
      var saved := SavedAs(m.remote, input);
      WithoutIsWithout(m.remote, saved.id);
      var kept := Without(m.remote, saved.id);
      forall i | 0 <= i < |kept| ensures kept[i].id != saved.id {
        assert kept[i] in kept;
      }
    case SetJobs(id, jobs) =>
      ChangedOnlyThere(m.remote, id, (r: RemoteAgent) => r.(jobs := jobs.(farm := false)));
    case SaveCustom(_) =>
    case Remove(id) => WithoutIsWithout(m.remote, id);
    case Record(id, day, tokens) => ChangedOnlyThere(m.remote, id, (r: RemoteAgent) => Counted(r, day, tokens));
  }

  /** The list after `es` in order, where an edit that is refused changes nothing. */
  function AllApplied(m: Machine, es: seq<Edit>): Machine {
    if es == [] then m
    else
      var before := AllApplied(m, es[..|es| - 1]);
      if Applied(before, es[|es| - 1]).Some? then Applied(before, es[|es| - 1]).value else before
  }

  lemma {:induction false} IdsStayDistinct(m: Machine, es: seq<Edit>)
    requires DistinctIds(m.remote)
    ensures DistinctIds(AllApplied(m, es).remote)
  {
    if es != [] {
      IdsStayDistinct(m, es[..|es| - 1]);
      var before := AllApplied(m, es[..|es| - 1]);
      if Applied(before, es[|es| - 1]).Some? {
        EditKeepsIdsDistinct(before, es[|es| - 1]);
      }
    }
  }

  // --- What is gone after a removal ------------------------------------------

  lemma {:induction false} ForgottenIsGone(custom: seq<string>, id: string)
    ensures forall c :: c in Forgotten(custom, id) <==> c in custom && c != id
  {
    if custom != [] {
      ForgottenIsGone(custom[1..], id);
      assert forall c :: c in custom <==> c == custom[0] || c in custom[1..];
    }
  }

  /** Somewhere in `m` the agent `id` is listed, ruled on, or chosen. */
  ghost predicate Mentions(m: Machine, id: string) {
    || (exists r | r in m.remote :: r.id == id)
    || id in m.custom
    || id in m.jobs
    || (exists k | k in m.repos :: m.repos[k].Some? && id in m.repos[k].value)
    || m.reviewDefault == Some(id)
    || m.mergeDefault == Some(id)
  }

  /** A removal leaves nothing that names the agent, and every other agent named just where it was. */
  lemma RemovedIsGone(m: Machine, id: string, other: string)
    ensures Applied(m, Remove(id)).Some? && !Mentions(Applied(m, Remove(id)).value, id)
    ensures other != id ==> (Mentions(Applied(m, Remove(id)).value, other) <==> Mentions(m, other))
    ensures forall r :: r in Applied(m, Remove(id)).value.remote <==> r in m.remote && r.id != id
    ensures Applied(m, Remove(id)).value.jobs == m.jobs - {id}
    ensures Applied(m, Remove(id)).value.repos.Keys == m.repos.Keys
  {
    var n := Applied(m, Remove(id)).value;
    WithoutIsWithout(m.remote, id);
    ForgottenIsGone(m.custom, id);
    forall k | k in m.repos && m.repos[k].Some?
      ensures forall c :: c in n.repos[k].value <==> c in m.repos[k].value && c != id
    {
      ForgottenIsGone(m.repos[k].value, id);
    }
    if other != id {
      RemoteStays(m.remote, id, other);
      RulesStay(m, n, other);
    }
  }

  lemma RemoteStays(remote: seq<RemoteAgent>, id: string, other: string)
    requires other != id
    ensures (exists r | r in Without(remote, id) :: r.id == other) <==> exists r | r in remote :: r.id == other
  {
    WithoutIsWithout(remote, id);
    if r :| r in remote && r.id == other {
      assert r in Without(remote, id);
    }
  }

  lemma RulesStay(m: Machine, n: Machine, other: string)
    requires m.repos.Keys == n.repos.Keys
    requires forall k | k in m.repos :: m.repos[k].Some? == n.repos[k].Some?
    requires forall k | k in m.repos && m.repos[k].Some? :: other in n.repos[k].value <==> other in m.repos[k].value
    ensures (exists k | k in n.repos :: n.repos[k].Some? && other in n.repos[k].value)
            <==> exists k | k in m.repos :: m.repos[k].Some? && other in m.repos[k].value
  {
    if k :| k in m.repos && m.repos[k].Some? && other in m.repos[k].value {
      assert k in n.repos && n.repos[k].Some?;
    }
  }
}
