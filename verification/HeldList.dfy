/**
 * The list of agents while a command holds it (src-tauri/src/agents.rs): the
 * edits of `MachineList`, made in place.
 */
module HeldList {
  import opened Wrappers
  import opened Text
  import opened MachineList

  lemma {:induction false} ChangedIsAnUpdate(remote: seq<RemoteAgent>, id: string, f: RemoteAgent -> RemoteAgent, i: nat)
    requires i <= |remote| && forall j | 0 <= j < i :: remote[j].id != id
    requires i < |remote| ==> remote[i].id == id
    ensures Changed(remote, id, f) == if i < |remote| then remote[i := f(remote[i])] else remote
    ensures Find(remote, id) == if i < |remote| then Some(remote[i]) else None
  {
    if i > 0 {
      ChangedIsAnUpdate(remote[1..], id, f, i - 1);
    }
  }

  lemma {:induction false} WithoutTakesTurns(remote: seq<RemoteAgent>, id: string, r: RemoteAgent)
    ensures Without(remote + [r], id) == Without(remote, id) + if r.id == id then [] else [r]
  {
    if remote == [] {
      assert remote + [r] == [r];
    } else {
      WithoutTakesTurns(remote[1..], id, r);
      assert (remote + [r])[1..] == remote[1..] + [r];
    }
  }

  lemma {:induction false} ForgottenTakesTurns(custom: seq<string>, id: string, c: string)
    ensures Forgotten(custom + [c], id) == Forgotten(custom, id) + if c == id then [] else [c]
  {
    if custom == [] {
      assert custom + [c] == [c];
    } else {
      ForgottenTakesTurns(custom[1..], id, c);
      assert (custom + [c])[1..] == custom[1..] + [c];
    }
  }

  lemma TakenIsPassed(remote: seq<RemoteAgent>, n: nat, at: nat)
    requires at < |remote| && remote[at].id == ApiId(n)
    ensures FirstUnused(Ids(remote), n + 1) == FirstUnused(Ids(remote), n)
    ensures |InTheWay(Ids(remote), n + 1)| < |InTheWay(Ids(remote), n)|
  {
    assert Ids(remote)[at] == ApiId(n);
    OneLessInTheWay(Ids(remote), n);
  }

  lemma FreeIsFound(remote: seq<RemoteAgent>, n: nat)
    requires forall r | r in remote :: r.id != ApiId(n)
    ensures FirstUnused(Ids(remote), n) == n
  {
    var ids := Ids(remote);
    forall i | 0 <= i < |ids| ensures ids[i] != ApiId(n) {
      assert remote[i] in remote && ids[i] == remote[i].id;
    }
  }

  /** The list while a command holds it. */
  class Held {
    var jobs: map<string, Jobs>
    var custom: seq<string>
    var remote: seq<RemoteAgent>
    var repos: map<string, Option<seq<string>>>
    var reviewDefault: Option<string>
    var mergeDefault: Option<string>

    ghost function Contents(): Machine
      reads this
    {
      Machine(jobs, custom, remote, repos, reviewDefault, mergeDefault)
    }

    constructor (m: Machine)
      ensures Contents() == m
    {
      jobs, custom, remote, repos := m.jobs, m.custom, m.remote, m.repos;
      reviewDefault, mergeDefault := m.reviewDefault, m.mergeDefault;
    }

    /** Where the first agent called `id` is, or past the end. */
    method Position(id: string) returns (i: nat)
      ensures i <= |remote| && forall j | 0 <= j < i :: remote[j].id != id
      ensures i < |remote| ==> remote[i].id == id
    {
      i := 0;
      while i < |remote| && remote[i].id != id
        invariant i <= |remote| && forall j | 0 <= j < i :: remote[j].id != id
      {
        i := i + 1;
      }
    }

    /** Keep every agent but those called `id`, in place. */
    method Retain(id: string)
      modifies this`remote
      ensures remote == Without(old(remote), id)
    {
      var all := remote;
      remote := [];
      for k := 0 to |all|
        invariant remote == Without(all[..k], id)
      {
        WithoutTakesTurns(all[..k], id, all[k]);
        assert all[..k + 1] == all[..k] + [all[k]];
        if all[k].id != id {
          remote := remote + [all[k]];
        }
      }
      assert all[..|all|] == all;
    }

    /** Count up from one past the agents there are, until nobody has that id. */
    method UnusedId() returns (id: string)
      ensures id == ApiId(FirstUnused(Ids(remote), |remote| + 1))
      ensures forall r | r in remote :: r.id != id
    {
      var n: nat := |remote| + 1;
      ghost var free := FirstUnused(Ids(remote), n);
      id := ApiId(n);
      var at: nat := Position(id);
      while at < |remote|
        invariant id == ApiId(n) && FirstUnused(Ids(remote), n) == free
        invariant at <= |remote| && forall j | 0 <= j < at :: remote[j].id != id
        invariant at < |remote| ==> remote[at].id == id
        decreases |InTheWay(Ids(remote), n)|
      {
        TakenIsPassed(remote, n, at);
        n := n + 1;
        id := ApiId(n);
        at := Position(id);
      }
      FreeIsFound(remote, n);
    }

    /** Put together what is saved under `id`; refused when its new key cannot be kept. */
    method Build(id: string, input: RemoteInput) returns (ok: bool, saved: RemoteAgent)
      ensures ok == !(NewKey(input).Some? && !input.stores)
      ensures ok ==> saved == Built(id, input, Find(remote, id))
    {
      var at: nat := Position(id);
      ChangedIsAnUpdate(remote, id, (r: RemoteAgent) => r, at);
      var keyEnd, spent, spentDay := None, 0, 0;
      if at < |remote| {
        keyEnd, spent, spentDay := remote[at].keyEnd, remote[at].spent, remote[at].spentDay;
      }
      ok := true;
      if input.key.Some? && Trim(input.key.value) != "" {
        ok := input.stores;
        keyEnd := LastFour(Trim(input.key.value));
      }
      var name := if Trim(input.name) == "" then input.provider else Trim(input.name);
      var jobs := if input.jobs.Some? then input.jobs.value.(farm := false) else Jobs(true, true, false);
      saved := RemoteAgent(id, name, input.provider, Trim(input.base), Trim(input.model), jobs,
                           input.perRun, input.perDay, input.minutes, keyEnd, spent, spentDay);
    }

    method SaveRemote(input: RemoteInput) returns (ok: bool)
      modifies this`remote
      ensures ok == Applied(old(Contents()), Edit.SaveRemote(input)).Some?
      ensures ok <==> Trim(input.model) != "" && (input.stores || forall key :: !Brings(input, key))
      ensures Contents() == if ok then Applied(old(Contents()), Edit.SaveRemote(input)).value else old(Contents())
      ensures ok ==> |remote| > 0 && IsSaved(old(remote), input, remote[|remote| - 1])
      ensures ok ==> remote == Without(old(remote), remote[|remote| - 1].id) + [remote[|remote| - 1]]
    {
      NewKeyIsBrought(input);
      if Trim(input.model) == "" {
        return false;
      }
      var id;
      if input.id.Some? {
        id := input.id.value;
      } else {
        id := UnusedId();
      }
      var saved;
      ok, saved := Build(id, input);
      if ok {
        Retain(id);
        remote := remote + [saved];
        SavedIsAsAsked(old(remote), input);
      }
    }

    method SetJobs(id: string, given: Jobs)
      modifies this`remote, this`jobs
      ensures Some(Contents()) == Applied(old(Contents()), Edit.SetJobs(id, given))
      ensures forall i: nat | IsFirst(old(remote), id, i) ::
                jobs == old(jobs) && remote == old(remote)[i := old(remote)[i].(jobs := Jobs(given.review, given.merge, false))]
      ensures (forall r | r in old(remote) :: r.id != id) ==> remote == old(remote) && jobs == old(jobs)[id := given]
    {
      var at := Position(id);
      ChangedIsAnUpdate(remote, id, (r: RemoteAgent) => r.(jobs := given.(farm := false)), at);
      if at < |remote| {
        remote := remote[at := remote[at].(jobs := given.(farm := false))];
      } else {
        jobs := jobs[id := given];
      }
    }

    /** Count `tokens` against today, starting the day again from nothing when it is another. */
    method Record(id: string, today: nat, tokens: nat)
      modifies this`remote
      ensures Some(Contents()) == Applied(old(Contents()), Edit.Record(id, today, tokens))
      ensures forall i: nat | IsFirst(old(remote), id, i) ::
                var was := old(remote)[i];
                remote == old(remote)[i := was.(spentDay := today,
                                                spent := if was.spentDay == today then was.spent + tokens else tokens)]
      ensures (forall r | r in old(remote) :: r.id != id) ==> remote == old(remote)
    {
      var at := Position(id);
      ChangedIsAnUpdate(remote, id, (r: RemoteAgent) => Counted(r, today, tokens), at);
      if at < |remote| {
        var agent := remote[at];
        if agent.spentDay != today {
          agent := agent.(spentDay := today, spent := 0);
        }
        agent := agent.(spent := agent.spent + tokens);
        remote := remote[at := agent];
      }
    }

    /** Add a custom agent at the end, in place of one with its id. */
    method SaveCustom(definition: string)
      modifies this`custom
      ensures Some(Contents()) == Applied(old(Contents()), Edit.SaveCustom(definition))
      ensures |custom| > 0 && custom[|custom| - 1] == definition
      ensures forall c :: c in custom <==> c in old(custom) || c == definition
    {
      var all := custom;
      custom := [];
      for k := 0 to |all|
        invariant custom == Forgotten(all[..k], definition)
      {
        ForgottenTakesTurns(all[..k], definition, all[k]);
        assert all[..k + 1] == all[..k] + [all[k]];
        if all[k] != definition {
          custom := custom + [all[k]];
        }
      }
      assert all[..|all|] == all;
      ForgottenIsGone(all, definition);
      custom := custom + [definition];
    }

    method Remove(id: string)
      modifies this
      ensures Some(Contents()) == Applied(old(Contents()), Edit.Remove(id))
    {
      Retain(id);
      custom := Forgotten(custom, id);
      jobs := jobs - {id};
      repos := map k | k in repos :: if repos[k].Some? then Some(Forgotten(repos[k].value, id)) else None;
      if reviewDefault == Some(id) {
        reviewDefault := None;
      }
      if mergeDefault == Some(id) {
        mergeDefault := None;
      }
    }
  }
}
