/**
 * The multiplexer that is shipped (tools/multiplexer.ts). A build puts pinned
 * files into one directory, step by step, and leaves a stamp there that lets
 * the next build do nothing. A build may be cut off between any two steps, in
 * the middle of a copy, and in the middle of the stamp.
 */
module Staging {
  import opened Wrappers
  import opened Text

  datatype Asset = Asset(url: string, sha256: string, take: seq<string>)

  datatype Pinned = Pinned(name: string, version: string, asset: Asset, licences: Option<Asset>)

  datatype Request = Request(target: string, pin: Pinned)

  /** Bytes that were downloaded: their digest, and the files `tar` finds in them, when it can read them. */
  datatype Archive = Archive(sha256: string, files: Option<set<string>>)

  /** An entry of the directory. A taken file remembers the digest of the archive it came out of. */
  datatype Entry = Partial | Taken(sha256: string) | Stamp(text: string) | Other

  type Dir = map<string, Entry>

  const STAMP := ".staged"
  const GITKEEP := ".gitkeep"

  // --- The stamp -------------------------------------------------------------

  function StampOf(target: string, pin: Pinned): string {
    target + " " + (pin.name + " " + (pin.version + " " + (pin.asset.sha256 + LicencesPart(pin))))
  }

  function LicencesPart(pin: Pinned): string {
    if pin.licences.Some? then " " + pin.licences.value.sha256 else ""
  }

  /** `parts` with a space between them. */
  function Joined(parts: seq<string>): string {
    if parts == [] then "" else if |parts| == 1 then parts[0] else parts[0] + " " + Joined(parts[1..])
  }

  /** The stamp is the target, the name, the version and the digests there are, with a space between them. */
  lemma StampIsJoined(target: string, pin: Pinned)
    ensures StampOf(target, pin)
            == Joined([target, pin.name, pin.version, pin.asset.sha256]
                      + if pin.licences.Some? then [pin.licences.value.sha256] else [])
  {
    var d, l := pin.asset.sha256, if pin.licences.Some? then [pin.licences.value.sha256] else [];
    var one := [d] + l;
    var two := [pin.version] + one;
    var three := [pin.name] + two;
    assert one[1..] == l && two[1..] == one && three[1..] == two && ([target] + three)[1..] == three;
    assert Joined(one) == d + LicencesPart(pin);
    assert Joined(two) == pin.version + " " + Joined(one);
    assert Joined(three) == pin.name + " " + Joined(two);
    assert [target, pin.name, pin.version, d] + l == [target] + three;
  }

  function Takes(pin: Pinned): seq<string> {
    pin.asset.take + if pin.licences.Some? then pin.licences.value.take else []
  }

  /** The directory holds what `pin` puts there, as far as the stamp and the names of the files tell. */
  predicate IsStaged(dir: Dir, target: string, pin: Pinned) {
    && STAMP in dir && dir[STAMP].Stamp? && Trim(dir[STAMP].text) == StampOf(target, pin)
    && forall f | f in Takes(pin) :: f in dir
  }

  predicate IsWord(w: string) {
    w != "" && forall c | c in w :: !IsSpace(c)
  }

  predicate IsDigest(d: string) {
    |d| == 64 && IsWord(d)
  }

  predicate IsName(f: string) {
    f != STAMP && f != GITKEEP
  }

  /** What every line of the table of pins is like: words, digests, plain names, and one archive to an address. */
  predicate IsPin(r: Request) {
    && IsWord(r.target) && IsWord(r.pin.name) && IsWord(r.pin.version) && IsDigest(r.pin.asset.sha256)
    && (r.pin.licences.Some? ==>
          && IsDigest(r.pin.licences.value.sha256)
          && (r.pin.licences.value.url == r.pin.asset.url ==> r.pin.licences.value.sha256 == r.pin.asset.sha256))
    && forall f | f in Takes(r.pin) :: IsName(f)
  }

  lemma StartsVisibly(w: string, rest: string)
    requires forall c | c in w :: !IsSpace(c)
    ensures IsSpace((w + " " + rest)[0]) <==> w == ""
  {
    assert w != "" ==> w[0] in w && (w + " " + rest)[0] == w[0];
  }

  /** A word followed by a space is where the other begins with a word and a space, too: the words agree. */
  lemma {:induction false} WordsAgree(v: string, w: string, restV: string, restW: string)
    requires (forall c | c in v :: !IsSpace(c)) && (forall c | c in w :: !IsSpace(c))
    requires v + " " + restV <= w + " " + restW
    ensures v == w && restV <= restW
  {
    var a, b := v + " " + restV, w + " " + restW;
    StartsVisibly(v, restV);
    StartsVisibly(w, restW);
    assert a[0] == b[0] && (v == "" <==> w == "");
    if v == "" {
      assert a[1..] == restV && b[1..] == restW;
    } else {
      assert a[1..] == v[1..] + " " + restV && b[1..] == w[1..] + " " + restW;
      WordsAgree(v[1..], w[1..], restV, restW);
    }
  }

  /** Text that begins with something visible loses only white space at its end. */
  lemma {:induction false} TrimEndIsAPrefix(s: string)
    ensures TrimEnd(s) <= s
    ensures TrimEnd(s) != "" ==> !IsSpace(TrimEnd(s)[|TrimEnd(s)| - 1])
  {
    if s != "" && IsSpace(s[|s| - 1]) {
      TrimEndIsAPrefix(s[..|s| - 1]);
    }
  }

  /** The pins agree on everything but, perhaps, licences that only the first has. */
  ghost predicate SamePin(r: Request, q: Request) {
    && r.target == q.target && r.pin.name == q.pin.name && r.pin.version == q.pin.version
    && r.pin.asset.sha256 == q.pin.asset.sha256
    && (q.pin.licences.Some? ==> r.pin.licences.Some? && r.pin.licences.value.sha256 == q.pin.licences.value.sha256)
  }

  lemma PrefixIsSamePin(r: Request, q: Request)
    requires IsPin(r) && IsPin(q) && StampOf(q.target, q.pin) <= StampOf(r.target, r.pin)
    ensures SamePin(r, q)
  {
    var p, w := q.pin, r.pin;
    WordsAgree(q.target, r.target,
               p.name + " " + (p.version + " " + (p.asset.sha256 + LicencesPart(p))),
               w.name + " " + (w.version + " " + (w.asset.sha256 + LicencesPart(w))));
    WordsAgree(p.name, w.name,
               p.version + " " + (p.asset.sha256 + LicencesPart(p)),
               w.version + " " + (w.asset.sha256 + LicencesPart(w)));
    WordsAgree(p.version, w.version, p.asset.sha256 + LicencesPart(p), w.asset.sha256 + LicencesPart(w));
    DigestsAgree(p, w);
  }

  lemma DigestsAgree(p: Pinned, w: Pinned)
    requires |p.asset.sha256| == |w.asset.sha256|
    requires p.licences.Some? && w.licences.Some? ==> |p.licences.value.sha256| == |w.licences.value.sha256|
    requires p.asset.sha256 + LicencesPart(p) <= w.asset.sha256 + LicencesPart(w)
    ensures p.asset.sha256 == w.asset.sha256
    ensures p.licences.Some? ==> w.licences.Some? && w.licences.value.sha256 == p.licences.value.sha256
  {
    var a, b, n := p.asset.sha256 + LicencesPart(p), w.asset.sha256 + LicencesPart(w), |p.asset.sha256|;
    assert a[..n] == b[..n] && a[..n] == p.asset.sha256 && b[..n] == w.asset.sha256;
    assert a == b[..|a|];
    assert a[n..] == LicencesPart(p) && b[n..] == LicencesPart(w) && LicencesPart(p) <= LicencesPart(w);
    if p.licences.Some? {
      assert LicencesPart(p)[1..] == p.licences.value.sha256 && LicencesPart(w)[1..] == w.licences.value.sha256;
    }
  }

  lemma StampIsTrimmed(r: Request)
    requires IsPin(r)
    ensures |StampOf(r.target, r.pin)| > 0
    ensures !IsSpace(StampOf(r.target, r.pin)[0]) && !IsSpace(StampOf(r.target, r.pin)[|StampOf(r.target, r.pin)| - 1])
    ensures Trim(StampOf(r.target, r.pin) + "\n") == StampOf(r.target, r.pin)
  {
    var s, d := StampOf(r.target, r.pin), r.pin.asset.sha256;
    assert s[0] == r.target[0] && r.target[0] in r.target;
    if r.pin.licences.Some? {
      var l := r.pin.licences.value.sha256;
      assert s[|s| - 1] == l[63] && l[63] in l;
    } else {
      assert s[|s| - 1] == d[63] && d[63] in d;
    }
    assert (s + "\n")[..|s|] == s && TrimEnd(s) == s;
    assert TrimStart(s + "\n") == s + "\n";
  }

  lemma CutIsAPrefix(s: string, t: string, k: nat)
    requires s != "" && !IsSpace(s[0]) && t != "" && !IsSpace(t[|t| - 1])
    requires k <= |s| + 1 && Trim((s + "\n")[..k]) == t
    ensures t <= s
  {
    var cut := (s + "\n")[..k];
    if cut != "" {
      assert cut[0] == s[0] && TrimStart(cut) == cut;
    }
    TrimEndIsAPrefix(cut);
    assert t <= cut <= s + "\n";
    assert (s + "\n")[|s|] == '\n' && |t| <= |s|;
    assert t == (s + "\n")[..|t|] == s[..|t|];
  }

  /**
   * A stamp that was cut off anywhere still tells the truth: if it reads as
   * the stamp of `q`, the pin it was being written for has the same digests.
   */
  lemma CutStampIsSamePin(r: Request, q: Request, k: nat)
    requires IsPin(r) && IsPin(q) && k <= |StampOf(r.target, r.pin)| + 1
    requires Trim((StampOf(r.target, r.pin) + "\n")[..k]) == StampOf(q.target, q.pin)
    ensures SamePin(r, q)
  {
    StampIsTrimmed(r);
    StampIsTrimmed(q);
    CutIsAPrefix(StampOf(r.target, r.pin), StampOf(q.target, q.pin), k);
    PrefixIsSamePin(r, q);
  }

  // --- What the directory may hold -------------------------------------------

  /** The digest of the archive that `pin` takes `f` from: licences are copied last. */
  function Origin(pin: Pinned, f: string): string {
    if pin.licences.Some? && f in pin.licences.value.take then pin.licences.value.sha256 else pin.asset.sha256
  }

  /** Nothing is there but what `pin` takes, each file whole and out of the archive it is taken from. */
  ghost predicate Pure(dir: Dir, pin: Pinned) {
    forall f | f in dir && IsName(f) :: f in Takes(pin) && dir[f] == Taken(Origin(pin, f))
  }

  ghost predicate Tells(r: Request, dir: Dir)
    requires STAMP in dir && dir[STAMP].Stamp?
  {
    dir[STAMP].text <= StampOf(r.target, r.pin) + "\n" && Pure(dir, r.pin)
  }

  /** Where there is a stamp, or part of one, it is that of a request whose files alone are there, all of them whole. */
  ghost predicate Sound(past: set<Request>, dir: Dir) {
    STAMP in dir && dir[STAMP].Stamp? ==> exists r | r in past :: Tells(r, dir)
  }

  lemma RemovingIsSound(past: set<Request>, dir: Dir, f: string)
    requires Sound(past, dir)
    ensures Sound(past, dir - {f})
  {
    var less := dir - {f};
    if STAMP in less && less[STAMP].Stamp? {
      var r :| r in past && Tells(r, dir);
      assert Tells(r, less);
    }
  }

  /** Every file that `pin` takes is there, whole, out of the archive it is taken from. */
  ghost predicate AsPinned(dir: Dir, pin: Pinned) {
    forall f | f in Takes(pin) :: f in dir && dir[f] == Taken(Origin(pin, f))
  }

  /** Exactly what `pin` puts there is there: its files, and no others. */
  ghost predicate Exactly(dir: Dir, pin: Pinned) {
    AsPinned(dir, pin) && forall f | f in dir && IsName(f) :: f in Takes(pin)
  }

  /** What `q` takes, `p` takes from the same archives. */
  ghost predicate SameOrigins(p: Pinned, q: Pinned) {
    forall f | f in Takes(q) :: Origin(p, f) == Origin(q, f)
  }

  /** And `p` takes nothing that `q` does not. */
  ghost predicate SameTakes(p: Pinned, q: Pinned) {
    SameOrigins(p, q) && forall f | f in Takes(p) :: f in Takes(q)
  }

  /**
   * If the directory counts as staged for `q`, every file `q` takes is there,
   * whole, out of an archive that the pin `r` staged before names by the same
   * digests. They are the files `q` pins exactly when `r` took each of them
   * from the archive `q` takes it from; and they are all that is there exactly
   * when none is left that only `r` takes. The stamp does not say which files
   * were taken from which archive, so that is up to the pins: where `r` takes
   * what `q` takes, nothing else can be there, and once all that `r` takes is
   * there, only then.
   */
  lemma StagedIsPinned(past: set<Request>, dir: Dir, q: Request) returns (r: Request)
    requires Sound(past, dir) && IsPin(q) && forall r | r in past :: IsPin(r)
    requires IsStaged(dir, q.target, q.pin)
    ensures r in past && SamePin(r, q)
    ensures forall f | f in Takes(q.pin) :: f in dir && f in Takes(r.pin) && dir[f] == Taken(Origin(r.pin, f))
    ensures AsPinned(dir, q.pin) <==> SameOrigins(r.pin, q.pin)
    ensures Exactly(dir, q.pin) <==>
              SameOrigins(r.pin, q.pin) && forall f | f in Takes(r.pin) && f in dir :: f in Takes(q.pin)
    ensures SameTakes(r.pin, q.pin) ==> Exactly(dir, q.pin)
    ensures AsPinned(dir, r.pin) ==> (Exactly(dir, q.pin) <==> SameTakes(r.pin, q.pin))
  {
    r :| r in past && Tells(r, dir);
    var whole := StampOf(r.target, r.pin) + "\n";
    assert dir[STAMP].text == whole[..|dir[STAMP].text|];
    CutStampIsSamePin(r, q, |dir[STAMP].text|);
    PureIsExact(dir, r.pin, q.pin);
  }

  lemma PureIsExact(dir: Dir, p: Pinned, q: Pinned)
    requires Pure(dir, p) && (forall f | f in Takes(q) :: f in dir && IsName(f)) && forall f | f in Takes(p) :: IsName(f)
    ensures AsPinned(dir, q) <==> SameOrigins(p, q)
    ensures Exactly(dir, q) <==> SameOrigins(p, q) && forall f | f in Takes(p) && f in dir :: f in Takes(q)
  {
  }

  /** One table of pins, by target. */
  ghost predicate FromTable(past: set<Request>, table: map<string, Pinned>) {
    forall r | r in past :: r.target in table && r.pin == table[r.target]
  }

  /** As long as every build read the same table, staged means exactly what is pinned, wherever any of them was cut off. */
  lemma StagedFromOneTable(past: set<Request>, table: map<string, Pinned>, dir: Dir, target: string)
    requires Sound(past, dir) && FromTable(past, table) && target in table && IsStaged(dir, target, table[target])
    requires forall t | t in table :: IsPin(Request(t, table[t]))
    ensures Exactly(dir, table[target])
  {
    var r := StagedIsPinned(past, dir, Request(target, table[target]));
  }

  // --- The build -------------------------------------------------------------

  datatype Outcome = NotPinned | AlreadyStaged | Staged | Failed

  /** The download is the pinned one and can be unpacked, and what is taken is in it, or was there `before`. */
  ghost predicate Brings(asset: Asset, answer: Option<Archive>, before: set<string>) {
    && answer.Some? && answer.value.sha256 == asset.sha256 && answer.value.files.Some?
    && forall f | f in asset.take :: f in answer.value.files.value || f in before
  }

  /** Archives with one address are unpacked into one place. */
  ghost predicate BringsAll(pin: Pinned, first: Option<Archive>, second: Option<Archive>) {
    && Brings(pin.asset, first, {})
    && (pin.licences.Some? ==>
          Brings(pin.licences.value, second, if pin.licences.value.url == pin.asset.url then first.value.files.value else {}))
  }

  /**
   * How a build fares outside the directory: what its downloads bring, whether
   * the mode of the program can be set, and after how many characters the
   * write of the stamp fails, when it does.
   */
  datatype Luck = Luck(first: Option<Archive>, second: Option<Archive>, chmods: bool, stampFails: Option<nat>)

  predicate Includes(s: string, part: string) {
    part <= s || (s != "" && Includes(s[1..], part))
  }

  ghost predicate IsWithin(part: string, s: string) {
    exists before, after :: s == before + part + after
  }

  lemma {:induction false} IncludesIsWithin(s: string, part: string)
    ensures Includes(s, part) <==> IsWithin(part, s)
  {
    if part <= s {
      assert s == "" + part + s[|part|..];
    } else if s != "" {
      IncludesIsWithin(s[1..], part);
      if before, after :| s[1..] == before + part + after {
        assert s == ([s[0]] + before) + part + after;
      }
      if before, after :| s == before + part + after {
        assert before == "" ==> s == part + after;
        assert s[1..] == before[1..] + part + after;
      }
    }
  }

  /** The mode is set for the first file that is taken, except on Windows; there has to be one. */
  ghost predicate CanRun(target: string, pin: Pinned, luck: Luck) {
    IsWithin("windows", target) || (luck.chmods && pin.asset.take != [])
  }

  /** The write of the stamp and the newline after it gets to its end. */
  predicate CanStamp(target: string, pin: Pinned, fails: Option<nat>) {
    fails.None? || fails.value > |StampOf(target, pin)|
  }

  /** Nothing outside the directory goes wrong. */
  ghost predicate Fares(target: string, pin: Pinned, luck: Luck) {
    BringsAll(pin, luck.first, luck.second) && CanRun(target, pin, luck) && CanStamp(target, pin, luck.stampFails)
  }

  /** The marker that keeps the directory in the repository. */
  function Marker(dir: Dir): Option<Entry> {
    if GITKEEP in dir then Some(dir[GITKEEP]) else None
  }

  /** `dir` after `names` are copied into it out of an archive with digest `sha256`. */
  function Put(dir: Dir, names: seq<string>, sha256: string): Dir {
    dir + map f | f in names :: Taken(sha256)
  }

  /**
   * The bundle and the working directory beside it. `trail` is history: what
   * the bundle was after every single step, so that a build cut off anywhere
   * leaves one of these behind; `past` is every request ever made of it.
   */
  class Bundle {
    var dir: Dir
    var work: map<string, map<string, string>>
    var downloads: nat
    var room: nat
    var trail: seq<Dir>
    ghost var past: set<Request>

    ghost predicate Valid()
      reads this
    {
      && |trail| > 0 && trail[|trail| - 1] == dir
      && (forall d | d in trail :: Sound(past, d))
      && (forall r | r in past :: IsPin(r))
    }

    /** A directory nobody has staged into. */
    constructor (dir: Dir, room: nat)
      requires STAMP !in dir
      ensures Valid() && this.dir == dir && past == {} && trail == [dir] && downloads == 0 && this.room == room
    {
      this.dir, work, downloads, this.room, trail, past := dir, map[], 0, room, [dir], {};
    }

    /** Remove everything but the marker that keeps the directory in the repository, in whatever order it is listed. */
    method Clear()
      requires Valid()
      modifies this`dir, this`trail
      ensures Valid() && old(trail) <= trail
      ensures dir == (map f | f in old(dir) && f == GITKEEP :: old(dir)[f]) && Marker(dir) == Marker(old(dir))
    {
      var left := set f | f in dir && f != GITKEEP;
      while left != {}
        invariant Valid() && old(trail) <= trail
        invariant left <= dir.Keys && GITKEEP !in left
        invariant dir == map f | f in old(dir) && (f == GITKEEP || f in left) :: old(dir)[f]
        decreases left
      {
        var f :| f in left;
        RemovingIsSound(past, dir, f);
        left := left - {f};
        dir := dir - {f};
        trail := trail + [dir];
      }
    }

    /** One step that leaves no stamp behind. */
    method Write(f: string, entry: Entry)
      requires Valid() && f != STAMP && STAMP !in dir
      modifies this`dir, this`trail
      ensures Valid() && old(trail) <= trail && dir == old(dir)[f := entry]
    {
      dir := dir[f := entry];
      trail := trail + [dir];
    }

    /** Every download goes through here, and each may fail. */
    method Download(answer: Option<Archive>) returns (got: Option<Archive>)
      modifies this`downloads
      ensures got == answer && downloads == old(downloads) + 1
    {
      downloads := downloads + 1;
      got := answer;
    }

    /** What is unpacked so far of what is at `url`. */
    ghost function Unpacked(url: string): set<string>
      reads this
    {
      if url in work then work[url].Keys else {}
    }

    /** Download, check and unpack one asset and copy what is taken from it. `true` means every file arrived. */
    method Stage(asset: Asset, answer: Option<Archive>) returns (ok: bool)
      requires Valid() && STAMP !in dir && forall f | f in asset.take :: IsName(f)
      requires asset.url in work ==> forall f | f in work[asset.url] :: work[asset.url][f] == asset.sha256
      modifies this`dir, this`trail, this`work, this`downloads, this`room
      ensures Valid() && STAMP !in dir && old(trail) <= trail && downloads == old(downloads) + 1
      ensures ok <==> Brings(asset, answer, old(Unpacked(asset.url))) && old(room) >= |asset.take|
      ensures ok ==> dir == Put(old(dir), asset.take, asset.sha256) && room == old(room) - |asset.take|
      ensures Marker(dir) == Marker(old(dir))
      ensures ok ==> Unpacked(asset.url) == old(Unpacked(asset.url)) + answer.value.files.value
      ensures forall u | u in work && u != asset.url :: u in old(work) && work[u] == old(work)[u]
      ensures asset.url in work ==> forall f | f in work[asset.url] :: work[asset.url][f] == asset.sha256
    {
      var got := Download(answer);
      if got.None? || got.value.sha256 != asset.sha256 || got.value.files.None? {
        return false;
      }
      var before := if asset.url in work then work[asset.url] else map[];
      var unpacked := before + map f | f in got.value.files.value :: got.value.sha256;
      work := work[asset.url := unpacked];
      ok := Copy(asset, unpacked);
    }

    /** Copy one file, which is there in part before it is there. */
    method CopyOne(file: string, sha256: string) returns (ok: bool)
      requires Valid() && STAMP !in dir && IsName(file)
      modifies this`dir, this`trail, this`room
      ensures Valid() && STAMP !in dir && old(trail) <= trail && Marker(dir) == Marker(old(dir))
      ensures ok <==> old(room) > 0
      ensures ok ==> dir == old(dir)[file := Partial][file := Taken(sha256)] && room == old(room) - 1
    {
      Write(file, Partial);
      if room == 0 {
        return false;
      }
      room := room - 1;
      Write(file, Taken(sha256));
      return true;
    }

    method Copy(asset: Asset, unpacked: map<string, string>) returns (ok: bool)
      requires Valid() && STAMP !in dir && forall f | f in asset.take :: IsName(f)
      requires forall f | f in unpacked :: unpacked[f] == asset.sha256
      modifies this`dir, this`trail, this`room
      ensures Valid() && STAMP !in dir && old(trail) <= trail && Marker(dir) == Marker(old(dir))
      ensures ok ==> dir == Put(old(dir), asset.take, asset.sha256) && room == old(room) - |asset.take|
      ensures ok <==> old(room) >= |asset.take| && forall f | f in asset.take :: f in unpacked
    {
      var i := 0;
      assert dir == Put(dir, [], asset.sha256);
      while i < |asset.take|
        invariant Valid() && STAMP !in dir && old(trail) <= trail && 0 <= i <= |asset.take|
        invariant Marker(dir) == Marker(old(dir))
        invariant dir == Put(old(dir), asset.take[..i], asset.sha256) && room == old(room) - i
        invariant forall k | 0 <= k < i :: asset.take[k] in unpacked
      {
        var file := asset.take[i];
        assert file in asset.take;
        if file !in unpacked {
          return false;
        }
        ok := CopyOne(file, unpacked[file]);
        if !ok {
          return;
        }
        i := i + 1;
        PutOneMore(old(dir), asset.take, i, asset.sha256, dir);
      }
      assert asset.take[..i] == asset.take;
      return true;
    }

    /** Write the stamp, a character at a time. */
    method WriteStamp(target: string, pin: Pinned, fails: Option<nat>) returns (ok: bool)
      requires Valid() && STAMP !in dir && Request(target, pin) in past && Pure(dir, pin)
      modifies this`dir, this`trail
      ensures Valid() && old(trail) <= trail && Marker(dir) == Marker(old(dir))
      ensures ok ==> dir == old(dir)[STAMP := Stamp(StampOf(target, pin) + "\n")]
      ensures ok <==> CanStamp(target, pin, fails)
    {
      var text, i := StampOf(target, pin) + "\n", 0;
      ghost var r := Request(target, pin);
      dir := dir[STAMP := Stamp("")];
      assert Tells(r, dir);
      trail := trail + [dir];
      while i < |text|
        invariant 0 <= i <= |text| && Valid() && old(trail) <= trail && (fails.Some? ==> fails.value >= i)
        invariant dir == old(dir)[STAMP := Stamp(text[..i])]
      {
        if fails == Some(i) {
          return false;
        }
        i := i + 1;
        dir := dir[STAMP := Stamp(text[..i])];
        assert Tells(r, dir);
        trail := trail + [dir];
      }
      assert text[..i] == text;
      return true;
    }

    /** Stage both archives. */
    method StageBoth(pin: Pinned, luck: Luck) returns (ok: bool)
      requires Valid() && dir.Keys <= {GITKEEP} && work == map[] && forall f | f in Takes(pin) :: IsName(f)
      requires pin.licences.Some? && pin.licences.value.url == pin.asset.url ==> pin.licences.value.sha256 == pin.asset.sha256
      modifies this`dir, this`trail, this`work, this`downloads, this`room
      ensures Valid() && STAMP !in dir && old(trail) <= trail && Marker(dir) == Marker(old(dir))
      ensures ok <==> BringsAll(pin, luck.first, luck.second) && old(room) >= |Takes(pin)|
      ensures ok ==> Pure(dir, pin) && AsPinned(dir, pin) && dir.Keys <= set f | f in Takes(pin) + [STAMP, GITKEEP]
      ensures ok ==> downloads == old(downloads) + if pin.licences.Some? then 2 else 1
    {
      ghost var empty := dir;
      ok := Stage(pin.asset, luck.first);
      if !ok {
        return;
      }
      if pin.licences.Some? {
        ok := Stage(pin.licences.value, luck.second);
        if !ok {
          return;
        }
      }
      PutIsPinned(empty, pin, dir);
    }

    /** Stage both archives and then the stamp. */
    method StageAll(target: string, pin: Pinned, luck: Luck) returns (ok: bool)
      requires Valid() && dir.Keys <= {GITKEEP} && work == map[] && Request(target, pin) in past
      modifies this`dir, this`trail, this`work, this`downloads, this`room
      ensures Valid() && old(trail) <= trail && Marker(dir) == Marker(old(dir))
      ensures ok <==> Fares(target, pin, luck) && old(room) >= |Takes(pin)|
      ensures ok ==> IsStaged(dir, target, pin) && Exactly(dir, pin) && dir[STAMP] == Stamp(StampOf(target, pin) + "\n")
      ensures ok ==> dir.Keys <= set f | f in Takes(pin) + [STAMP, GITKEEP]
      ensures ok ==> downloads == old(downloads) + if pin.licences.Some? then 2 else 1
    {
      assert IsPin(Request(target, pin));
      ok := StageBoth(pin, luck);
      if !ok {
        return;
      }
      IncludesIsWithin(target, "windows");
      if !Includes(target, "windows") && (!luck.chmods || pin.asset.take == []) {
        return false;
      }
      ok := WriteStamp(target, pin, luck.stampFails);
      StampIsTrimmed(Request(target, pin));
    }

    /** Clear the bundle, stage it anew, and clear it again when that fails. */
    method Restage(target: string, pin: Pinned, luck: Luck) returns (ok: bool)
      requires Valid() && Request(target, pin) in past
      modifies this`dir, this`trail, this`work, this`downloads, this`room
      ensures Valid() && old(trail) <= trail && Marker(dir) == Marker(old(dir))
      ensures ok <==> Fares(target, pin, luck) && old(room) >= |Takes(pin)|
      ensures ok ==> IsStaged(dir, target, pin) && Exactly(dir, pin) && dir[STAMP] == Stamp(StampOf(target, pin) + "\n")
      ensures ok ==> dir.Keys <= set f | f in Takes(pin) + [STAMP, GITKEEP]
      ensures ok ==> downloads == old(downloads) + if pin.licences.Some? then 2 else 1
      ensures !ok ==> dir.Keys <= {GITKEEP}
    {
      Clear();
      work := map[];
      ok := StageAll(target, pin, luck);
      if !ok {
        Clear();
      }
      work := map[];
    }

    /**
     * Put the multiplexer for `target` in place. Whatever the downloads bring
     * and wherever it is cut off, what it leaves is sound; when it returns,
     * the directory holds everything that is pinned and nothing else, or
     * nothing at all.
     */
    method FetchMultiplexer(target: string, pinned: Option<Pinned>, luck: Luck) returns (outcome: Outcome)
      requires Valid() && (pinned.Some? ==> IsPin(Request(target, pinned.value)))
      modifies this
      ensures Valid() && old(trail) <= trail
      ensures past == old(past) + if pinned.Some? then {Request(target, pinned.value)} else {}
      ensures outcome.NotPinned? <==> pinned.None?
      ensures outcome.AlreadyStaged? <==> pinned.Some? && IsStaged(old(dir), target, pinned.value)
      ensures outcome.AlreadyStaged? ==> dir == old(dir) && trail == old(trail) && downloads == old(downloads)
      ensures outcome.Staged? <==>
                && pinned.Some? && !IsStaged(old(dir), target, pinned.value)
                && Fares(target, pinned.value, luck) && old(room) >= |Takes(pinned.value)|
      ensures outcome.Staged? ==> IsStaged(dir, target, pinned.value) && Exactly(dir, pinned.value)
      ensures outcome.Staged? ==> dir[STAMP] == Stamp(StampOf(target, pinned.value) + "\n")
      ensures outcome.Staged? ==> dir.Keys <= set f | f in Takes(pinned.value) + [STAMP, GITKEEP]
      ensures outcome.Staged? ==> downloads == old(downloads) + if pinned.value.licences.Some? then 2 else 1
      ensures outcome.NotPinned? || outcome.Failed? ==> dir.Keys <= {GITKEEP}
      ensures outcome.NotPinned? ==> downloads == old(downloads)
      ensures Marker(dir) == Marker(old(dir))
    {
      if pinned.None? {
        Clear();
        return NotPinned;
      }
      var pin := pinned.value;
      past := past + {Request(target, pin)};
      if IsStaged(dir, target, pin) {
        return AlreadyStaged;
      }
      var ok := Restage(target, pin, luck);
      outcome := if ok then Staged else Failed;
    }

    /** A build stops at some moment: what it leaves is what the directory was then. */
    method CutOff(moment: nat)
      requires Valid() && moment < |trail|
      modifies this`dir, this`trail
      ensures Valid() && dir == old(trail)[moment]
    {
      dir := trail[moment];
      trail := trail + [dir];
    }
  }

  /** A request, how it fares, and after how many steps it is cut off; past its last step it ends by itself. */
  datatype Build = Build(target: string, pinned: Option<Pinned>, luck: Luck, steps: nat)

  ghost function Requests(builds: seq<Build>): set<Request> {
    set b | b in builds && b.pinned.Some? :: Request(b.target, b.pinned.value)
  }

  /** What counts as staged is as pinned, and exactly that, as far as the pins ever built agree on what is taken. */
  ghost predicate StagedIsRight(past: set<Request>, dir: Dir) {
    forall q | IsPin(q) && IsStaged(dir, q.target, q.pin) ::
      && (AllOrigins(past, q) ==> AsPinned(dir, q.pin))
      && (AllTakes(past, q) ==> Exactly(dir, q.pin))
  }

  /** Every pin ever built with the digests of `q` takes the files of `q` from the same archives as `q`. */
  ghost predicate AllOrigins(past: set<Request>, q: Request) {
    forall r | r in past && SamePin(r, q) :: SameOrigins(r.pin, q.pin)
  }

  /** And none of them takes any other file. */
  ghost predicate AllTakes(past: set<Request>, q: Request) {
    forall r | r in past && SamePin(r, q) :: SameTakes(r.pin, q.pin)
  }

  lemma SoundIsRight(past: set<Request>, dir: Dir)
    requires Sound(past, dir) && forall r | r in past :: IsPin(r)
    ensures StagedIsRight(past, dir)
  {
    forall q | IsPin(q) && IsStaged(dir, q.target, q.pin)
      ensures AllOrigins(past, q) ==> AsPinned(dir, q.pin)
      ensures AllTakes(past, q) ==> Exactly(dir, q.pin)
    {
      var r := StagedIsPinned(past, dir, q);
    }
  }

  /** One build, cut off after its steps. */
  method BuildOnce(bundle: Bundle, b: Build)
    requires bundle.Valid() && (b.pinned.Some? ==> IsPin(Request(b.target, b.pinned.value)))
    modifies bundle
    ensures bundle.Valid() && bundle.past == old(bundle.past) + Requests([b])
  {
    var before := |bundle.trail|;
    var _ := bundle.FetchMultiplexer(b.target, b.pinned, b.luck);
    if before - 1 + b.steps < |bundle.trail| {
      bundle.CutOff(before - 1 + b.steps);
    }
  }

  lemma RequestsAdd(builds: seq<Build>, i: nat)
    requires i < |builds|
    ensures Requests(builds[..i + 1]) == Requests(builds[..i]) + Requests([builds[i]])
  {
    assert builds[..i + 1] == builds[..i] + [builds[i]];
  }

  /**
   * Any number of builds of any pins, each cut off anywhere: whatever the
   * directory then counts as staged for is right.
   */
  method BuildAgainAndAgain(bundle: Bundle, builds: seq<Build>)
    requires bundle.Valid()
    requires forall b | b in builds :: b.pinned.Some? ==> IsPin(Request(b.target, b.pinned.value))
    modifies bundle
    ensures bundle.Valid()
    ensures bundle.past == old(bundle.past) + Requests(builds)
    ensures StagedIsRight(bundle.past, bundle.dir)
  {
    var i := 0;
    while i < |builds|
      invariant 0 <= i <= |builds| && bundle.Valid()
      invariant bundle.past == old(bundle.past) + Requests(builds[..i])
    {
      assert builds[i] in builds;
      RequestsAdd(builds, i);
      BuildOnce(bundle, builds[i]);
      i := i + 1;
    }
    assert builds[..i] == builds;
    SoundIsRight(bundle.past, bundle.dir);
  }

  /** What both copies leave in an empty directory is what is pinned, and only that. */
  lemma PutIsPinned(empty: Dir, pin: Pinned, dir: Dir)
    requires empty.Keys <= {GITKEEP} && forall f | f in Takes(pin) :: IsName(f)
    requires pin.licences.None? ==> dir == Put(empty, pin.asset.take, pin.asset.sha256)
    requires pin.licences.Some? ==>
               dir == Put(Put(empty, pin.asset.take, pin.asset.sha256), pin.licences.value.take, pin.licences.value.sha256)
    ensures Pure(dir, pin) && AsPinned(dir, pin) && dir.Keys <= set f | f in Takes(pin) + [STAMP, GITKEEP]
  {
  }

  lemma PutOneMore(was: Dir, take: seq<string>, i: nat, sha256: string, dir: Dir)
    requires 0 < i <= |take|
    requires dir == Put(was, take[..i - 1], sha256)[take[i - 1] := Partial][take[i - 1] := Taken(sha256)]
    ensures dir == Put(was, take[..i], sha256)
  {
    assert take[..i] == take[..i - 1] + [take[i - 1]];
  }

  /** A build that succeeded leaves the next one of the same pin nothing to do, and nothing to download. */
  method BuildTwice(bundle: Bundle, target: string, pin: Pinned, luck: Luck)
    returns (once: Outcome, twice: Outcome, downloaded: nat)
    requires bundle.Valid() && IsPin(Request(target, pin))
    modifies bundle
    ensures once.Staged? || once.AlreadyStaged? ==> twice.AlreadyStaged? && bundle.downloads == downloaded
    ensures once.AlreadyStaged? ==> bundle.downloads == old(bundle.downloads) && bundle.dir == old(bundle.dir)
  {
    once := bundle.FetchMultiplexer(target, Some(pin), luck);
    downloaded := bundle.downloads;
    twice := bundle.FetchMultiplexer(target, Some(pin), luck);
  }

  /** The pins differ in what they take and in nothing else that is known of them. */
  ghost predicate DifferInTakes(p: Pinned, q: Pinned) {
    && q.name == p.name && q.version == p.version && q.asset.sha256 == p.asset.sha256
    && q.licences.Some? == p.licences.Some?
    && (p.licences.Some? ==> q.licences.value.sha256 == p.licences.value.sha256)
  }

  /**
   * What the stamp leaves out does matter. After a build that put everything
   * in place, a pin that differs in what it takes counts as staged exactly when
   * it takes no new file; and then exactly what it pins is there only if it
   * takes just the same files from the same archives.
   */
  method OtherTakesAreNotFetched(target: string, pin: Pinned, other: Pinned, luck: Luck)
    returns (dir: Dir, once: Outcome, twice: Outcome)
    requires IsPin(Request(target, pin)) && IsPin(Request(target, other)) && DifferInTakes(pin, other)
    requires Fares(target, pin, luck)
    ensures once.Staged?
    ensures twice.AlreadyStaged? <==> forall f | f in Takes(other) :: f in Takes(pin)
    ensures twice.AlreadyStaged? ==> Exactly(dir, pin) && (Exactly(dir, other) <==> SameTakes(pin, other))
  {
    var bundle := new Bundle(map[], |Takes(pin)|);
    once := bundle.FetchMultiplexer(target, Some(pin), luck);
    OtherCountsAsStaged(target, pin, other, bundle.dir);
    twice := bundle.FetchMultiplexer(target, Some(other), luck);
    dir := bundle.dir;
  }

  lemma OtherCountsAsStaged(target: string, pin: Pinned, other: Pinned, dir: Dir)
    requires IsPin(Request(target, pin)) && IsPin(Request(target, other)) && DifferInTakes(pin, other)
    requires IsStaged(dir, target, pin) && Exactly(dir, pin)
    ensures IsStaged(dir, target, other) <==> forall f | f in Takes(other) :: f in Takes(pin)
    ensures IsStaged(dir, target, other) ==> (Exactly(dir, other) <==> SameTakes(pin, other))
  {
    assert StampOf(target, other) == StampOf(target, pin);
    if IsStaged(dir, target, other) {
      PureIsExact(dir, pin, other);
    }
  }

  /** So a file that moves from one archive to the other is not fetched again: the file of the old archive stays. */
  method MovedFileIsNotFetched(target: string, pin: Pinned, a: string, b: string, moved: Pinned, luck: Luck)
    returns (dir: Dir, once: Outcome, twice: Outcome)
    requires IsPin(Request(target, pin)) && pin.licences.Some? && pin.licences.value.sha256 != pin.asset.sha256
    requires a != b && pin.asset.take == [a] && pin.licences.value.take == [b]
    requires moved == pin.(asset := pin.asset.(take := [b]), licences := Some(pin.licences.value.(take := [a])))
    requires Fares(target, pin, luck)
    ensures once.Staged? && twice.AlreadyStaged?
    ensures Exactly(dir, pin) && !AsPinned(dir, moved)
  {
    assert a in Takes(pin) && b in Takes(pin) && a in Takes(moved) && b in Takes(moved);
    assert Origin(moved, a) != Origin(pin, a);
    dir, once, twice := OtherTakesAreNotFetched(target, pin, moved, luck);
  }

  /** And a file that a pin no longer takes is not cleared away: it ships all the same. */
  method DroppedFileIsNotCleared(target: string, pin: Pinned, b: string, fewer: Pinned, luck: Luck)
    returns (dir: Dir, once: Outcome, twice: Outcome)
    requires IsPin(Request(target, pin)) && b in Takes(pin) && b !in Takes(fewer)
    requires DifferInTakes(pin, fewer) && IsPin(Request(target, fewer)) && SameOrigins(pin, fewer)
    requires (forall f | f in Takes(fewer) :: f in Takes(pin)) && Fares(target, pin, luck)
    ensures once.Staged? && twice.AlreadyStaged?
    ensures Exactly(dir, pin) && AsPinned(dir, fewer) && b in dir && !Exactly(dir, fewer)
  {
    dir, once, twice := OtherTakesAreNotFetched(target, pin, fewer, luck);
  }
}
