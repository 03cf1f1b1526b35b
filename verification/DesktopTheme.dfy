/**
 * Following the desktop's colours (src-tauri/src/desktop.rs): the scanner of a
 * flat generated file, the palette made from what it finds, and the loop that
 * reports changes.
 */
module DesktopTheme {
  import opened Wrappers
  import opened Text
  import opened Selection

  const MAX_KEYS := 256
  const MAX_VALUE_LEN := 200

  // --- Scanning --------------------------------------------------------------

  /** What a text is made of between newlines. */
  function Lines(text: string): (lines: seq<string>)
    ensures |lines| > 0
  {
    if text == "" then [""] else Before(text[0], Lines(text[1..]))
  }

  /** `lines` with `c` before the first of them. */
  function Before(c: char, lines: seq<string>): (r: seq<string>)
    requires |lines| > 0
    ensures |r| > 0
  {
    if c == '\n' then [""] + lines else [[c] + lines[0]] + lines[1..]
  }

  /** Where `c` first is in `s`. */
  function IndexOf(s: string, c: char): (r: Option<nat>)
    ensures r.Some? ==> r.value < |s| && s[r.value] == c && c !in s[..r.value]
    ensures r.None? ==> c !in s
  {
    if s == "" then None
    else if s[0] == c then Some(0)
    else if IndexOf(s[1..], c).Some? then Some(IndexOf(s[1..], c).value + 1)
    else None
  }

  predicate IsAlphanumeric(c: char) {
    'a' <= c <= 'z' || 'A' <= c <= 'Z' || '0' <= c <= '9'
  }

  predicate IsKey(key: string) {
    key != "" && forall c | c in key :: IsAlphanumeric(c) || c == '_'
  }

  /** A key is made of the letters, digits and underscore of ASCII, and of nothing else. */
  lemma KeysAreOfThese(key: string)
    ensures IsKey(key) <==>
              key != "" && forall c | c in key ::
                var n := c as int; 48 <= n <= 57 || 65 <= n <= 90 || n == 95 || 97 <= n <= 122
  {
  }

  /** The length of `s` in bytes of UTF-8. */
  function Bytes(s: string): nat {
    if s == "" then 0
    else
      var n := s[0] as int;
      (if n < 0x80 then 1 else if n < 0x800 then 2 else if n < 0x1_0000 then 3 else 4) + Bytes(s[1..])
  }

  /** What one line says: nothing, a pair, or that what follows is nested. */
  datatype Reading = Nothing | Header | Pair(key: string, value: string)

  function Read(raw: string): Reading {
    var line := Trim(raw);
    if line == "" || line[0] == '#' then Nothing
    else if line[0] == '[' then Header
    else
      var equals := IndexOf(line, '=');
      if equals.None? then Nothing
      else
        var key := Trim(line[..equals.value]);
        if IsKey(key) then Value(key, Trim(line[equals.value + 1..])) else Nothing
  }

  function Value(key: string, rest: string): Reading {
    if rest == "" || (rest[0] != '"' && rest[0] != '\'') then Nothing
    else
      var end := IndexOf(rest[1..], rest[0]);
      if end.None? || Bytes(rest[1..1 + end.value]) > MAX_VALUE_LEN then Nothing
      else Pair(key, rest[1..1 + end.value])
  }

  /** What the lines from here on add to `found`. */
  function Scanned(lines: seq<string>, found: map<string, string>): map<string, string> {
    if lines == [] || |found| >= MAX_KEYS then found
    else
      match Read(lines[0])
      case Nothing => Scanned(lines[1..], found)
      case Header => found
      case Pair(key, value) => Scanned(lines[1..], found[key := value])
  }

  method Scan(text: string) returns (found: map<string, string>)
    ensures found == Scanned(Lines(text), map[])
  {
    found := map[];
    var lines, i := Lines(text), 0;
    while i < |lines|
      invariant 0 <= i <= |lines| && Scanned(lines[i..], found) == Scanned(lines, map[])
    {
      assert lines[i..][0] == lines[i] && lines[i..][1..] == lines[i + 1..];
      if |found| >= MAX_KEYS {
        break;
      }
      var line := Trim(lines[i]);
      i := i + 1;
      if line == "" || line[0] == '#' {
        continue;
      }
      if line[0] == '[' {
        break;
      }
      var equals := IndexOf(line, '=');
      if equals.None? {
        continue;
      }
      var key := Trim(line[..equals.value]);
      if !IsKey(key) {
        continue;
      }
      var reading := Value(key, Trim(line[equals.value + 1..]));
      if reading.Pair? {
        found := found[reading.key := reading.value];
      }
    }
  }

  // --- Scanning undoes printing ----------------------------------------------

  lemma BeforeMeets(c: char, lines: seq<string>, more: seq<string>)
    requires |lines| > 0
    ensures Before(c, lines + more) == Before(c, lines) + more
  {
    assert (lines + more)[1..] == lines[1..] + more;
  }

  lemma {:induction false} LinesMeet(a: string, b: string)
    ensures Lines(a + "\n" + b) == Lines(a) + Lines(b)
  {
    var all := a + "\n" + b;
    if a == "" {
      assert all[0] == '\n' && all[1..] == b;
    } else {
      LinesMeet(a[1..], b);
      assert all[0] == a[0] && all[1..] == a[1..] + "\n" + b;
      BeforeMeets(a[0], Lines(a[1..]), Lines(b));
    }
  }

  lemma {:induction false} OneLine(a: string)
    requires '\n' !in a
    ensures Lines(a) == [a]
  {
    if a != "" {
      OneLine(a[1..]);
      assert [a[0]] + a[1..] == a;
    }
  }

  lemma {:induction false} IndexAfter(a: string, c: char, b: string)
    requires c !in a
    ensures IndexOf(a + [c] + b, c) == Some(|a|)
  {
    var s := a + [c] + b;
    if a != "" {
      assert s[0] == a[0] && s[1..] == a[1..] + [c] + b;
      IndexAfter(a[1..], c, b);
    }
  }

  function Line(key: string, value: string): string {
    key + " = \"" + value + "\""
  }

  predicate IsPrintable(value: string) {
    '"' !in value && '\n' !in value && Bytes(value) <= MAX_VALUE_LEN
  }

  lemma LineIsRead(key: string, value: string)
    requires IsKey(key) && IsPrintable(value)
    ensures Read(Line(key, value)) == Pair(key, value)
  {
    var line, tail := Line(key, value), " \"" + value + "\"";
    LineIsTrimmed(key, value);
    assert line == (key + " ") + ['='] + tail;
    assert '=' !in key + " ";
    IndexAfter(key + " ", '=', tail);
    KeyIsTrimmed(key);
    ReadAtEquals(line, key + " ", tail);
    ValueIsRead(key, value);
  }

  lemma LineIsTrimmed(key: string, value: string)
    requires IsKey(key)
    ensures Trim(Line(key, value)) == Line(key, value) && Line(key, value)[0] != '#' && Line(key, value)[0] != '['
  {
    var line := Line(key, value);
    assert key[0] in key;
    assert line[0] == key[0] && line[|line| - 1] == '"';
    TrimIsIdentity(line);
  }

  lemma LineIsOneLine(key: string, value: string)
    requires IsKey(key) && IsPrintable(value)
    ensures '\n' !in Line(key, value)
  {
    assert '\n' !in " = \"" && '\n' !in "\"";
  }

  /** A line is its key and its value, around the first `=`. */
  lemma ReadAtEquals(line: string, before: string, after: string)
    requires line == before + ['='] + after && IndexOf(line, '=') == Some(|before|)
    requires Trim(line) == line && line[0] != '#' && line[0] != '[' && IsKey(Trim(before))
    ensures Read(line) == Value(Trim(before), Trim(after))
  {
    assert line[..|before|] == before && line[|before| + 1..] == after;
  }

  lemma KeyIsTrimmed(key: string)
    requires IsKey(key)
    ensures Trim(key + " ") == key
  {
    assert key[0] in key && key[|key| - 1] in key;
    assert (key + " ")[0] == key[0] && (key + " ")[..|key|] == key;
    assert TrimStart(key + " ") == key + " " && TrimEnd(key) == key;
  }

  lemma ValueIsRead(key: string, value: string)
    requires IsPrintable(value)
    ensures Value(key, Trim(" \"" + value + "\"")) == Pair(key, value)
  {
    var spaced, quoted := " \"" + value + "\"", "\"" + value + "\"";
    assert spaced[0] == ' ' && spaced[1..] == quoted;
    assert quoted[0] == '"' && quoted[|quoted| - 1] == '"';
    assert TrimStart(quoted) == quoted && TrimStart(spaced) == quoted && TrimEnd(quoted) == quoted;
    assert quoted[1..] == value + ['"'] + "";
    IndexAfter(value, '"', "");
    assert quoted[1..1 + |value|] == value;
  }

  /** `pairs` written out, a line for each key of `order`. */
  function Print(pairs: map<string, string>, order: seq<string>): string
    requires forall key | key in order :: key in pairs
  {
    if order == [] then "" else Line(order[0], pairs[order[0]]) + "\n" + Print(pairs, order[1..])
  }

  lemma {:induction false} PrintIsScanned(pairs: map<string, string>, order: seq<string>, found: map<string, string>)
    requires forall key | key in order :: key in pairs && IsKey(key) && IsPrintable(pairs[key])
    requires forall i, j | 0 <= i < j < |order| :: order[i] != order[j]
    requires forall key | key in found :: key !in order
    requires |found| + |order| <= MAX_KEYS
    ensures Scanned(Lines(Print(pairs, order)), found) == found + map key | key in order :: pairs[key]
  {
    if order == [] {
      assert Scanned([""], found) == found;
    } else {
      var key, rest := order[0], order[1..];
      OneKeyMore(pairs, key, rest, found);
      assert order == [key] + rest;
      PrintIsScanned(pairs, rest, found[key := pairs[key]]);
      FirstLineIsScanned(key, pairs[key], Print(pairs, rest), found);
    }
  }

  lemma OneKeyMore(pairs: map<string, string>, key: string, rest: seq<string>, found: map<string, string>)
    requires key in pairs && key !in rest && key !in found && forall k | k in rest :: k in pairs
    ensures |found[key := pairs[key]]| == |found| + 1
    ensures found[key := pairs[key]] + (map k | k in rest :: pairs[k]) == found + (map k | k in [key] + rest :: pairs[k])
  {
    OneLarger(found, key, pairs[key]);
    var some, all := map k | k in rest :: pairs[k], map k | k in [key] + rest :: pairs[k];
    assert all == some[key := pairs[key]];
    OverlayMoves(found, key, pairs[key], some);
  }

  lemma OneLarger(found: map<string, string>, key: string, value: string)
    requires key !in found
    ensures |found[key := value]| == |found| + 1
  {
    var more := found[key := value];
    assert more.Keys == found.Keys + {key} && |more| == |more.Keys| && |found| == |found.Keys|;
  }

  lemma OverlayMoves(found: map<string, string>, key: string, value: string, some: map<string, string>)
    requires key !in some
    ensures found[key := value] + some == found + some[key := value]
  {
  }

  lemma FirstLineIsScanned(key: string, value: string, rest: string, found: map<string, string>)
    requires IsKey(key) && IsPrintable(value) && |found| < MAX_KEYS
    ensures Scanned(Lines(Line(key, value) + "\n" + rest), found) == Scanned(Lines(rest), found[key := value])
  {
    LineIsRead(key, value);
    LineIsOneLine(key, value);
    OneLine(Line(key, value));
    LinesMeet(Line(key, value), rest);
    assert ([Line(key, value)] + Lines(rest))[1..] == Lines(rest);
  }

  /** For every map the file may hold, and in whatever order it is written, scanning returns the map. */
  lemma ScanUndoesPrint(pairs: map<string, string>, order: seq<string>)
    requires |pairs| <= MAX_KEYS && forall key | key in pairs :: IsKey(key) && IsPrintable(pairs[key])
    requires (forall key :: key in pairs <==> key in order) && forall i, j | 0 <= i < j < |order| :: order[i] != order[j]
    ensures Scanned(Lines(Print(pairs, order)), map[]) == pairs
  {
    DistinctAreCounted(order, pairs.Keys);
    assert |pairs| == |pairs.Keys|;
    PrintIsScanned(pairs, order, map[]);
    assert map[] + (map key | key in order :: pairs[key]) == pairs;
  }

  lemma {:induction false} DistinctAreCounted(order: seq<string>, keys: set<string>)
    requires (forall key :: key in keys <==> key in order) && forall i, j | 0 <= i < j < |order| :: order[i] != order[j]
    ensures |order| == |keys|
  {
    if order != [] {
      DistinctAreCounted(order[1..], keys - {order[0]});
    } else {
      assert keys == {};
    }
  }

  // --- What a line can say ---------------------------------------------------

  /** `raw` is a key, an equals sign and a quoted value, with white space anywhere between them and anything after. */
  ghost predicate PairAs(raw: string, key: string, value: string,
                         before: string, gap: string, space: string, quote: char, rest: string) {
    && raw == before + (key + gap + "=" + (space + ([quote] + (value + [quote] + rest))))
    && IsBlank(before) && IsBlank(gap) && IsBlank(space)
    && IsKey(key) && (quote == '"' || quote == '\'') && quote !in value && Bytes(value) <= MAX_VALUE_LEN
  }

  ghost predicate IsPairLine(raw: string, key: string, value: string) {
    exists before, gap, space, quote, rest :: PairAs(raw, key, value, before, gap, space, quote, rest)
  }

  /** The first thing on the line is a bracket. */
  ghost predicate IsHeaderLine(raw: string) {
    exists before, rest :: IsBlank(before) && raw == before + ("[" + rest)
  }

  lemma KeyIsTight(key: string)
    requires IsKey(key)
    ensures IsTight(key) && !IsSpace(key[0]) && key[0] != '#' && key[0] != '[' && '=' !in key
  {
    assert key[0] in key && key[|key| - 1] in key;
  }

  lemma QuotedIsFound(key: string, value: string, quote: char, rest: string)
    requires (quote == '"' || quote == '\'') && quote !in value && Bytes(value) <= MAX_VALUE_LEN
    ensures Value(key, [quote] + (value + [quote] + rest)) == Pair(key, value)
  {
    var quoted := [quote] + (value + [quote] + rest);
    assert quoted[1..] == value + [quote] + rest;
    IndexAfter(value, quote, rest);
    assert quoted[1..1 + |value|] == value;
  }

  /** What is left of such a line when the white space around it is gone. */
  lemma TightPair(raw: string, key: string, value: string, before: string, gap: string, space: string, quote: char, rest: string)
    returns (kept: string)
    requires PairAs(raw, key, value, before, gap, space, quote, rest)
    ensures Trim(raw) == key + gap + "=" + (space + ([quote] + (value + [quote] + kept)))
    ensures kept != "" ==> !IsSpace(kept[|kept| - 1])
  {
    var after := EndIsBlank(rest);
    kept := TrimEnd(rest);
    KeyIsTight(key);
    var line := key + gap + "=" + (space + ([quote] + (value + [quote] + kept)));
    assert raw == before + line + after;
    assert line[0] == key[0];
    assert kept == "" ==> line[|line| - 1] == quote;
    assert kept != "" ==> line[|line| - 1] == kept[|kept| - 1];
    TrimIsTheOnly(before, line, after);
  }

  lemma PairIsRead(raw: string, key: string, value: string, before: string, gap: string, space: string, quote: char, rest: string)
    requires PairAs(raw, key, value, before, gap, space, quote, rest)
    ensures Read(raw) == Pair(key, value)
  {
    var kept := TightPair(raw, key, value, before, gap, space, quote, rest);
    KeyIsTight(key);
    var line, quoted := Trim(raw), [quote] + (value + [quote] + kept);
    assert line == (key + gap) + ['='] + (space + quoted) && line[0] == key[0];
    assert '=' !in key + gap;
    IndexAfter(key + gap, '=', space + quoted);
    assert line[..|key + gap|] == key + gap && line[|key + gap| + 1..] == space + quoted;
    TrimIsTheOnly("", key, gap);
    assert "" + key + gap == key + gap;
    assert quoted[|quoted| - 1] == if kept == "" then quote else kept[|kept| - 1];
    TrimIsTheOnly(space, quoted, "");
    assert space + quoted + "" == space + quoted;
    QuotedIsFound(key, value, quote, kept);
  }

  lemma ValueIsQuoted(key: string, rest: string)
    requires Value(key, rest).Pair?
    ensures Value(key, rest).key == key
    ensures var value := Value(key, rest).value;
            && rest != "" && (rest[0] == '"' || rest[0] == '\'') && rest[0] !in value && Bytes(value) <= MAX_VALUE_LEN
            && |value| + 2 <= |rest| && rest == [rest[0]] + (value + [rest[0]] + rest[|value| + 2..])
  {
  }

  lemma Regrouped(before: string, inner: string, key: string, gap: string, space: string, quote: char, value: string,
                  rest: string, end: string, after: string)
    ensures before + ((inner + key + gap) + "=" + (space + ([quote] + (value + [quote] + rest)) + end)) + after
            == (before + inner) + (key + gap + "=" + (space + ([quote] + (value + [quote] + (rest + end + after)))))
  {
  }

  lemma ReadIsSplit(raw: string, key: string, value: string) returns (left: string, right: string)
    requires Read(raw) == Pair(key, value)
    ensures Trim(raw) == left + "=" + right && IsKey(key) && Trim(left) == key && Value(key, Trim(right)) == Pair(key, value)
  {
    var line := Trim(raw);
    var e := IndexOf(line, '=').value;
    left, right := line[..e], line[e + 1..];
  }

  lemma ReadIsAPair(raw: string, key: string, value: string)
    requires Read(raw) == Pair(key, value)
    ensures IsPairLine(raw, key, value)
  {
    var before, after := TrimIsTight(raw);
    var left, right := ReadIsSplit(raw, key, value);
    var inner, gap := TrimIsTight(left);
    var space, end := TrimIsTight(right);
    var quoted := Trim(right);
    ValueIsQuoted(key, quoted);
    var rest := quoted[|value| + 2..];
    Regrouped(before, inner, key, gap, space, quoted[0], value, rest, end, after);
    assert IsBlank(before + inner);
    assert PairAs(raw, key, value, before + inner, gap, space, quoted[0], rest + end + after);
  }

  lemma HeaderLooksLikeOne(raw: string)
    requires Read(raw) == Header
    ensures IsHeaderLine(raw)
  {
    var before, after := TrimIsTight(raw);
    var rest := Trim(raw)[1..] + after;
    assert raw == before + ("[" + rest);
  }

  lemma HeaderIsRead(raw: string, before: string, rest: string)
    requires IsBlank(before) && raw == before + ("[" + rest)
    ensures Read(raw) == Header
  {
    var after := EndIsBlank(rest);
    var line := "[" + TrimEnd(rest);
    assert raw == before + line + after;
    TrimIsTheOnly(before, line, after);
  }

  /** Every line says what it looks like: a pair, or that what follows is nested, and nothing when it looks like neither. */
  lemma LinesSayWhatTheyLookLike(raw: string)
    ensures Read(raw) == Header <==> IsHeaderLine(raw)
    ensures forall key, value :: Read(raw) == Pair(key, value) <==> IsPairLine(raw, key, value)
  {
    if Read(raw) == Header {
      HeaderLooksLikeOne(raw);
    }
    if before, rest :| IsBlank(before) && raw == before + ("[" + rest) {
      HeaderIsRead(raw, before, rest);
    }
    forall key, value ensures Read(raw) == Pair(key, value) <==> IsPairLine(raw, key, value) {
      if Read(raw) == Pair(key, value) {
        ReadIsAPair(raw, key, value);
      }
      if before, gap, space, quote, rest :| PairAs(raw, key, value, before, gap, space, quote, rest) {
        PairIsRead(raw, key, value, before, gap, space, quote, rest);
      }
    }
  }

  // --- What any text can do --------------------------------------------------

  lemma {:induction false} HeaderEnds(before: seq<string>, header: string, after: seq<string>, found: map<string, string>)
    requires Read(header) == Header
    ensures Scanned(before + [header] + after, found) == Scanned(before, found)
  {
    if before != [] && |found| < MAX_KEYS {
      assert (before + [header] + after)[0] == before[0];
      assert (before + [header] + after)[1..] == before[1..] + [header] + after;
      match Read(before[0])
      case Nothing => HeaderEnds(before[1..], header, after, found);
      case Header =>
      case Pair(key, value) => HeaderEnds(before[1..], header, after, found[key := value]);
    }
  }

  /** From a line that starts with `[` on, wherever it is in a text, nothing makes any difference. */
  lemma NothingAfterAHeader(text: string, i: nat)
    requires i < |Lines(text)| && Trim(Lines(text)[i]) != "" && Trim(Lines(text)[i])[0] == '['
    ensures Scanned(Lines(text), map[]) == Scanned(Lines(text)[..i], map[])
  {
    var lines := Lines(text);
    assert lines == lines[..i] + [lines[i]] + lines[i + 1..];
    HeaderEnds(lines[..i], lines[i], lines[i + 1..], map[]);
  }

  /** So what is written after such a line, and the line itself, can be anything. */
  lemma NothingWrittenAfterAHeader(before: string, header: string, after: string)
    requires '\n' !in header && Trim(header) != "" && Trim(header)[0] == '['
    ensures Scanned(Lines(before + "\n" + header + "\n" + after), map[]) == Scanned(Lines(before), map[])
    ensures Scanned(Lines(header + "\n" + after), map[]) == map[]
    ensures Scanned(Lines(before + "\n" + header), map[]) == Scanned(Lines(before), map[])
  {
    OneLine(header);
    LinesMeet(header, after);
    LinesMeet(before, header);
    LinesMeet(before, header + "\n" + after);
    assert before + "\n" + header + "\n" + after == before + "\n" + (header + "\n" + after);
    var n := |Lines(before)|;
    NothingAfterAHeader(before + "\n" + (header + "\n" + after), n);
    NothingAfterAHeader(header + "\n" + after, 0);
    NothingAfterAHeader(before + "\n" + header, n);
  }

  ghost function Readings(lines: seq<string>): seq<Reading> {
    seq(|lines|, i requires 0 <= i < |lines| => Read(lines[i]))
  }

  /** Some reading that is not behind a header is exactly this pair. */
  ghost predicate Tells(readings: seq<Reading>, key: string, value: string) {
    exists i | 0 <= i < |readings| :: readings[i] == Pair(key, value) && forall j | 0 <= j < i :: readings[j] != Header
  }

  /** Some line that is not behind a header says exactly this pair. */
  ghost predicate Says(lines: seq<string>, key: string, value: string) {
    Tells(Readings(lines), key, value)
  }

  ghost predicate FromLines(lines: seq<string>, was: map<string, string>, found: map<string, string>) {
    forall key | key in found :: Says(lines, key, found[key]) || (key in was && found[key] == was[key])
  }

  lemma TellsLater(readings: seq<Reading>, key: string, value: string)
    requires readings != [] && readings[0] != Header && Tells(readings[1..], key, value)
    ensures Tells(readings, key, value)
  {
    var i :| 0 <= i < |readings[1..]| && readings[1..][i] == Pair(key, value)
             && forall j | 0 <= j < i :: readings[1..][j] != Header;
    assert readings[i + 1] == Pair(key, value);
    forall j | 0 <= j < i + 1 ensures readings[j] != Header {
      assert j > 0 ==> readings[j] == readings[1..][j - 1];
    }
  }

  lemma SaysLater(lines: seq<string>, key: string, value: string)
    requires lines != [] && Read(lines[0]) != Header
    ensures Says(lines[1..], key, value) ==> Says(lines, key, value)
    ensures Read(lines[0]) == Pair(key, value) ==> Says(lines, key, value)
  {
    assert Readings(lines)[1..] == Readings(lines[1..]) && Readings(lines)[0] == Read(lines[0]);
    if Says(lines[1..], key, value) {
      TellsLater(Readings(lines), key, value);
    }
  }

  lemma {:induction false} EveryPairIsWritten(lines: seq<string>, found: map<string, string>)
    ensures FromLines(lines, found, Scanned(lines, found))
    ensures |found| <= MAX_KEYS ==> |Scanned(lines, found)| <= MAX_KEYS
  {
    if lines != [] && |found| < MAX_KEYS && !Read(lines[0]).Header? {
      var more := if Read(lines[0]).Pair? then found[Read(lines[0]).key := Read(lines[0]).value] else found;
      assert |more| <= |found| + 1 by {
        assert more.Keys <= found.Keys + if Read(lines[0]).Pair? then {Read(lines[0]).key} else {};
        assert |more| == |more.Keys| && |found| == |found.Keys|;
        if Read(lines[0]).Pair? {
          assert more.Keys == found.Keys + {Read(lines[0]).key};
        }
      }
      EveryPairIsWritten(lines[1..], more);
      var all := Scanned(lines[1..], more);
      forall key | key in all ensures Says(lines, key, all[key]) || (key in found && all[key] == found[key]) {
        SaysLater(lines, key, all[key]);
      }
    }
  }

  /** Whatever the text, the result keeps to the caps, and holds only bare keys with values that a line gives them. */
  lemma CapsHold(text: string)
    ensures |Scanned(Lines(text), map[])| <= MAX_KEYS
    ensures forall key | key in Scanned(Lines(text), map[]) ::
              && IsKey(key) && Bytes(Scanned(Lines(text), map[])[key]) <= MAX_VALUE_LEN
              && Says(Lines(text), key, Scanned(Lines(text), map[])[key])
  {
    EveryPairIsWritten(Lines(text), map[]);
  }

  /** The lines before the first header. */
  function Top(lines: seq<string>): seq<string> {
    if lines == [] || Read(lines[0]).Header? then [] else [lines[0]] + Top(lines[1..])
  }

  /** What the last line for `key` gives it. */
  function LastFor(lines: seq<string>, key: string): Option<string> {
    if lines == [] then None
    else if LastFor(lines[1..], key).Some? then LastFor(lines[1..], key)
    else if Read(lines[0]).Pair? && Read(lines[0]).key == key then Some(Read(lines[0]).value)
    else None
  }

  function Get(found: map<string, string>, key: string): Option<string> {
    if key in found then Some(found[key]) else None
  }

  function KeysOf(lines: seq<string>): set<string> {
    if lines == [] then {}
    else (if Read(lines[0]).Pair? then {Read(lines[0]).key} else {}) + KeysOf(lines[1..])
  }

  /** The first `n` lines of `top` are those that count, after `keys`: all, or just enough for the cap on keys. */
  ghost predicate Counts(top: seq<string>, keys: set<string>, n: nat) {
    && n <= |top|
    && (forall m | 0 <= m < n :: |keys + KeysOf(top[..m])| < MAX_KEYS)
    && (n < |top| ==> |keys + KeysOf(top[..n])| >= MAX_KEYS)
  }

  lemma KeysOneMore(line: string, rest: seq<string>, m: nat)
    requires m <= |rest|
    ensures KeysOf(([line] + rest)[..m + 1]) == KeysOf([line]) + KeysOf(rest[..m])
  {
    assert ([line] + rest)[..m + 1] == [line] + rest[..m] && ([line] + rest[..m])[1..] == rest[..m];
    assert [line][1..] == [] && KeysOf([]) == {};
  }

  lemma SizeOneMore(line: string, rest: seq<string>, keys: set<string>, m: nat)
    requires m <= |rest|
    ensures |keys + KeysOf(([line] + rest)[..m + 1])| == |(keys + KeysOf([line])) + KeysOf(rest[..m])|
  {
    KeysOneMore(line, rest, m);
    assert keys + (KeysOf([line]) + KeysOf(rest[..m])) == (keys + KeysOf([line])) + KeysOf(rest[..m]);
  }

  lemma CountsOneMore(line: string, rest: seq<string>, keys: set<string>, n: nat)
    requires |keys| < MAX_KEYS && Counts(rest, keys + KeysOf([line]), n)
    ensures Counts([line] + rest, keys, n + 1)
  {
    var top := [line] + rest;
    forall m | 0 <= m < n + 1 ensures |keys + KeysOf(top[..m])| < MAX_KEYS {
      if m == 0 {
        assert top[..0] == [] && keys + KeysOf([]) == keys;
      } else {
        SizeOneMore(line, rest, keys, m - 1);
      }
    }
    SizeOneMore(line, rest, keys, n);
  }

  lemma LastOneMore(line: string, rest: seq<string>, n: nat, key: string)
    requires n <= |rest|
    ensures LastFor(([line] + rest)[..n + 1], key)
            == if LastFor(rest[..n], key).Some? then LastFor(rest[..n], key) else LastFor([line], key)
  {
    assert ([line] + rest)[..n + 1] == [line] + rest[..n] && ([line] + rest[..n])[1..] == rest[..n] && [line][1..] == [];
  }

  /** What comes of reading one line that is no header. */
  function With(found: map<string, string>, reading: Reading): map<string, string> {
    if reading.Pair? then found[reading.key := reading.value] else found
  }

  lemma OneIsFound(line: string, found: map<string, string>)
    ensures With(found, Read(line)).Keys == found.Keys + KeysOf([line])
    ensures forall key :: Get(With(found, Read(line)), key)
                          == if LastFor([line], key).Some? then LastFor([line], key) else Get(found, key)
  {
    assert [line][1..] == [] && KeysOf([]) == {};
    assert forall key :: LastFor([], key) == None;
  }

  /** `all` is what the last lines say, and where none does what `found` had. */
  ghost predicate Latest(lines: seq<string>, found: map<string, string>, all: map<string, string>) {
    forall key :: Get(all, key) == if LastFor(lines, key).Some? then LastFor(lines, key) else Get(found, key)
  }

  lemma LatestOneMore(line: string, rest: seq<string>, n: nat, found: map<string, string>, all: map<string, string>)
    requires n <= |rest| && Latest(rest[..n], With(found, Read(line)), all)
    ensures Latest(([line] + rest)[..n + 1], found, all)
  {
    OneIsFound(line, found);
    forall key ensures Get(all, key) == if LastFor(([line] + rest)[..n + 1], key).Some? then LastFor(([line] + rest)[..n + 1], key)
                                        else Get(found, key)
    {
      LastOneMore(line, rest, n, key);
    }
  }

  lemma NoneCounts(top: seq<string>, found: map<string, string>)
    requires top == [] || |found| >= MAX_KEYS
    ensures Counts(top, found.Keys, 0) && Latest(top[..0], found, found)
  {
    assert top[..0] == [] && found.Keys + KeysOf([]) == found.Keys && |found| == |found.Keys|;
  }

  lemma {:induction false} LastIsFound(lines: seq<string>, found: map<string, string>) returns (n: nat)
    ensures Counts(Top(lines), found.Keys, n) && Latest(Top(lines)[..n], found, Scanned(lines, found))
  {
    if lines == [] || Read(lines[0]).Header? || |found| >= MAX_KEYS {
      NoneCounts(Top(lines), found);
      n := 0;
    } else {
      n := LastIsFound(lines[1..], With(found, Read(lines[0])));
      OneIsFound(lines[0], found);
      assert |found| == |found.Keys|;
      CountsOneMore(lines[0], Top(lines[1..]), found.Keys, n);
      LatestOneMore(lines[0], Top(lines[1..]), n, found, Scanned(lines, found));
      n := n + 1;
    }
  }

  /**
   * For all texts: of the lines before any header, as many count as it takes
   * to come to the cap on keys, or all of them; every key has what the last of
   * those for it says, and no other key is there.
   */
  lemma LastLineWins(text: string) returns (n: nat)
    ensures Counts(Top(Lines(text)), {}, n)
    ensures forall key :: Get(Scanned(Lines(text), map[]), key) == LastFor(Top(Lines(text))[..n], key)
  {
    n := LastIsFound(Lines(text), map[]);
  }

  // --- Colours ---------------------------------------------------------------

  predicate IsHexDigit(c: char) {
    '0' <= c <= '9' || 'a' <= c <= 'f' || 'A' <= c <= 'F'
  }

  function Hex(value: string): string {
    if value != "" && value[0] == '#' then value[1..] else value
  }

  predicate IsColour(value: string) {
    var hex := Hex(value);
    Bytes(hex) in {3, 4, 6, 8} && forall c | c in hex :: IsHexDigit(c)
  }

  function Lower(s: string): string {
    if s == "" then "" else [if 'A' <= s[0] <= 'Z' then s[0] - 'A' + 'a' else s[0]] + Lower(s[1..])
  }

  function Colour(value: string): Option<string> {
    if IsColour(value) then Some("#" + Lower(Hex(value))) else None
  }

  /** A `#` and three, four, six or eight hexadecimal digits in lower case: nothing else ever reaches the window. */
  ghost predicate IsCanonical(c: string) {
    && |c| in {4, 5, 7, 9} && c[0] == '#'
    && forall i | 1 <= i < |c| :: '0' <= c[i] <= '9' || 'a' <= c[i] <= 'f'
  }

  lemma {:induction false} LowerIsLower(s: string)
    requires forall c | c in s :: IsHexDigit(c)
    ensures |Lower(s)| == |s| == Bytes(s)
    ensures forall i | 0 <= i < |s| :: '0' <= Lower(s)[i] <= '9' || 'a' <= Lower(s)[i] <= 'f'
    ensures Lower(Lower(s)) == Lower(s)
  {
    if s != "" {
      LowerIsLower(s[1..]);
      assert s[0] in s;
      assert Lower(s)[1..] == Lower(s[1..]);
    }
  }

  /** Every colour is brought to one spelling, and that spelling is left alone. */
  lemma ColourIsCanonical(value: string)
    requires Colour(value).Some?
    ensures IsCanonical(Colour(value).value) && Colour(Colour(value).value) == Colour(value)
  {
    var hex := Hex(value);
    LowerIsLower(hex);
    assert Hex("#" + Lower(hex)) == Lower(hex);
    LowerIsLower(Lower(hex));
  }

  /** They are one digit, and the second is in lower case. */
  predicate SameDigit(a: char, b: char) {
    (a == b && ('0' <= a <= '9' || 'a' <= a <= 'f')) || ('A' <= a <= 'F' && b as int == a as int - 'A' as int + 'a' as int)
  }

  /** `c` is a `#` and the digits of `value`, of which there are three, four, six or eight, with or without a `#` of its own. */
  ghost predicate IsSpelt(value: string, c: string) {
    exists hex :: (value == hex || value == "#" + hex) && HasDigits(hex, c)
  }

  ghost predicate HasDigits(hex: string, c: string) {
    && (|hex| == 3 || |hex| == 4 || |hex| == 6 || |hex| == 8) && |c| == |hex| + 1 && c[0] == '#'
    && forall i | 0 <= i < |hex| :: SameDigit(hex[i], c[i + 1])
  }

  lemma {:induction false} LowerIsTheDigits(s: string)
    requires forall c | c in s :: IsHexDigit(c)
    ensures |Lower(s)| == |s| && forall i | 0 <= i < |s| :: SameDigit(s[i], Lower(s)[i])
  {
    if s != "" {
      LowerIsTheDigits(s[1..]);
      assert s[0] in s && Lower(s)[1..] == Lower(s[1..]);
    }
  }

  lemma {:induction false} DigitsAreLower(s: string, t: string)
    requires |s| == |t| && forall i | 0 <= i < |s| :: SameDigit(s[i], t[i])
    ensures t == Lower(s) && forall c | c in s :: IsHexDigit(c)
  {
    if s != "" {
      DigitsAreLower(s[1..], t[1..]);
      assert t == [t[0]] + t[1..] && s == [s[0]] + s[1..];
    }
  }

  /** A value is a colour exactly when it is such digits, and the colour has the same. */
  lemma ColourHasItsDigits(value: string, c: string)
    ensures Colour(value) == Some(c) <==> IsSpelt(value, c)
  {
    var hex := Hex(value);
    if Colour(value) == Some(c) {
      LowerIsTheDigits(hex);
      LowerIsLower(hex);
      assert value == hex || value == "#" + hex;
      assert HasDigits(hex, c);
    }
    if h :| (value == h || value == "#" + h) && HasDigits(h, c) {
      assert SameDigit(h[0], c[1]);
      assert hex == h;
      DigitsAreLower(h, c[1..]);
      LowerIsLower(h);
      assert c == "#" + c[1..];
    }
  }

  /** What the window is sent of a theme. */
  datatype Palette = Palette(
    mode: Option<string>, background: string, foreground: string, accent: Option<string>, darkBg: Option<string>,
    lighterBg: Option<string>, muted: Option<string>, selectionBackground: Option<string>,
    selectionForeground: Option<string>, red: Option<string>, green: Option<string>, yellow: Option<string>,
    blue: Option<string>, magenta: Option<string>, cyan: Option<string>, ansi: seq<Option<string>>)

  /** The first of `names` that is given a colour. */
  function Pick(pairs: map<string, string>, names: seq<string>): Option<string> {
    if names == [] then None
    else if names[0] in pairs && Colour(pairs[names[0]]).Some? then Colour(pairs[names[0]])
    else Pick(pairs, names[1..])
  }

  function PaletteFrom(pairs: map<string, string>): Option<Palette> {
    var background, foreground := Pick(pairs, ["background", "bg"]), Pick(pairs, ["foreground", "fg"]);
    if background.None? || foreground.None? then None
    else
      Some(Palette(
        if "mode" in pairs && pairs["mode"] in {"dark", "light"} then Some(pairs["mode"]) else None,
        background.value, foreground.value,
        Pick(pairs, ["accent", "selection"]), Pick(pairs, ["dark_bg", "darker_bg"]), Pick(pairs, ["lighter_bg"]),
        Pick(pairs, ["muted"]), Pick(pairs, ["selection_background"]), Pick(pairs, ["selection_foreground"]),
        Pick(pairs, ["red"]), Pick(pairs, ["green"]), Pick(pairs, ["yellow"]), Pick(pairs, ["blue"]),
        Pick(pairs, ["magenta"]), Pick(pairs, ["cyan"]),
        Slots(pairs)))
  }

  /** The sixteen ANSI slots, a gap kept as a gap. */
  function Slots(pairs: map<string, string>): seq<Option<string>> {
    seq(16, i requires 0 <= i < 16 => Pick(pairs, ["color" + Decimal(i)]))
  }

  /** Some line that is read, before any header, gives one of `names` a colour. */
  ghost predicate Gives(lines: seq<string>, names: seq<string>, c: string) {
    exists n, v :: n in names && Says(lines, n, v) && Colour(v) == Some(c)
  }

  lemma {:induction false} PickIsCanonical(pairs: map<string, string>, names: seq<string>)
    ensures Pick(pairs, names).Some? ==> IsCanonical(Pick(pairs, names).value)
    ensures Pick(pairs, names).Some? <==> exists n | n in names :: n in pairs && Colour(pairs[n]).Some?
    ensures Pick(pairs, names).Some? ==> exists n | n in names && n in pairs :: Colour(pairs[n]) == Pick(pairs, names)
  {
    if names != [] {
      PickIsCanonical(pairs, names[1..]);
      if names[0] in pairs && Colour(pairs[names[0]]).Some? {
        ColourIsCanonical(pairs[names[0]]);
      } else if n :| n in names && n in pairs && Colour(pairs[n]).Some? {
        assert n in names[1..];
      }
    }
  }

  /** What a palette has for `names` is in the one spelling, and a line of the text gives it under one of them. */
  ghost predicate Stands(lines: seq<string>, names: seq<string>, c: Option<string>) {
    c.Some? ==> IsCanonical(c.value) && Gives(lines, names, c.value)
  }

  lemma PickStands(text: string, names: seq<string>)
    ensures Stands(Lines(text), names, Pick(Scanned(Lines(text), map[]), names))
  {
    var pairs := Scanned(Lines(text), map[]);
    PickIsCanonical(pairs, names);
    if Pick(pairs, names).Some? {
      var n :| n in names && n in pairs && Colour(pairs[n]) == Pick(pairs, names);
      CapsHold(text);
    }
  }

  /** There is a palette exactly when both colours it cannot do without are given. */
  lemma PaletteNeedsTwo(pairs: map<string, string>)
    ensures PaletteFrom(pairs).Some? <==>
              && (exists n | n in ["background", "bg"] :: n in pairs && Colour(pairs[n]).Some?)
              && (exists n | n in ["foreground", "fg"] :: n in pairs && Colour(pairs[n]).Some?)
  {
    PickIsCanonical(pairs, ["background", "bg"]);
    PickIsCanonical(pairs, ["foreground", "fg"]);
  }

  /** Every colour of a palette is `right` for the names it goes by in the file. */
  ghost predicate All(p: Palette, right: (seq<string>, Option<string>) -> bool) {
    && right(["background", "bg"], Some(p.background))
    && right(["foreground", "fg"], Some(p.foreground))
    && right(["accent", "selection"], p.accent)
    && right(["dark_bg", "darker_bg"], p.darkBg)
    && right(["lighter_bg"], p.lighterBg)
    && right(["muted"], p.muted)
    && right(["selection_background"], p.selectionBackground)
    && right(["selection_foreground"], p.selectionForeground)
    && AllHues(p, right)
    && AllSlots(p.ansi, right)
  }

  ghost predicate AllHues(p: Palette, right: (seq<string>, Option<string>) -> bool) {
    && right(["red"], p.red)
    && right(["green"], p.green)
    && right(["yellow"], p.yellow)
    && right(["blue"], p.blue)
    && right(["magenta"], p.magenta)
    && right(["cyan"], p.cyan)
  }

  ghost predicate AllSlots(ansi: seq<Option<string>>, right: (seq<string>, Option<string>) -> bool) {
    |ansi| == 16 && forall i | 0 <= i < 16 :: right(["color" + Decimal(i)], ansi[i])
  }

  lemma SlotsArePicked(pairs: map<string, string>, right: (seq<string>, Option<string>) -> bool)
    requires forall names :: right(names, Pick(pairs, names))
    ensures AllSlots(Slots(pairs), right)
  {
  }

  lemma PicksAreAll(pairs: map<string, string>, right: (seq<string>, Option<string>) -> bool)
    requires PaletteFrom(pairs).Some? && forall names :: right(names, Pick(pairs, names))
    ensures All(PaletteFrom(pairs).value, right)
  {
    SlotsArePicked(pairs, right);
    HuesArePicked(pairs, right);
  }

  lemma HuesArePicked(pairs: map<string, string>, right: (seq<string>, Option<string>) -> bool)
    requires PaletteFrom(pairs).Some? && forall names :: right(names, Pick(pairs, names))
    ensures AllHues(PaletteFrom(pairs).value, right)
  {
  }

  /** Whatever the file says, every colour of its palette is in the one spelling and stands there under its own name. */
  lemma PaletteStandsInItsFile(text: string)
    ensures var palette := PaletteFrom(Scanned(Lines(text), map[]));
            palette.Some? ==> All(palette.value, (names, c) => Stands(Lines(text), names, c))
  {
    var right := (names, c) => Stands(Lines(text), names, c);
    var pairs := Scanned(Lines(text), map[]);
    forall names ensures right(names, Pick(pairs, names)) {
      PickStands(text, names);
    }
    if PaletteFrom(pairs).Some? {
      PicksAreAll(pairs, right);
    }
  }

  /** The last of `lines` for `name` gives it no colour, or there is none. */
  ghost predicate GivesNone(lines: seq<string>, name: string) {
    forall v, c :: LastFor(lines, name) == Some(v) ==> !IsSpelt(v, c)
  }

  /** The last of `lines` for `name` gives it the colour `c`. */
  ghost predicate GivesIt(lines: seq<string>, name: string, c: string) {
    LastFor(lines, name).Some? && IsSpelt(LastFor(lines, name).value, c)
  }

  /** `c` is what is given to the first of `names` that is given a colour, and absent when none is. */
  ghost predicate IsFirstGiven(lines: seq<string>, names: seq<string>, c: Option<string>) {
    match c
    case None => forall n | n in names :: GivesNone(lines, n)
    case Some(colour) =>
      exists k | 0 <= k < |names| ::
        GivesIt(lines, names[k], colour) && forall j | 0 <= j < k :: GivesNone(lines, names[j])
  }

  lemma GivenOrNot(lines: seq<string>, pairs: map<string, string>, name: string)
    requires Get(pairs, name) == LastFor(lines, name)
    ensures if name in pairs && Colour(pairs[name]).Some? then GivesIt(lines, name, Colour(pairs[name]).value)
            else GivesNone(lines, name)
  {
    if name in pairs {
      forall c ensures Colour(pairs[name]) == Some(c) <==> IsSpelt(pairs[name], c) {
        ColourHasItsDigits(pairs[name], c);
      }
    }
  }

  lemma {:induction false} PickIsFirstGiven(lines: seq<string>, pairs: map<string, string>, names: seq<string>)
    requires forall key :: Get(pairs, key) == LastFor(lines, key)
    ensures IsFirstGiven(lines, names, Pick(pairs, names))
  {
    if names != [] {
      GivenOrNot(lines, pairs, names[0]);
      if names[0] in pairs && Colour(pairs[names[0]]).Some? {
        assert GivesIt(lines, names[0], Pick(pairs, names).value);
      } else {
        PickIsFirstGiven(lines, pairs, names[1..]);
        OneNameMore(lines, names, Pick(pairs, names));
      }
    }
  }

  lemma OneNameMore(lines: seq<string>, names: seq<string>, c: Option<string>)
    requires names != [] && GivesNone(lines, names[0]) && IsFirstGiven(lines, names[1..], c)
    ensures IsFirstGiven(lines, names, c)
  {
    assert names == [names[0]] + names[1..];
    if c.Some? {
      var k :| 0 <= k < |names[1..]| && GivesIt(lines, names[1..][k], c.value)
               && forall j | 0 <= j < k :: GivesNone(lines, names[1..][j]);
      assert names[k + 1] == names[1..][k];
      forall j | 0 <= j < k + 1 ensures GivesNone(lines, names[j]) {
        assert j > 0 ==> names[j] == names[1..][j - 1];
      }
    }
  }

  /** The mode is what the last line for it says, when that is one of the two there are. */
  ghost predicate IsMode(lines: seq<string>, mode: Option<string>) {
    forall m :: mode == Some(m) <==> LastFor(lines, "mode") == Some(m) && (m == "dark" || m == "light")
  }

  /** Some line that counts gives the last word for one of `names`, and it is a colour. */
  ghost predicate IsGiven(lines: seq<string>, names: seq<string>) {
    exists n, c :: n in names && GivesIt(lines, n, c)
  }

  lemma PickIsGiven(lines: seq<string>, names: seq<string>, c: Option<string>)
    requires IsFirstGiven(lines, names, c)
    ensures c.Some? <==> IsGiven(lines, names)
  {
    if c.Some? {
      var k :| 0 <= k < |names| && GivesIt(lines, names[k], c.value);
      assert names[k] in names;
    }
  }

  /**
   * For all texts, of the lines that count: there is a palette exactly when a
   * background and a foreground are given as colours, every colour of it is the
   * one given last to the first of its names that is given any, and its mode is
   * the one given last.
   */
  lemma PaletteIsWhatTheFileSays(text: string) returns (n: nat)
    ensures Counts(Top(Lines(text)), {}, n)
    ensures var lines, palette := Top(Lines(text))[..n], PaletteFrom(Scanned(Lines(text), map[]));
            && (palette.Some? <==> IsGiven(lines, ["background", "bg"]) && IsGiven(lines, ["foreground", "fg"]))
            && (palette.Some? ==> All(palette.value, (names, c) => IsFirstGiven(lines, names, c)) && IsMode(lines, palette.value.mode))
  {
    n := LastLineWins(text);
    var lines, pairs := Top(Lines(text))[..n], Scanned(Lines(text), map[]);
    var right := (names, c) => IsFirstGiven(lines, names, c);
    forall names ensures IsFirstGiven(lines, names, Pick(pairs, names)) && right(names, Pick(pairs, names)) {
      PickIsFirstGiven(lines, pairs, names);
    }
    NeedsTwo(lines, pairs);
    if PaletteFrom(pairs).Some? {
      PicksAreAll(pairs, right);
      ModeIsSaid(lines, pairs);
    }
  }

  lemma NeedsTwo(lines: seq<string>, pairs: map<string, string>)
    requires forall names :: IsFirstGiven(lines, names, Pick(pairs, names))
    ensures PaletteFrom(pairs).Some? <==> IsGiven(lines, ["background", "bg"]) && IsGiven(lines, ["foreground", "fg"])
  {
    PickIsGiven(lines, ["background", "bg"], Pick(pairs, ["background", "bg"]));
    PickIsGiven(lines, ["foreground", "fg"], Pick(pairs, ["foreground", "fg"]));
  }

  lemma ModeIsSaid(lines: seq<string>, pairs: map<string, string>)
    requires Get(pairs, "mode") == LastFor(lines, "mode") && PaletteFrom(pairs).Some?
    ensures IsMode(lines, PaletteFrom(pairs).value.mode)
  {
  }

  // --- Holding the last palette ----------------------------------------------

  // Themes are any values from here on; `ok` is whether one is available, which is whether it has a palette.

  /** What one turn of the watching thread meets; `Burst` is events that went quiet, and what is read after them. */
  datatype Turn<T> = Stop | Quiet | Gone | GoneInBurst | Burst(next: T)

  /** The themes that are read before the thread ends. */
  function Reads<T>(turns: seq<Turn<T>>): seq<T> {
    if turns == [] || turns[0].Stop? || turns[0].Gone? || turns[0].GoneInBurst? then []
    else (if turns[0].Burst? then [turns[0].next] else []) + Reads(turns[1..])
  }

  lemma {:induction false} ReadsMeet<T>(a: seq<Turn<T>>, b: seq<Turn<T>>)
    requires forall i | 0 <= i < |a| :: a[i].Quiet? || a[i].Burst?
    ensures Reads(a + b) == Reads(a) + Reads(b)
  {
    if a == [] {
      assert a + b == b;
    } else {
      ReadsMeet(a[1..], b);
      assert (a + b)[0] == a[0] && (a + b)[1..] == a[1..] + b;
    }
  }

  /** What is read after the `i`-th turn, when it is a burst. */
  function ReadAfter<T>(turns: seq<Turn<T>>): nat -> Option<T> {
    (i: nat) => if i < |turns| && turns[i].Burst? then Some(turns[i].next) else None
  }

  lemma ReadOneMore<T>(turns: seq<Turn<T>>, n: nat)
    requires n < |turns| && forall i | 0 <= i <= n :: turns[i].Quiet? || turns[i].Burst?
    ensures Reads(turns[..n + 1]) == Reads(turns[..n]) + Any(ReadAfter(turns)(n))
  {
    ReadsMeet(turns[..n], [turns[n]]);
    assert turns[..n + 1] == turns[..n] + [turns[n]] && [turns[n]][1..] == [];
  }

  lemma ReadNoMore<T>(turns: seq<Turn<T>>, n: nat)
    requires n <= |turns| && forall i | 0 <= i < n :: turns[i].Quiet? || turns[i].Burst?
    requires n < |turns| ==> !turns[n].Quiet? && !turns[n].Burst?
    ensures Reads(turns) == Reads(turns[..n])
  {
    assert turns == turns[..n] + turns[n..];
    ReadsMeet(turns[..n], turns[n..]);
    assert n < |turns| ==> turns[n..][0] == turns[n];
  }

  /**
   * The themes that are read are those after each burst, in their order, until
   * the first turn at which the thread is stopped or its channel is gone.
   */
  lemma {:induction false} ReadsAreTheBursts<T>(turns: seq<Turn<T>>) returns (n: nat, at: seq<nat>)
    ensures n <= |turns| && forall i | 0 <= i < n :: turns[i].Quiet? || turns[i].Burst?
    ensures n < |turns| ==> turns[n].Stop? || turns[n].Gone? || turns[n].GoneInBurst?
    ensures Selects(n, ReadAfter(turns), at, Reads(turns))
  {
    n, at := 0, [];
    var ys: seq<T> := [];
    while n < |turns| && (turns[n].Quiet? || turns[n].Burst?)
      invariant n <= |turns| && forall i | 0 <= i < n :: turns[i].Quiet? || turns[i].Burst?
      invariant ys == Reads(turns[..n]) && Selects(n, ReadAfter(turns), at, ys)
    {
      SelectsOneMore(n, ReadAfter(turns), at, ys);
      ReadOneMore(turns, n);
      at, ys := at + (if ReadAfter(turns)(n).Some? then [n] else []), ys + Any(ReadAfter(turns)(n));
      n := n + 1;
    }
    ReadNoMore(turns, n);
  }

  lemma ReadsStep<T>(turns: seq<Turn<T>>, i: nat)
    requires i < |turns|
    ensures turns[i].Quiet? ==> Reads(turns[i..]) == Reads(turns[i + 1..])
    ensures turns[i].Burst? ==> Reads(turns[i..]) == [turns[i].next] + Reads(turns[i + 1..])
    ensures !turns[i].Quiet? && !turns[i].Burst? ==> Reads(turns[i..]) == []
  {
    assert turns[i..][0] == turns[i] && turns[i..][1..] == turns[i + 1..];
  }

  /** `t` is the last of `themes` that is available; or just the last, if none is. */
  ghost predicate IsLastValid<T>(ok: T -> bool, t: T, themes: seq<T>) {
    if exists u | u in themes :: ok(u) then
      exists i | 0 <= i < |themes| ::
        themes[i] == t && ok(t) && forall j | i < j < |themes| :: !ok(themes[j])
    else
      themes != [] && t == themes[|themes| - 1]
  }

  /**
   * `shown` is what the window shows, one after another, when the themes in
   * `seen` are read after the one it started with: each is another than the
   * one before, and a palette is never taken away again.
   */
  ghost predicate Follows<T>(ok: T -> bool, shown: seq<T>, seen: seq<T>) {
    && |shown| > 0
    && (forall i | 0 < i < |shown| :: shown[i] != shown[i - 1] && shown[i] in seen)
    && (forall i, j | 0 <= i < j < |shown| && ok(shown[i]) :: ok(shown[j]))
  }

  lemma OneMoreIsValid<T>(ok: T -> bool, t: T, themes: seq<T>, next: T)
    requires IsLastValid(ok, t, themes)
    ensures IsLastValid(ok, if !ok(next) && ok(t) then t else next, themes + [next])
  {
    var more := themes + [next];
    assert more[|themes|] == next && next in more;
    assert forall i | 0 <= i < |themes| :: more[i] == themes[i];
    if !ok(next) {
      if u :| u in themes && ok(u) {
        assert u in more;
        var i :| 0 <= i < |themes| && themes[i] == t && forall j | i < j < |themes| :: !ok(themes[j]);
        assert more[i] == t && forall j | i < j < |more| :: !ok(more[j]);
      }
    }
  }

  lemma FollowsOneMore<T>(ok: T -> bool, shown: seq<T>, seen: seq<T>, next: T)
    requires Follows(ok, shown, seen)
    ensures Follows(ok, shown, seen + [next])
    ensures shown[|shown| - 1] != next && (ok(shown[|shown| - 1]) ==> ok(next)) ==>
              Follows(ok, shown + [next], seen + [next])
  {
    assert next in seen + [next];
  }

  /** What one more read leaves told: nothing more when it is the one shown, or is not valid and the one shown is. */
  function ToldAfter<T(==)>(ok: T -> bool, told: seq<T>, last: T, next: T): seq<T> {
    if (!ok(next) && ok(last)) || next == last then told else told + [next]
  }

  lemma OneMoreFollows<T>(ok: T -> bool, first: T, told: seq<T>, last: T, seen: seq<T>, next: T)
    requires Follows(ok, [first] + told, seen) && last == ([first] + told)[|told|]
    ensures Follows(ok, [first] + ToldAfter(ok, told, last, next), seen + [next])
  {
    FollowsOneMore(ok, [first] + told, seen, next);
    assert [first] + (told + [next]) == [first] + told + [next];
  }

  lemma OneMoreIsOn<T>(ok: T -> bool, first: T, told: seq<T>, last: T, seen: seq<T>, next: T)
    requires last == ([first] + told)[|told|] && IsLastValid(ok, last, [first] + seen)
    ensures IsLastValid(ok, LastOf(first, ToldAfter(ok, told, last, next)), [first] + (seen + [next]))
  {
    OneMoreIsValid(ok, last, [first] + seen, next);
    assert [first] + (seen + [next]) == [first] + seen + [next];
  }

  /** What the window shows in the end. */
  function LastOf<T>(first: T, told: seq<T>): T {
    ([first] + told)[|told|]
  }

  /** The themes that count: all that are valid, and others only until one is valid. */
  function Heeded<T>(ok: T -> bool, valid: bool, themes: seq<T>): seq<T>
    decreases |themes|
  {
    if themes == [] then []
    else if !ok(themes[0]) && valid then Heeded(ok, valid, themes[1..])
    else [themes[0]] + Heeded(ok, valid || ok(themes[0]), themes[1..])
  }

  /** The themes that are not the one before over again. */
  function News<T(==)>(last: T, themes: seq<T>): seq<T>
    decreases |themes|
  {
    if themes == [] then []
    else (if themes[0] == last then [] else [themes[0]]) + News(themes[0], themes[1..])
  }

  /** What the window has to be told, of what is read after `first`. */
  function Due<T(==)>(ok: T -> bool, first: T, themes: seq<T>): seq<T> {
    News(first, Heeded(ok, ok(first), themes))
  }

  lemma DueStep<T>(ok: T -> bool, last: T, next: T, rest: seq<T>)
    ensures Due(ok, last, [next] + rest)
            == if (!ok(next) && ok(last)) || next == last then Due(ok, last, rest) else [next] + Due(ok, next, rest)
  {
    assert ([next] + rest)[1..] == rest;
    var heeded := Heeded(ok, ok(last) || ok(next), rest);
    assert ([next] + heeded)[1..] == heeded;
  }

  lemma LastAfter<T>(ok: T -> bool, first: T, told: seq<T>, next: T)
    ensures LastOf(first, ToldAfter(ok, told, LastOf(first, told), next))
            == if !ok(next) && ok(LastOf(first, told)) then LastOf(first, told) else next
  {
  }

  lemma Regroup<T>(told: seq<T>, next: T, more: seq<T>)
    ensures told + [next] + more == told + ([next] + more)
  {
  }

  lemma DueGoesOn<T>(ok: T -> bool, first: T, told: seq<T>, rest: seq<T>)
    requires rest != []
    ensures var told' := ToldAfter(ok, told, LastOf(first, told), rest[0]);
            told' + Due(ok, LastOf(first, told'), rest[1..]) == told + Due(ok, LastOf(first, told), rest)
  {
    var last, next, more := LastOf(first, told), rest[0], rest[1..];
    LastAfter(ok, first, told, next);
    DueStep(ok, last, next, more);
    assert [next] + more == rest;
    Regroup(told, next, Due(ok, next, more));
  }

  lemma {:induction false} DueFollowsOn<T>(ok: T -> bool, first: T, told: seq<T>, seen: seq<T>, rest: seq<T>)
    requires Follows(ok, [first] + told, seen)
    ensures Follows(ok, [first] + (told + Due(ok, LastOf(first, told), rest)), seen + rest)
    decreases |rest|
  {
    if rest == [] {
      assert told + [] == told && seen + rest == seen;
    } else {
      var told' := ToldAfter(ok, told, LastOf(first, told), rest[0]);
      OneMoreFollows(ok, first, told, LastOf(first, told), seen, rest[0]);
      DueFollowsOn(ok, first, told', seen + [rest[0]], rest[1..]);
      DueGoesOn(ok, first, told, rest);
      assert seen + [rest[0]] + rest[1..] == seen + rest;
    }
  }

  lemma {:induction false} DueLeavesOn<T>(ok: T -> bool, first: T, told: seq<T>, seen: seq<T>, rest: seq<T>)
    requires IsLastValid(ok, LastOf(first, told), [first] + seen)
    ensures IsLastValid(ok, LastOf(first, told + Due(ok, LastOf(first, told), rest)), [first] + (seen + rest))
    decreases |rest|
  {
    if rest == [] {
      assert told + [] == told && seen + rest == seen;
    } else {
      var told' := ToldAfter(ok, told, LastOf(first, told), rest[0]);
      OneMoreIsOn(ok, first, told, LastOf(first, told), seen, rest[0]);
      DueLeavesOn(ok, first, told', seen + [rest[0]], rest[1..]);
      DueGoesOn(ok, first, told, rest);
      assert seen + [rest[0]] + rest[1..] == seen + rest;
    }
  }

  /**
   * What is due is never a theme over again, never takes a palette away, and
   * in the end leaves the last valid theme on.
   */
  lemma DueFollows<T>(ok: T -> bool, first: T, themes: seq<T>)
    ensures Follows(ok, [first] + Due(ok, first, themes), themes)
    ensures IsLastValid(ok, LastOf(first, Due(ok, first, themes)), [first] + themes)
  {
    assert [first] + [] == [first];
    DueFollowsOn(ok, first, [], [], themes);
    DueLeavesOn(ok, first, [], [], themes);
    assert [] + Due(ok, first, themes) == Due(ok, first, themes) && [] + themes == themes;
  }

  /** What is told so far, with what is still due for the turns from `i` on. */
  ghost function Owed<T>(ok: T -> bool, first: T, told: seq<T>, turns: seq<Turn<T>>, i: nat): seq<T>
    requires i <= |turns|
  {
    told + Due(ok, LastOf(first, told), Reads(turns[i..]))
  }

  lemma OwedAfter<T>(ok: T -> bool, first: T, told: seq<T>, turns: seq<Turn<T>>, i: nat)
    requires i < |turns|
    ensures turns[i].Quiet? ==> Owed(ok, first, told, turns, i + 1) == Owed(ok, first, told, turns, i)
    ensures turns[i].Burst? ==>
              Owed(ok, first, ToldAfter(ok, told, LastOf(first, told), turns[i].next), turns, i + 1)
              == Owed(ok, first, told, turns, i)
    ensures !turns[i].Quiet? && !turns[i].Burst? ==> told == Owed(ok, first, told, turns, i)
  {
    ReadsStep(turns, i);
    if turns[i].Burst? {
      var rest := Reads(turns[i + 1..]);
      assert ([turns[i].next] + rest)[1..] == rest;
      DueGoesOn(ok, first, told, [turns[i].next] + rest);
    }
  }

  /** Watch until told to stop: read after every burst of events, and tell the window exactly what is due. */
  method Debounce<T(==)>(ok: T -> bool, first: T, turns: seq<Turn<T>>) returns (told: seq<T>, last: T)
    ensures told == Due(ok, first, Reads(turns))
    ensures last == LastOf(first, told)
  {
    told, last := [], first;
    var i := 0;
    assert turns[0..] == turns;
    while i < |turns|
      invariant 0 <= i <= |turns| && last == LastOf(first, told)
      invariant Owed(ok, first, told, turns, i) == Due(ok, first, Reads(turns))
    {
      OwedAfter(ok, first, told, turns, i);
      var turn := turns[i];
      i := i + 1;
      if turn.Stop? || turn.Gone? || turn.GoneInBurst? {
        return;
      }
      if turn.Quiet? {
        continue;
      }
      var next := turn.next;
      if !ok(next) && ok(last) {
        continue;
      }
      if next == last {
        continue;
      }
      told, last := told + [next], next;
    }
  }
}
