/** The parts of Rust's and JavaScript's string handling that the models need. */
module Text {
  /** Unicode white space, which `trim` removes. */
  predicate IsSpace(c: char) {
    var n := c as int;
    9 <= n <= 13 || n == 32 || n == 0x85 || n == 0xA0 || n == 0x1680 || 0x2000 <= n <= 0x200A
    || n == 0x2028 || n == 0x2029 || n == 0x202F || n == 0x205F || n == 0x3000
  }

  function TrimStart(s: string): string {
    if s != "" && IsSpace(s[0]) then TrimStart(s[1..]) else s
  }

  function TrimEnd(s: string): string {
    if s != "" && IsSpace(s[|s| - 1]) then TrimEnd(s[..|s| - 1]) else s
  }

  function Trim(s: string): string {
    TrimEnd(TrimStart(s))
  }

  /** Nothing is trimmed from text that starts and ends with something visible. */
  lemma TrimIsIdentity(s: string)
    requires s != "" ==> !IsSpace(s[0]) && !IsSpace(s[|s| - 1])
    ensures Trim(s) == s
  {
  }

  predicate IsBlank(s: string) {
    forall c | c in s :: IsSpace(c)
  }

  /** It neither starts nor ends with white space. */
  predicate IsTight(s: string) {
    s != "" ==> !IsSpace(s[0]) && !IsSpace(s[|s| - 1])
  }

  lemma {:induction false} StartIsBlank(s: string) returns (before: string)
    ensures s == before + TrimStart(s) && IsBlank(before) && (TrimStart(s) != "" ==> !IsSpace(TrimStart(s)[0]))
  {
    if s != "" && IsSpace(s[0]) {
      before := StartIsBlank(s[1..]);
      before := [s[0]] + before;
      assert s == [s[0]] + s[1..];
    } else {
      before := "";
    }
  }

  lemma {:induction false} EndIsBlank(s: string) returns (after: string)
    ensures s == TrimEnd(s) + after && IsBlank(after)
    ensures TrimEnd(s) != "" ==> !IsSpace(TrimEnd(s)[|TrimEnd(s)| - 1]) && TrimEnd(s)[0] == s[0]
  {
    if s != "" && IsSpace(s[|s| - 1]) {
      after := EndIsBlank(s[..|s| - 1]);
      after := after + [s[|s| - 1]];
      assert s == s[..|s| - 1] + [s[|s| - 1]];
    } else {
      after := "";
    }
  }

  /** Trimming takes white space off both ends, and all of it. */
  lemma TrimIsTight(s: string) returns (before: string, after: string)
    ensures s == before + Trim(s) + after && IsBlank(before) && IsBlank(after) && IsTight(Trim(s))
  {
    before := StartIsBlank(s);
    after := EndIsBlank(TrimStart(s));
  }

  lemma {:induction false} BlankStart(before: string, s: string)
    requires IsBlank(before)
    ensures TrimStart(before + s) == TrimStart(s)
  {
    if before != "" {
      assert before[0] in before && (before + s)[1..] == before[1..] + s;
      BlankStart(before[1..], s);
    } else {
      assert before + s == s;
    }
  }

  lemma {:induction false} BlankEnd(s: string, after: string)
    requires IsBlank(after)
    ensures TrimEnd(s + after) == TrimEnd(s)
  {
    if after != "" {
      var n := |after| - 1;
      assert after[n] in after && (s + after)[..|s| + n] == s + after[..n];
      BlankEnd(s, after[..n]);
    } else {
      assert s + after == s;
    }
  }

  /** And nothing else is what trimming does. */
  lemma TrimIsTheOnly(before: string, s: string, after: string)
    requires IsBlank(before) && IsBlank(after) && IsTight(s)
    ensures Trim(before + s + after) == s
  {
    assert before + s + after == before + (s + after);
    BlankStart(before, s + after);
    if s != "" {
      assert (s + after)[0] == s[0] && TrimStart(s + after) == s + after;
    } else {
      assert s + after == after;
      BlankStart(after, "");
      assert after + "" == after;
    }
    BlankEnd(s, after);
  }

  // --- Numbers in decimal ----------------------------------------------------

  const DIGITS := "0123456789"

  function Decimal(n: nat): (s: string)
    ensures s != ""
  {
    if n < 10 then [DIGITS[n]] else Decimal(n / 10) + [DIGITS[n % 10]]
  }

  /** The number that digits stand for. */
  function NumberOf(s: string): int {
    if s == "" then 0 else 10 * NumberOf(s[..|s| - 1]) + (s[|s| - 1] as int - '0' as int)
  }

  /** A number is written in the digits that stand for it, with no needless zero. */
  lemma {:induction false} DecimalIsTheNumber(n: nat)
    ensures NumberOf(Decimal(n)) == n
    ensures forall c | c in Decimal(n) :: '0' <= c <= '9'
    ensures n > 0 ==> Decimal(n)[0] != '0'
  {
    DigitIsItself(n % 10);
    if n >= 10 {
      DecimalIsTheNumber(n / 10);
      assert Decimal(n)[..|Decimal(n)| - 1] == Decimal(n / 10);
    } else {
      assert Decimal(n)[..0] == "";
    }
  }

  lemma DigitIsItself(i: nat)
    requires i < 10
    ensures DIGITS[i] as int == '0' as int + i
  {
  }

  lemma DigitsDiffer(i: nat, j: nat)
    requires i < 10 && j < 10 && DIGITS[i] == DIGITS[j]
    ensures i == j
  {
  }

  /** No two numbers are written alike. */
  lemma {:induction false} DecimalIsInjective(m: nat, n: nat)
    requires Decimal(m) == Decimal(n)
    ensures m == n
  {
    var s := Decimal(m);
    assert |s| > 1 ==> m >= 10 && n >= 10;
    if m < 10 || n < 10 {
      assert |s| == 1;
      assert |Decimal(m / 10)| >= 1 && |Decimal(n / 10)| >= 1;
      DigitsDiffer(m, n);
    } else {
      assert s[|s| - 1] == DIGITS[m % 10] == DIGITS[n % 10];
      DigitsDiffer(m % 10, n % 10);
      assert s[..|s| - 1] == Decimal(m / 10) == Decimal(n / 10);
      DecimalIsInjective(m / 10, n / 10);
    }
  }
}
