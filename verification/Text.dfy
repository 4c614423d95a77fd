/**
  The string layer: the parts of Go's strings, strconv and fmt packages the
  provisioner relies on. A Go string is a sequence of bytes; here one `char`
  stands for one byte.
 */
module Text {
  import opened Common

  /* ---- Splitting at a one-byte separator (strings.Split) ---- */

  /** The position of the first `sep` in `s`, or `|s|` when there is none. */
  function IndexOf(s: string, sep: char): (i: nat)
    ensures i <= |s|
    ensures i < |s| <==> sep in s
    ensures sep !in s[..i]
    ensures i < |s| ==> s[i] == sep
  {
    if s == [] || s[0] == sep then 0 else 1 + IndexOf(s[1..], sep)
  }

  function Split(s: string, sep: char): (parts: seq<string>)
    ensures parts != []
  {
    var i := IndexOf(s, sep);
    if i == |s| then [s] else [s[..i]] + Split(s[i + 1..], sep)
  }

  lemma {:induction false} IndexOfPrefix(a: string, b: string, sep: char)
    requires sep !in a
    ensures IndexOf(a + [sep] + b, sep) == |a|
  {
    if a != [] {
      assert (a + [sep] + b)[1..] == a[1..] + [sep] + b;
      IndexOfPrefix(a[1..], b, sep);
    }
  }

  /** A piece without a separator is the first of the pieces. */
  lemma SplitFirst(a: string, b: string, sep: char)
    requires sep !in a
    ensures Split(a + [sep] + b, sep) == [a] + Split(b, sep)
  {
    var s := a + [sep] + b;
    IndexOfPrefix(a, b, sep);
    assert s[..|a|] == a && s[|a| + 1..] == b;
  }

  lemma SplitWhole(s: string, sep: char)
    requires sep !in s
    ensures Split(s, sep) == [s]
  {
  }

  /** Splitting the concatenation at a separator gives the pieces of both sides. */
  lemma {:induction false} SplitConcat(a: string, b: string, sep: char)
    ensures Split(a + [sep] + b, sep) == Split(a, sep) + Split(b, sep)
    decreases |a|
  {
    hide Split;
    var i := IndexOf(a, sep);
    if i == |a| {
      SplitWhole(a, sep);
      SplitFirst(a, b, sep);
    } else {
      var first, rest := a[..i], a[i + 1..];
      assert a == first + [sep] + rest;
      assert a + [sep] + b == first + [sep] + (rest + [sep] + b);
      SplitFirst(first, rest, sep);
      SplitFirst(first, rest + [sep] + b, sep);
      SplitConcat(rest, b, sep);
    }
  }

  /** The two pieces of a string that holds the separator exactly once, and only then. */
  lemma {:induction false} SplitInTwo(s: string, sep: char)
    requires |Split(s, sep)| == 2
    ensures s == Split(s, sep)[0] + [sep] + Split(s, sep)[1]
    ensures sep !in Split(s, sep)[0] && sep !in Split(s, sep)[1]
  {
    var i := IndexOf(s, sep);
    var rest := s[i + 1..];
    assert Split(s, sep) == [s[..i]] + Split(rest, sep);
    assert IndexOf(rest, sep) == |rest|;
    assert s == s[..i] + [sep] + rest;
  }

  /** Cutting at the last separator is unambiguous when the tails hold none. */
  lemma CutAtLast(a: string, x: string, b: string, y: string, sep: char)
    requires sep !in x && sep !in y
    requires a + [sep] + x == b + [sep] + y
    ensures a == b && x == y
  {
    var s := a + [sep] + x;
    assert s[|a|] == sep && s[|b|] == sep;
    assert forall k :: |a| < k < |s| ==> s[k] == x[k - |a| - 1];
    assert forall k :: |b| < k < |s| ==> s[k] == (b + [sep] + y)[k] == y[k - |b| - 1];
    assert a == s[..|a|] && b == s[..|b|];
    assert x == s[|a| + 1..] && y == s[|b| + 1..];
  }

  function Join(parts: seq<string>, sep: char): string
    requires parts != []
  {
    if |parts| == 1 then parts[0] else parts[0] + [sep] + Join(parts[1..], sep)
  }

  lemma {:induction false} JoinMore(parts: seq<string>, last: string, sep: char)
    requires parts != []
    ensures Join(parts + [last], sep) == Join(parts, sep) + [sep] + last
  {
    if |parts| == 1 {
      assert (parts + [last])[1..] == [last];
    } else {
      JoinMore(parts[1..], last, sep);
      assert (parts + [last])[1..] == parts[1..] + [last];
    }
  }

  /** Splitting undoes joining pieces without a separator. */
  lemma {:induction false} SplitUndoesJoin(parts: seq<string>, sep: char)
    requires parts != [] && forall part :: part in parts ==> sep !in part
    ensures Split(Join(parts, sep), sep) == parts
  {
    if |parts| == 1 {
      SplitWhole(parts[0], sep);
    } else {
      assert sep !in parts[0] && forall part :: part in parts[1..] ==> part in parts;
      SplitUndoesJoin(parts[1..], sep);
      SplitFirst(parts[0], Join(parts[1..], sep), sep);
      assert parts == [parts[0]] + parts[1..];
    }
  }

  /* ---- Trimming (strings.TrimSpace over the ASCII blanks) ---- */

  predicate IsBlank(c: char) {
    c == ' ' || c == '\t' || c == '\n' || c == '\r' || c == '\U{0B}' || c == '\U{0C}'
  }

  function TrimLeft(s: string): string {
    if s != [] && IsBlank(s[0]) then TrimLeft(s[1..]) else s
  }

  function TrimRight(s: string): string {
    if s != [] && IsBlank(s[|s| - 1]) then TrimRight(s[..|s| - 1]) else s
  }

  function TrimSpace(s: string): string {
    TrimRight(TrimLeft(s))
  }

  /** A string that trimming leaves alone. */
  predicate Trimmed(s: string) {
    s == [] || (!IsBlank(s[0]) && !IsBlank(s[|s| - 1]))
  }

  predicate AllBlank(s: string) {
    forall i :: 0 <= i < |s| ==> IsBlank(s[i])
  }

  lemma TrimIdentity(s: string)
    requires Trimmed(s)
    ensures TrimSpace(s) == s
  {
  }

  lemma {:induction false} TrimLeftCuts(s: string) returns (w: string)
    ensures AllBlank(w) && s == w + TrimLeft(s) && (TrimLeft(s) == [] || !IsBlank(TrimLeft(s)[0]))
  {
    if s != [] && IsBlank(s[0]) {
      w := TrimLeftCuts(s[1..]);
      w := [s[0]] + w;
    } else {
      w := [];
    }
  }

  lemma {:induction false} TrimRightCuts(s: string) returns (z: string)
    ensures AllBlank(z) && s == TrimRight(s) + z && (TrimRight(s) == [] || !IsBlank(TrimRight(s)[|TrimRight(s)| - 1]))
  {
    if s != [] && IsBlank(s[|s| - 1]) {
      z := TrimRightCuts(s[..|s| - 1]);
      z := z + [s[|s| - 1]];
    } else {
      z := [];
    }
  }

  lemma {:induction false} TrimLeftOfBlanks(w: string, s: string)
    requires AllBlank(w)
    ensures TrimLeft(w + s) == TrimLeft(s)
  {
    if w == [] {
      assert w + s == s;
    } else {
      assert (w + s)[1..] == w[1..] + s;
      TrimLeftOfBlanks(w[1..], s);
    }
  }

  lemma {:induction false} TrimRightOfBlanks(s: string, z: string)
    requires AllBlank(z)
    ensures TrimRight(s + z) == TrimRight(s)
  {
    if z == [] {
      assert s + z == s;
    } else {
      assert (s + z)[..|s + z| - 1] == s + z[..|z| - 1];
      TrimRightOfBlanks(s, z[..|z| - 1]);
    }
  }

  /** Trimming leaves the one part between blanks that has no blank at its ends. */
  lemma TrimSpaceExactly(s: string, t: string)
    ensures t == TrimSpace(s) <==> Trimmed(t) && exists w, z :: AllBlank(w) && AllBlank(z) && s == w + t + z
  {
    if t == TrimSpace(s) {
      var w := TrimLeftCuts(s);
      var z := TrimRightCuts(TrimLeft(s));
      assert s == w + (t + z) == w + t + z;
      assert t != [] ==> t[0] == TrimLeft(s)[0];
    }
    if w, z :| Trimmed(t) && AllBlank(w) && AllBlank(z) && s == w + t + z {
      assert s == w + (t + z);
      TrimLeftOfBlanks(w, t + z);
      if t == [] {
        TrimLeftOfBlanks(z, []);
        assert t + z == z == z + [];
      } else {
        assert (t + z)[0] == t[0];
        TrimRightOfBlanks(t, z);
      }
    }
  }

  /** Blanks around a string do not change what trimming leaves. */
  lemma TrimIgnoresBlanks(w: string, s: string, z: string)
    requires AllBlank(w) && AllBlank(z)
    ensures TrimSpace(w + s + z) == TrimSpace(s)
  {
    hide TrimSpace;
    var t := TrimSpace(s);
    TrimSpaceExactly(s, t);
    var w', z' :| AllBlank(w') && AllBlank(z') && s == w' + t + z';
    assert AllBlank(w + w') && AllBlank(z' + z) && w + s + z == (w + w') + t + (z' + z);
    TrimSpaceExactly(w + s + z, t);
  }

  /* ---- Decimal numerals (fmt %d, %04d, strconv.Atoi) ---- */

  predicate IsDigit(c: char) {
    '0' <= c <= '9'
  }

  predicate AllDigits(s: string) {
    forall i :: 0 <= i < |s| ==> IsDigit(s[i])
  }

  lemma DigitsHoldNothingElse(s: string, c: char)
    requires AllDigits(s) && !IsDigit(c)
    ensures c !in s
  {
  }

  function DigitValue(c: char): nat
    requires IsDigit(c)
  {
    c as int - '0' as int
  }

  function DigitChar(d: nat): (c: char)
    requires d < 10
    ensures IsDigit(c) && DigitValue(c) == d
  {
    ('0' as int + d) as char
  }

  function NumeralValue(s: string): nat
    requires AllDigits(s)
  {
    if s == [] then 0 else 10 * NumeralValue(s[..|s| - 1]) + DigitValue(s[|s| - 1])
  }

  function Decimal(n: nat): (s: string)
    ensures s != [] && AllDigits(s) && NumeralValue(s) == n
    ensures n > 0 ==> s[0] != '0'
    ensures n == 0 ==> |s| == 1
  {
    if n < 10 then [DigitChar(n)]
    else
      var front := Decimal(n / 10);
      var s := front + [DigitChar(n % 10)];
      assert s[..|s| - 1] == front;
      s
  }

  lemma {:induction false} LeadingZero(s: string)
    requires AllDigits(s)
    ensures AllDigits("0" + s) && NumeralValue("0" + s) == NumeralValue(s)
    decreases |s|
  {
    var z := "0" + s;
    if s == [] {
      assert z[..0] == [];
      assert NumeralValue(z) == 10 * NumeralValue(z[..0]) + DigitValue('0');
    } else {
      assert z[..|z| - 1] == "0" + s[..|s| - 1];
      LeadingZero(s[..|s| - 1]);
    }
  }

  /** Left-pads a numeral with zeros to the given width. */
  function ZeroPad(s: string, width: nat): (r: string)
    requires AllDigits(s)
    ensures AllDigits(r) && NumeralValue(r) == NumeralValue(s)
    ensures if |s| < width then |r| == width else r == s
    decreases width - |s|
  {
    if |s| < width then LeadingZero(s); ZeroPad("0" + s, width) else s
  }

  /** A numeral of four digits, or of more if the value needs them. */
  predicate IsIndexNumeral(r: string, i: nat) {
    AllDigits(r) && NumeralValue(r) == i && |r| >= 4 && (|r| > 4 ==> r[0] != '0')
  }

  /** fmt's %04d: the sign counts towards the width. */
  function FormatIndex(i: int): (r: string)
    ensures i >= 0 ==> IsIndexNumeral(r, i)
    ensures i < 0 ==> |r| >= 4 && r[0] == '-' && AllDigits(r[1..]) && NumeralValue(r[1..]) == -i && (|r| > 4 ==> r[1] != '0')
  {
    if i >= 0 then ZeroPad(Decimal(i), 4) else "-" + ZeroPad(Decimal(-i), 3)
  }

  /** Appending a digit. */
  lemma NumeralStep(front: string, c: char)
    requires AllDigits(front) && IsDigit(c)
    ensures AllDigits(front + [c]) && NumeralValue(front + [c]) == 10 * NumeralValue(front) + DigitValue(c)
  {
    assert (front + [c])[..|front + [c]| - 1] == front;
  }

  function PowerOfTen(k: nat): (p: nat)
    ensures p > 0
  {
    if k == 0 then 1 else 10 * PowerOfTen(k - 1)
  }

  /** The length of a numeral bounds its value, from below if it does not start with a zero. */
  lemma {:induction false} ValueAndLength(s: string)
    requires AllDigits(s)
    ensures NumeralValue(s) < PowerOfTen(|s|)
    ensures s != [] && s[0] != '0' ==> NumeralValue(s) >= PowerOfTen(|s| - 1)
    decreases |s|
  {
    if s != [] {
      ValueAndLength(s[..|s| - 1]);
      if |s| > 1 {
        assert s[..|s| - 1][0] == s[0];
      }
    }
  }

  lemma {:induction false} PowersGrow(k: nat, l: nat)
    requires k <= l
    ensures PowerOfTen(k) <= PowerOfTen(l)
  {
    if k < l {
      PowersGrow(k, l - 1);
    }
  }

  lemma {:induction false} NumeralsOfOneLength(s: string, t: string)
    requires AllDigits(s) && AllDigits(t) && |s| == |t| && NumeralValue(s) == NumeralValue(t)
    ensures s == t
    decreases |s|
  {
    if s != [] {
      var last := |s| - 1;
      assert DigitValue(s[last]) == DigitValue(t[last]);
      NumeralsOfOneLength(s[..last], t[..last]);
      assert s == s[..last] + [s[last]] && t == t[..last] + [t[last]];
    }
  }

  lemma ShorterIsSmaller(s: string, t: string)
    requires AllDigits(s) && AllDigits(t) && |s| < |t| && t[0] != '0'
    ensures NumeralValue(s) < NumeralValue(t)
  {
    ValueAndLength(s);
    ValueAndLength(t);
    PowersGrow(|s|, |t| - 1);
  }

  /** The rendering of an index is the one numeral of its value with four digits, or more but no leading zero. */
  lemma FormatIndexExactly(i: nat, r: string)
    ensures r == FormatIndex(i) <==> IsIndexNumeral(r, i)
  {
    if IsIndexNumeral(r, i) {
      var f := FormatIndex(i);
      if |r| < |f| {
        ShorterIsSmaller(r, f);
      } else if |f| < |r| {
        ShorterIsSmaller(f, r);
      }
      NumeralsOfOneLength(r, f);
    }
  }

  lemma FormatIndexInjective(i: nat, j: nat)
    requires FormatIndex(i) == FormatIndex(j)
    ensures i == j
  {
  }

  const MAX_INT: int := 0x7FFF_FFFF_FFFF_FFFF
  const MIN_INT: int := -0x8000_0000_0000_0000

  /** strconv.Atoi: an optional sign, at least one digit, within the range of a 64-bit int. */
  function Atoi(s: string): Option<int> {
    var digits := if s != [] && (s[0] == '+' || s[0] == '-') then s[1..] else s;
    if digits == [] || !AllDigits(digits) then None
    else
      var n: int := if s[0] == '-' then 0 - NumeralValue(digits) else NumeralValue(digits);
      if MIN_INT <= n <= MAX_INT then Some(n) else None
  }
}
