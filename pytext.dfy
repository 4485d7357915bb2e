/** The few Python string built-ins the quiz relies on: `str.capitalize`,
    `str.split`, `int(text)` with the white space it ignores around the
    digits, and the f-string rendering of an `int`.  Case mapping is
    modelled on ASCII letters only, and digits are ASCII digits. */
module PyText {

  datatype Option<T> = None | Some(value: T)

  // ---------------------------------------------------------------- characters

  /** The white space `int()` skips around its digits: `str.isspace`
      without the ASCII separators 0x1C-0x1F.  That is tab to carriage
      return, space, and the non-ASCII spaces and line separators, which
      `int()` first turns into plain spaces. */
  predicate IsSpace(c: char) {
    9 <= c as int <= 13 || c as int == 32 || c as int == 0x85 || c as int == 0xA0 ||
    c as int == 0x1680 || 0x2000 <= c as int <= 0x200A || c as int == 0x2028 ||
    c as int == 0x2029 || c as int == 0x202F || c as int == 0x205F || c as int == 0x3000
  }

  predicate IsDigit(c: char) {
    '0' <= c <= '9'
  }

  predicate AllDigits(s: string) {
    forall i :: 0 <= i < |s| ==> IsDigit(s[i])
  }

  function DigitChar(d: nat): (c: char)
    requires d < 10
    ensures IsDigit(c)
  {
    ('0' as int + d) as char
  }

  function DigitValue(c: char): (d: nat)
    requires IsDigit(c)
    ensures d < 10
  {
    c as int - '0' as int
  }

  function Upper(c: char): char {
    if 'a' <= c <= 'z' then (c as int - 32) as char else c
  }

  function Lower(c: char): char {
    if 'A' <= c <= 'Z' then (c as int + 32) as char else c
  }

  /** Two characters agree after upper-casing exactly when they agree
      after lower-casing. */
  lemma UpperLowerAgree(a: char, b: char)
    ensures Upper(a) == Upper(b) <==> Lower(a) == Lower(b)
  {
  }

  // ---------------------------------------------------------------- capitalize

  function LowerAll(s: string): (r: string)
    ensures |r| == |s| && forall i :: 0 <= i < |s| ==> r[i] == Lower(s[i])
  {
    seq(|s|, i requires 0 <= i < |s| => Lower(s[i]))
  }

  /** `str.capitalize()`: first character upper case, the rest lower case. */
  function Capitalize(s: string): (r: string)
    ensures |r| == |s|
    ensures |s| > 0 ==> r[0] == Upper(s[0])
    ensures forall i :: 1 <= i < |s| ==> r[i] == Lower(s[i])
  {
    if s == [] then [] else [Upper(s[0])] + LowerAll(s[1..])
  }

  /** Two inputs capitalize to the same text exactly when they are the same
      word up to letter case. */
  lemma CapitalizeSame(s: string, w: string)
    ensures Capitalize(s) == Capitalize(w) <==>
              |s| == |w| && forall i :: 0 <= i < |s| ==> Lower(s[i]) == Lower(w[i])
  {
    if |s| == |w| && |s| > 0 {
      var ts, tw := LowerAll(s[1..]), LowerAll(w[1..]);
      assert Capitalize(s) == [Upper(s[0])] + ts;
      assert Capitalize(w) == [Upper(w[0])] + tw;
      UpperLowerAgree(s[0], w[0]);
      if Capitalize(s) == Capitalize(w) {
        assert Capitalize(s)[0] == Upper(s[0]) && Capitalize(w)[0] == Upper(w[0]);
        assert Capitalize(s)[1..] == ts && Capitalize(w)[1..] == tw;
        forall i | 1 <= i < |s| ensures Lower(s[i]) == Lower(w[i]) {
          assert ts[i - 1] == Lower(s[i]) && tw[i - 1] == Lower(w[i]);
        }
      }
    }
  }

  // ---------------------------------------------------------------- integers

  function StripLeft(s: string): (r: string)
    decreases |s|
  {
    if |s| > 0 && IsSpace(s[0]) then StripLeft(s[1..]) else s
  }

  function StripRight(s: string): (r: string)
    decreases |s|
  {
    if |s| > 0 && IsSpace(s[|s| - 1]) then StripRight(s[..|s| - 1]) else s
  }

  /** The white space `int()` ignores, removed from both ends. */
  function Strip(s: string): string {
    StripRight(StripLeft(s))
  }

  /** f"{n}" for a non-negative `n`: decimal digits, no leading zero. */
  function NatToString(n: nat): (r: string)
    ensures |r| >= 1 && AllDigits(r)
    ensures r[0] == '0' <==> n == 0
    decreases n
  {
    if n < 10 then [DigitChar(n)] else NatToString(n / 10) + [DigitChar(n % 10)]
  }

  /** f"{i}" for any Python `int`. */
  function IntToString(i: int): (r: string)
    ensures i >= 0 ==> |r| >= 1 && AllDigits(r)
    ensures i < 0 ==> |r| >= 2 && r[0] == '-' && AllDigits(r[1..])
  {
    if i < 0 then "-" + NatToString(-i) else NatToString(i)
  }

  function DigitsValue(s: string): nat
    requires AllDigits(s)
    decreases |s|
  {
    if s == [] then 0 else DigitsValue(s[..|s| - 1]) * 10 + DigitValue(s[|s| - 1])
  }

  /** `int(text)`: surrounding white space, an optional sign, then one or
      more decimal digits; anything else raises ValueError (None here). */
  function ParseInt(s: string): (r: Option<int>)
    ensures |s| > 0 && AllDigits(s) ==> r == Some(DigitsValue(s))
    ensures Strip(s) == [] ==> r == None
  {
    var t := Strip(s);
    if |t| > 0 && (t[0] == '-' || t[0] == '+') then
      var digits := t[1..];
      if |digits| > 0 && AllDigits(digits) then
        var magnitude: int := DigitsValue(digits);
        Some(if t[0] == '-' then -magnitude else magnitude)
      else None
    else if |t| > 0 && AllDigits(t) then Some(DigitsValue(t))
    else None
  }

  lemma {:induction false} DigitsOfNatToString(n: nat)
    ensures DigitsValue(NatToString(n)) == n
    decreases n
  {
    if n >= 10 {
      var s := NatToString(n);
      assert s[..|s| - 1] == NatToString(n / 10);
      DigitsOfNatToString(n / 10);
    }
  }

  lemma StripUnpadded(s: string)
    requires |s| > 0 && !IsSpace(s[0]) && !IsSpace(s[|s| - 1])
    ensures Strip(s) == s
  {
  }

  /** Reading back what the f-string wrote gives the same integer. */
  lemma ParseIntRoundTrip(i: int)
    ensures ParseInt(IntToString(i)) == Some(i)
  {
    var s := IntToString(i);
    var n: nat := if i < 0 then -i else i;
    var digits := NatToString(n);
    assert IsDigit(digits[|digits| - 1]);
    assert IsDigit(digits[0]);
    StripUnpadded(s);
    DigitsOfNatToString(n);
    if i < 0 {
      assert s[1..] == digits;
    }
  }

  /** A form feed around the digits is skipped, but the ASCII separator
      0x1C is not white space for `int()`. */
  lemma SeparatorNotSkipped()
    ensures ParseInt(['5', 12 as char]) == Some(5)
    ensures ParseInt(['5', 28 as char]) == None
  {
    var padded, bad := ['5', 12 as char], ['5', 28 as char];
    assert StripLeft(padded) == padded && StripLeft(bad) == bad;
    assert padded[..1] == ['5'];
    assert StripRight(['5']) == ['5'];
    assert Strip(padded) == ['5'];
    assert Strip(bad) == bad;
    assert !AllDigits(bad) by { assert !IsDigit(bad[1]); }
  }

  // ---------------------------------------------------------------- split

  function IndexOf(s: string, c: char): (k: nat)
    requires c in s
    ensures k < |s| && s[k] == c && c !in s[..k]
  {
    if s[0] == c then 0 else
      assert c in s[1..] by { var j :| 0 <= j < |s| && s[j] == c; assert s[1..][j - 1] == c; }
      var k := 1 + IndexOf(s[1..], c);
      assert s[..k] == [s[0]] + s[1..][..k - 1];
      k
  }

  /** `s.split(sep)` for a one-character separator: every occurrence
      separates, empty pieces are kept, and "" splits to [""]. */
  function Split(s: string, sep: char): (parts: seq<string>)
    ensures |parts| >= 1
    ensures sep !in s ==> parts == [s]
    decreases |s|
  {
    if sep !in s then [s]
    else
      var k := IndexOf(s, sep);
      [s[..k]] + Split(s[k + 1..], sep)
  }

  function Join(parts: seq<string>, sep: char): string
    requires |parts| >= 1
  {
    if |parts| == 1 then parts[0] else parts[0] + [sep] + Join(parts[1..], sep)
  }

  lemma Around(s: string, k: nat)
    requires k < |s|
    ensures s == s[..k] + [s[k]] + s[k + 1..]
  {
    assert s[k..] == [s[k]] + s[k + 1..];
    assert s == s[..k] + s[k..];
  }

  /** Splitting loses nothing: the pieces joined back give the input. */
  lemma {:induction false} SplitJoin(s: string, sep: char)
    ensures Join(Split(s, sep), sep) == s
    decreases |s|
  {
    if sep in s {
      var k := IndexOf(s, sep);
      var rest := Split(s[k + 1..], sep);
      SplitJoin(s[k + 1..], sep);
      assert Split(s, sep) == [s[..k]] + rest;
      assert Join(Split(s, sep), sep) == s[..k] + [sep] + Join(rest, sep);
      Around(s, k);
    }
  }

  /** No piece of a split contains the separator. */
  lemma {:induction false} SplitPiecesFree(s: string, sep: char)
    ensures forall i :: 0 <= i < |Split(s, sep)| ==> sep !in Split(s, sep)[i]
    decreases |s|
  {
    if sep in s {
      var k := IndexOf(s, sep);
      SplitPiecesFree(s[k + 1..], sep);
      var parts := Split(s, sep);
      assert parts[1..] == Split(s[k + 1..], sep);
      forall i | 0 <= i < |parts| ensures sep !in parts[i] {
        if i > 0 { assert parts[i] == parts[1..][i - 1]; }
      }
    }
  }

  /** Two separator-free pieces joined by the separator split back into
      exactly those two pieces. */
  lemma SplitTwo(a: string, b: string, sep: char)
    requires sep !in a && sep !in b
    ensures Split(a + [sep] + b, sep) == [a, b]
  {
    var s := a + [sep] + b;
    assert s[|a|] == sep;
    var k := IndexOf(s, sep);
    assert s[..k] == a;
    assert s[k + 1..] == b;
  }
}
