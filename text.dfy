/** The few Python `str` operations the command handlers and services rely on. */
module Text {
  import opened Wrappers

  /** The characters Python's `str.isspace` accepts, which `str.strip()` removes. */
  predicate IsSpace(c: char) {
    c == ' ' || ('\t' <= c <= '\r') || ('\U{1c}' <= c <= '\U{1f}') || c == '\U{85}' || c == '\U{a0}'
    || c == '\U{1680}' || ('\U{2000}' <= c <= '\U{200a}') || c == '\U{2028}' || c == '\U{2029}'
    || c == '\U{202f}' || c == '\U{205f}' || c == '\U{3000}'
  }

  /** Python's `f"{x}"` of an optional string: `None` prints as `None`. */
  function Show(s: Option<string>): string {
    match s
    case None => "None"
    case Some(v) => v
  }

  /** `s.startswith(p)` */
  predicate StartsWith(s: string, p: string) {
    |p| <= |s| && s[..|p|] == p
  }

  /** `sub in s`: some window of `s` equals `sub`. */
  predicate Contains(s: string, sub: string) {
    exists i {:trigger s[i..]} :: 0 <= i <= |s| - |sub| && StartsWith(s[i..], sub)
  }

  /** A string contains each of its middle pieces. */
  lemma ContainsMiddle(a: string, b: string, c: string)
    ensures Contains(a + b + c, b)
  {
    var s := a + b + c;
    assert s[|a|..][..|b|] == b;
    assert StartsWith(s[|a|..], b);
  }

  /** Executable form of `Contains`. */
  function ContainsFrom(s: string, sub: string): (b: bool)
    decreases |s|
    ensures b <==> Contains(s, sub)
  {
    if StartsWith(s, sub) then
      assert s[0..] == s;
      true
    else if |s| <= |sub| || |s| == 0 then
      assert forall i {:trigger s[i..]} :: 0 <= i <= |s| - |sub| ==> i == 0 && s[i..] == s;
      false
    else
      var b' := ContainsFrom(s[1..], sub);
      assert forall i {:trigger s[i..]} :: 1 <= i <= |s| - |sub| ==> s[1..][i - 1..] == s[i..];
      assert b' ==> exists i {:trigger s[i..]} :: 0 <= i <= |s| - |sub| && StartsWith(s[i..], sub) by {
        if b' {
          var j :| 0 <= j <= |s[1..]| - |sub| && StartsWith(s[1..][j..], sub);
          assert s[1..][j..] == s[j + 1..];
        }
      }
      b'
  }

  /** `s[n:]` for `n >= 0`: the suffix after dropping `n` characters, empty when `s` is shorter. */
  function Drop(s: string, n: nat): (r: string)
    ensures |r| == if |s| <= n then 0 else |s| - n
    ensures forall k :: 0 <= k < |r| ==> r[k] == s[n + k]
  {
    if |s| <= n then "" else s[n..]
  }

  /** Number of leading whitespace characters. */
  function LeadingSpace(s: string): (n: nat)
    ensures n <= |s|
    ensures forall k :: 0 <= k < n ==> IsSpace(s[k])
    ensures n < |s| ==> !IsSpace(s[n])
  {
    if |s| == 0 || !IsSpace(s[0]) then 0 else 1 + LeadingSpace(s[1..])
  }

  /** Number of trailing whitespace characters. */
  function TrailingSpace(s: string): (n: nat)
    ensures n <= |s|
    ensures forall k :: |s| - n <= k < |s| ==> IsSpace(s[k])
    ensures n < |s| ==> !IsSpace(s[|s| - n - 1])
  {
    if |s| == 0 || !IsSpace(s[|s| - 1]) then 0 else 1 + TrailingSpace(s[..|s| - 1])
  }

  /** `s.strip()`: the slice of `s` between its leading and trailing whitespace. */
  function Strip(s: string): (r: string)
    ensures |r| <= |s|
    ensures exists i {:trigger s[i..]} :: 0 <= i <= |s| - |r| && r == s[i..i + |r|]
                                          && (forall k :: 0 <= k < i ==> IsSpace(s[k]))
                                          && (forall k :: i + |r| <= k < |s| ==> IsSpace(s[k]))
    ensures |r| > 0 ==> !IsSpace(r[0]) && !IsSpace(r[|r| - 1])
    ensures (forall k :: 0 <= k < |s| ==> IsSpace(s[k])) <==> r == ""
  {
    var a := LeadingSpace(s);
    var rest := s[a..];
    var b := TrailingSpace(rest);
    var r := rest[..|rest| - b];
    assert r == s[a..a + |r|];
    assert s[a..] == rest;
    assert forall k :: a + |r| <= k < |s| ==> s[k] == rest[k - a];
    if r == "" then
      assert a == |s|;
      r
    else
      assert !IsSpace(s[a]);
      r
  }

  /** Position of the first occurrence of `c` in `s`. */
  function IndexOf(s: string, c: char): (r: Option<nat>)
    ensures r.None? <==> c !in s
    ensures r.Some? ==> r.value < |s| && s[r.value] == c && c !in s[..r.value]
  {
    if |s| == 0 then None
    else if s[0] == c then Some(0)
    else
      match IndexOf(s[1..], c)
      case None => None
      case Some(k) =>
        assert s[..k + 1] == [s[0]] + s[1..][..k];
        Some(k + 1)
  }

  /** The value of an ASCII decimal digit. */
  function DigitValue(c: char): (d: int)
    requires '0' <= c <= '9'
    ensures 0 <= d <= 9
  {
    (c as int) - ('0' as int)
  }

  /**
   * Digits with single underscores between them (the body of a Python integer literal),
   * read as a natural number; `None` for anything else.
   */
  function ParseDigits(s: string): (r: Option<nat>)
    ensures r.Some? ==> |s| > 0 && '0' <= s[|s| - 1] <= '9' && '0' <= s[0] <= '9'
    ensures r.Some? ==> forall k :: 0 <= k < |s| ==> '0' <= s[k] <= '9' || s[k] == '_'
    ensures (|s| > 0 && forall k :: 0 <= k < |s| ==> '0' <= s[k] <= '9') ==> r.Some?
    decreases |s|
  {
    if |s| == 0 || !('0' <= s[|s| - 1] <= '9') then None
    else if |s| == 1 then Some(DigitValue(s[0]))
    else
      var init := s[..|s| - 1];
      var body := if init[|init| - 1] == '_' then init[..|init| - 1] else init;
      match ParseDigits(body)
      case None => None
      case Some(v) =>
        assert body[0] == s[0];
        Some(v * 10 + DigitValue(s[|s| - 1]))
  }

  /**
   * Python's `int(s)` on a string: surrounding whitespace is ignored, an optional sign
   * is allowed, and `None` stands for the `ValueError` it raises otherwise.
   */
  function ParseInt(s: string): (r: Option<int>)
    ensures r.Some? ==> Strip(s) != ""
    ensures (Strip(s) != "" && forall k :: 0 <= k < |Strip(s)| ==> '0' <= Strip(s)[k] <= '9') ==> r.Some? && r.value >= 0
    ensures r.Some? ==> forall k :: 0 <= k < |Strip(s)| ==>
                          '0' <= Strip(s)[k] <= '9' || Strip(s)[k] == '_' || (k == 0 && Strip(s)[k] in "+-")
    ensures Canonical(Strip(s)) ==> r.Some? && IntToString(r.value) == Strip(s)
  {
    ParseSigned(Strip(s))
  }

  /** `int()` of an already stripped text: an optional sign, then the digits. */
  function ParseSigned(t: string): (r: Option<int>)
    ensures r.Some? ==> t != ""
    ensures (t != "" && forall k :: 0 <= k < |t| ==> '0' <= t[k] <= '9') ==> r.Some? && r.value >= 0
    ensures r.Some? ==> forall k :: 0 <= k < |t| ==> '0' <= t[k] <= '9' || t[k] == '_' || (k == 0 && t[k] in "+-")
    ensures Canonical(t) ==> r.Some? && IntToString(r.value) == t
  {
    if |t| > 0 && (t[0] == '+' || t[0] == '-') then
      var body := ParseDigits(t[1..]);
      assert body.Some? ==> forall k :: 1 <= k < |t| ==> '0' <= t[k] <= '9' || t[k] == '_' by {
        if body.Some? {
          forall k | 1 <= k < |t| ensures '0' <= t[k] <= '9' || t[k] == '_' {
            assert t[k] == t[1..][k - 1];
          }
        }
      }
      match body
      case None => None
      case Some(v) => if t[0] == '-' then Some(-(v as int)) else Some(v)
    else
      if Canonical(t) then
        CanonicalDigits(t);
        ParseDigits(t)
      else
        match ParseDigits(t)
        case None => None
        case Some(v) => Some(v)
  }

  /** Decimal digits without a leading zero: the form `str` gives a natural number. */
  predicate Canonical(t: string) {
    && |t| > 0 && (|t| == 1 || t[0] != '0')
    && forall k :: 0 <= k < |t| ==> '0' <= t[k] <= '9'
  }

  /** Canonical digits are the decimal form of the number they parse to. */
  lemma {:induction false} CanonicalDigits(t: string)
    requires Canonical(t)
    ensures ParseDigits(t).Some? && NatToString(ParseDigits(t).value) == t
    ensures t[0] != '0' ==> ParseDigits(t).value > 0
    decreases |t|
  {
    if |t| > 1 {
      var init, c := CanonicalInit(t);
      CanonicalDigits(init);
      var v := ParseDigits(init).value;
      ParseDigitsAppend(init, c);
      NatToStringAppend(v, DigitValue(c));
      DigitCharValue(c);
    }
  }

  /** A canonical text of two or more digits is a shorter canonical text and one more digit. */
  lemma CanonicalInit(t: string) returns (init: string, c: char)
    requires Canonical(t) && |t| > 1
    ensures t == init + [c] && Canonical(init) && init[0] != '0' && '0' <= c <= '9'
    ensures init[|init| - 1] != '_'
  {
    init, c := t[..|t| - 1], t[|t| - 1];
    assert t == init + [c];
    assert init[0] == t[0];
  }

  /** `DigitChar` undoes `DigitValue`. */
  lemma DigitCharValue(c: char)
    requires '0' <= c <= '9'
    ensures DigitChar(DigitValue(c)) == c
  {
  }

  /** One more digit after a parsed body multiplies by ten and adds it. */
  lemma {:induction false} ParseDigitsAppend(init: string, c: char)
    requires |init| > 0 && init[|init| - 1] != '_' && '0' <= c <= '9' && ParseDigits(init).Some?
    ensures ParseDigits(init + [c]) == Some(ParseDigits(init).value * 10 + DigitValue(c))
  {
    var t := init + [c];
    assert t[|t| - 1] == c;
    assert t[..|t| - 1] == init;
  }

  /** The decimal form of `v * 10 + d` is that of `v` followed by the digit `d`. */
  lemma {:induction false} NatToStringAppend(v: nat, d: int)
    requires v > 0 && 0 <= d <= 9
    ensures NatToString(v * 10 + d) == NatToString(v) + [DigitChar(d)]
  {
    LastDigit(v, d);
  }

  /** Appending the digit `d` to `v` and splitting it off again. */
  lemma LastDigit(v: nat, d: int)
    requires v > 0 && 0 <= d <= 9
    ensures v * 10 + d >= 10 && (v * 10 + d) / 10 == v && (v * 10 + d) % 10 == d
  {
  }

  /** The ASCII digit of `d`. */
  function DigitChar(d: int): (c: char)
    requires 0 <= d <= 9
    ensures '0' <= c <= '9' && DigitValue(c) == d
  {
    (('0' as int) + d) as char
  }

  /** The decimal digits of `n`, without leading zeros. */
  function NatToString(n: nat): (s: string)
    ensures |s| > 0 && forall k :: 0 <= k < |s| ==> '0' <= s[k] <= '9'
    ensures |s| > 1 ==> s[0] != '0'
    decreases n
  {
    if n < 10 then [DigitChar(n)] else NatToString(n / 10) + [DigitChar(n % 10)]
  }

  /** Python's `str(n)` (and `f"{n}"`) for an integer. */
  function IntToString(n: int): (s: string)
    ensures |s| > 0
    ensures n < 0 <==> s[0] == '-'
  {
    if n < 0 then "-" + NatToString(-n) else NatToString(n)
  }

  /** `str(n)` ends in a digit. */
  lemma IntToStringEndsInDigit(n: int)
    ensures '0' <= IntToString(n)[|IntToString(n)| - 1] <= '9'
  {
    var d := NatToString(if n < 0 then -n else n);
    assert '0' <= d[|d| - 1] <= '9';
    if n < 0 {
      assert IntToString(n) == "-" + d;
    }
  }

  /** Reading back the digits of a natural number gives the number. */
  lemma {:induction false} ParseDigitsOfNatToString(n: nat)
    ensures ParseDigits(NatToString(n)) == Some(n)
    decreases n
  {
    if n >= 10 {
      ParseDigitsOfNatToString(n / 10);
      var s := NatToString(n);
      assert s[..|s| - 1] == NatToString(n / 10);
    }
  }

  /** A string whose ends are not whitespace is its own `strip()`. */
  lemma StripUnspaced(s: string)
    requires |s| > 0 ==> !IsSpace(s[0]) && !IsSpace(s[|s| - 1])
    ensures Strip(s) == s
  {
    assert LeadingSpace(s) == 0;
    assert s[0..] == s;
    assert TrailingSpace(s) == 0;
  }

  /** `int(str(n)) == n`. */
  lemma ParseIntOfIntToString(n: int)
    ensures ParseInt(IntToString(n)) == Some(n)
  {
    if n < 0 {
      ParseIntOfNegative(n);
    } else {
      ParseIntOfNat(n);
    }
  }

  /** The digits of a natural number parse back to it. */
  lemma ParseIntOfNat(n: nat)
    ensures ParseInt(IntToString(n)) == Some(n)
  {
    var d := NatToString(n);
    assert IntToString(n) == d;
    assert '0' <= d[0] <= '9' && '0' <= d[|d| - 1] <= '9';
    StripUnspaced(d);
    ParseDigitsOfNatToString(n);
    assert d[0] != '+' && d[0] != '-';
    assert Canonical(d);
    assert ParseSigned(d) == ParseDigits(d);
  }

  /** A negative number prints as a minus sign and its digits, which parse back to it. */
  lemma ParseIntOfNegative(n: int)
    requires n < 0
    ensures ParseInt(IntToString(n)) == Some(n)
  {
    var d := NatToString(-n);
    var s := "-" + d;
    assert IntToString(n) == s;
    assert s[|s| - 1] == d[|d| - 1];
    assert '0' <= d[|d| - 1] <= '9';
    StripUnspaced(s);
    assert s[1..] == d;
    ParseDigitsOfNatToString(-n);
    assert ParseDigits(s[1..]) == Some(-n);
    assert s[0] == '-';
    assert ParseSigned(s) == Some(n);
  }

  /** `s.endswith(p)` */
  predicate EndsWith(s: string, p: string) {
    |p| <= |s| && s[|s| - |p|..] == p
  }

  /** `a <= b` on Python strings: lexicographic by code point, a prefix coming first. */
  predicate LexLe(a: string, b: string)
    decreases |a|
  {
    |a| == 0 || (|b| > 0 && (a[0] < b[0] || (a[0] == b[0] && LexLe(a[1..], b[1..]))))
  }

  /** Any two strings are ordered one way or the other. */
  lemma {:induction false} LexTotal(a: string, b: string)
    ensures LexLe(a, b) || LexLe(b, a)
    decreases |a|
  {
    if |a| > 0 && |b| > 0 && a[0] == b[0] {
      LexTotal(a[1..], b[1..]);
    }
  }

  /** The string order is transitive. */
  lemma {:induction false} LexTrans(a: string, b: string, c: string)
    requires LexLe(a, b) && LexLe(b, c)
    ensures LexLe(a, c)
    decreases |a|
  {
    if |a| > 0 && a[0] == b[0] && b[0] == c[0] {
      LexTrans(a[1..], b[1..], c[1..]);
    }
  }
}
