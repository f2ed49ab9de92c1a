/** The few Python string built-ins the core relies on: decimal formatting of integers
    (`"{}".format(n)`), `int(s)`, `s.split("--")`, `s.strip()` and `s.replace(old, new)`. */
module Text {
  import opened Wrappers

  predicate IsDigit(c: char) { '0' <= c <= '9' }

  predicate AllDigits(s: string) { forall i | 0 <= i < |s| :: IsDigit(s[i]) }

  function DigitChar(d: nat): (c: char)
    requires d < 10
    ensures IsDigit(c) && (c - '0') as nat == d
  {
    "0123456789"[d]
  }

  /** Decimal digits of a natural number, most significant first, without leading zeros. */
  function NatToString(n: nat): (s: string)
    ensures |s| >= 1 && AllDigits(s)
    decreases n
  {
    if n < 10 then [DigitChar(n)] else NatToString(n / 10) + [DigitChar(n % 10)]
  }

  /** `str(i)` for a Python int: an optional minus sign followed by the digits. */
  function IntToString(i: int): (s: string)
  {
    if i < 0 then "-" + NatToString(-i) else NatToString(i)
  }

  /** The value of a non-empty run of decimal digits. */
  function DigitsValue(s: string): nat
    requires AllDigits(s)
  {
    if s == [] then 0 else DigitsValue(s[..|s| - 1]) * 10 + (s[|s| - 1] - '0') as nat
  }

  /** `int(s)` on a decimal literal with an optional sign; `None` where Python raises ValueError. */
  function ParseInt(s: string): (r: Option<int>)
    ensures r.Some? ==> |s| >= 1
  {
    if |s| >= 2 && (s[0] == '-' || s[0] == '+') && AllDigits(s[1..]) then
      var v: int := DigitsValue(s[1..]);
      Some(if s[0] == '-' then -v else v)
    else if |s| >= 1 && AllDigits(s) then
      Some(DigitsValue(s))
    else
      None
  }

  lemma {:induction false} NatToStringRoundTrip(n: nat)
    ensures DigitsValue(NatToString(n)) == n
    decreases n
  {
    if n >= 10 {
      var init := NatToString(n / 10);
      var s := init + [DigitChar(n % 10)];
      assert s[..|s| - 1] == init;
      NatToStringRoundTrip(n / 10);
    }
  }

  /** Parsing a formatted integer gives it back: `int(str(i)) == i`. */
  lemma IntToStringRoundTrip(i: int)
    ensures ParseInt(IntToString(i)) == Some(i)
  {
    var s := IntToString(i);
    if i < 0 {
      var t := NatToString(-i);
      assert s == "-" + t && s[1..] == t;
      NatToStringRoundTrip(-i);
      assert |s| >= 2 && s[0] == '-' && AllDigits(s[1..]);
    } else {
      NatToStringRoundTrip(i);
      assert s[0] != '-' && s[0] != '+';
    }
  }

  /** No two adjacent '-' characters: `s` holds no occurrence of the separator "--". */
  predicate NoSeparator(s: string)
  {
    forall i | 0 <= i < |s| - 1 :: !(s[i] == '-' && s[i + 1] == '-')
  }

  /** A formatted integer is non-empty, ends in a digit and holds no "--". */
  lemma IntToStringShape(i: int)
    ensures |IntToString(i)| >= 1 && IsDigit(IntToString(i)[|IntToString(i)| - 1])
    ensures NoSeparator(IntToString(i))
    ensures IsDigit(IntToString(i)[0]) || IntToString(i)[0] == '-'
  {
    var s := IntToString(i);
    if i < 0 {
      assert s == "-" + NatToString(-i);
      assert forall k | 1 <= k < |s| :: IsDigit(s[k]);
    }
  }

  /** `s.split("--")`: the pieces between non-overlapping occurrences of "--", found left to right. */
  function SplitOnSeparator(s: string): (parts: seq<string>)
    ensures |parts| >= 1
    decreases |s|
  {
    if |s| < 2 then [s]
    else if s[0] == '-' && s[1] == '-' then [""] + SplitOnSeparator(s[2..])
    else
      var rest := SplitOnSeparator(s[1..]);
      [[s[0]] + rest[0]] + rest[1..]
  }

  lemma {:induction false} SplitWithoutSeparator(s: string)
    requires NoSeparator(s)
    ensures SplitOnSeparator(s) == [s]
    decreases |s|
  {
    if |s| >= 2 {
      SplitWithoutSeparator(s[1..]);
      assert [s[0]] + s[1..] == s;
    }
  }

  /** Splitting `a + "--" + b` cuts at the joint when `a` has no separator and does not end in '-'. */
  lemma {:induction false} SplitAtJoint(a: string, b: string)
    requires NoSeparator(a)
    requires a == [] || a[|a| - 1] != '-'
    ensures SplitOnSeparator(a + "--" + b) == [a] + SplitOnSeparator(b)
    decreases |a|
  {
    var s := a + "--" + b;
    if a == [] {
      assert s[2..] == b;
    } else {
      assert s[1..] == a[1..] + "--" + b;
      SplitAtJoint(a[1..], b);
      assert [s[0]] + a[1..] == a;
    }
  }

  /** Python's `str.isspace()`: the characters `strip()` removes. */
  predicate IsSpace(c: char)
  {
    c == ' ' || '\t' <= c <= '\r' || '\U{1C}' <= c <= '\U{1F}' || c == '\U{85}' || c == '\U{A0}'
    || c == '\U{1680}' || '\U{2000}' <= c <= '\U{200A}' || c == '\U{2028}' || c == '\U{2029}'
    || c == '\U{202F}' || c == '\U{205F}' || c == '\U{3000}'
  }

  /** `s.lstrip()`: a suffix of `s` that does not start with whitespace. */
  function TrimStart(s: string): (r: string)
    ensures |r| <= |s| && r == s[|s| - |r|..]
    ensures r == [] || !IsSpace(r[0])
    ensures forall k | 0 <= k < |s| - |r| :: IsSpace(s[k])
    ensures (s == [] || !IsSpace(s[0])) ==> r == s
  {
    if s != [] && IsSpace(s[0]) then TrimStart(s[1..]) else s
  }

  /** `s.rstrip()`: a prefix of `s` that does not end with whitespace. */
  function TrimEnd(s: string): (r: string)
    ensures |r| <= |s| && r == s[..|r|]
    ensures r == [] || !IsSpace(r[|r| - 1])
    ensures forall k | |r| <= k < |s| :: IsSpace(s[k])
    ensures (s == [] || !IsSpace(s[|s| - 1])) ==> r == s
  {
    if s != [] && IsSpace(s[|s| - 1]) then TrimEnd(s[..|s| - 1]) else s
  }

  /** `s.strip()`: `s` with its leading and trailing whitespace removed, and nothing else. */
  function Strip(s: string): (r: string)
    ensures |r| <= |s|
    ensures r == [] || (!IsSpace(r[0]) && !IsSpace(r[|r| - 1]))
    ensures forall c | c !in s :: c !in r
    ensures exists i, j | 0 <= i <= j <= |s| ::
      && r == s[i..j]
      && (forall k | 0 <= k < i :: IsSpace(s[k]))
      && (forall k | j <= k < |s| :: IsSpace(s[k]))
  {
    var t := TrimStart(s);
    var r := TrimEnd(t);
    SliceChars(s, |s| - |t|, |s|);
    SliceChars(t, 0, |r|);
    StripWindow(s, t, r);
    r
  }

  /** The window `Strip` keeps: after the leading whitespace `TrimStart` drops, up to the
      trailing whitespace `TrimEnd` drops. */
  lemma StripWindow(s: string, t: string, r: string)
    requires |t| <= |s| && t == s[|s| - |t|..] && forall k | 0 <= k < |s| - |t| :: IsSpace(s[k])
    requires |r| <= |t| && r == t[..|r|] && forall k | |r| <= k < |t| :: IsSpace(t[k])
    ensures var i := |s| - |t|;
      r == s[i..i + |r|]
      && (forall k | 0 <= k < i :: IsSpace(s[k])) && (forall k | i + |r| <= k < |s| :: IsSpace(s[k]))
  {
    var i := |s| - |t|;
    forall k | i + |r| <= k < |s| ensures IsSpace(s[k]) {
      assert s[k] == t[k - i];
    }
  }

  /** A slice holds only characters of the whole. */
  lemma SliceChars(s: string, i: nat, j: nat)
    requires i <= j <= |s|
    ensures forall c | c in s[i..j] :: c in s
  {
    forall c | c in s[i..j] ensures c in s {
      var k :| 0 <= k < j - i && s[i..j][k] == c;
      assert s[i + k] == c;
    }
  }

  /** `s.replace("\n", rep)`. */
  function ReplaceNewlines(s: string, rep: string): (r: string)
  {
    if s == [] then []
    else (if s[0] == '\n' then rep else [s[0]]) + ReplaceNewlines(s[1..], rep)
  }

  /** The number of newlines in `s`. */
  function NewlineCount(s: string): nat
  {
    if s == [] then 0 else (if s[0] == '\n' then 1 else 0) + NewlineCount(s[1..])
  }

  /** Replacing each newline by a newline-free `rep` leaves no newline and grows the text by
      `|rep| - 1` per newline. */
  lemma {:induction false} ReplaceNewlinesShape(s: string, rep: string)
    requires '\n' !in rep
    ensures '\n' !in ReplaceNewlines(s, rep)
    ensures |ReplaceNewlines(s, rep)| == |s| + NewlineCount(s) * (|rep| - 1)
  {
    if s != [] {
      ReplaceNewlinesShape(s[1..], rep);
    }
  }

  /** Text without newlines is left as it is. */
  lemma {:induction false} ReplaceNewlinesIdentity(s: string, rep: string)
    requires '\n' !in s
    ensures ReplaceNewlines(s, rep) == s
  {
    if s != [] {
      ReplaceNewlinesIdentity(s[1..], rep);
      assert [s[0]] + s[1..] == s;
    }
  }

  /** `s.startswith(p)`. */
  predicate StartsWith(s: string, p: string)
  {
    |p| <= |s| && s[..|p|] == p
  }
}
