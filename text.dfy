/**
 * The few Python string builtins the tracker relies on, written out:
 * str.strip(), int() on a string, str() of an int and str.join().
 */
module Text {
  import opened Wrappers

  /** Python's str.isspace() for a single character. */
  predicate IsSpace(c: char) {
    || c == ' '
    || '\t' <= c <= '\r'
    || '\U{1c}' <= c <= '\U{1f}'
    || c == '\U{85}' || c == '\U{a0}' || c == '\U{1680}'
    || '\U{2000}' <= c <= '\U{200a}'
    || c == '\U{2028}' || c == '\U{2029}' || c == '\U{202f}' || c == '\U{205f}' || c == '\U{3000}'
  }

  /** s with its leading whitespace removed. */
  function TrimStart(s: string): (r: string)
    ensures |r| <= |s| && r == s[|s| - |r|..]
    ensures forall i :: 0 <= i < |s| - |r| ==> IsSpace(s[i])
    ensures r == [] || !IsSpace(r[0])
  {
    if |s| > 0 && IsSpace(s[0]) then TrimStart(s[1..]) else s
  }

  /** s with its trailing whitespace removed. */
  function TrimEnd(s: string): (r: string)
    ensures |r| <= |s| && r == s[..|r|]
    ensures forall i :: |r| <= i < |s| ==> IsSpace(s[i])
    ensures r == [] || !IsSpace(r[|r| - 1])
  {
    if |s| > 0 && IsSpace(s[|s| - 1]) then TrimEnd(s[..|s| - 1]) else s
  }

  /** Python's str.strip() with no argument. */
  function Strip(s: string): (r: string)
    ensures r == [] || (!IsSpace(r[0]) && !IsSpace(r[|r| - 1]))
  {
    TrimEnd(TrimStart(s))
  }

  /** Strip removes whitespace from both ends of s and nothing else. */
  lemma StripIsSlice(s: string)
    ensures exists i, j ::
      && 0 <= i <= j <= |s| && Strip(s) == s[i..j]
      && (forall k :: 0 <= k < i ==> IsSpace(s[k]))
      && (forall k :: j <= k < |s| ==> IsSpace(s[k]))
  {
    var t := TrimStart(s);
    var r := TrimEnd(t);
    var i := |s| - |t|;
    assert r == s[i..i + |r|];
  }

  /** A string with no whitespace at either end is left alone by Strip. */
  lemma StripTrimmed(s: string)
    requires s == [] || (!IsSpace(s[0]) && !IsSpace(s[|s| - 1]))
    ensures Strip(s) == s
  {
  }

  /** Stripping twice is stripping once. */
  lemma StripIdempotent(s: string)
    ensures Strip(Strip(s)) == Strip(s)
  {
    StripTrimmed(Strip(s));
  }

  predicate IsDigit(c: char) { '0' <= c <= '9' }

  function DigitValue(c: char): (d: nat)
    requires IsDigit(c)
    ensures d < 10
  {
    (c as int) - ('0' as int)
  }

  function DigitChar(d: nat): (c: char)
    requires d < 10
    ensures IsDigit(c) && DigitValue(c) == d
  {
    (('0' as int) + d) as char
  }

  /**
   * The digit part Python's int() accepts: ASCII digits, where a single
   * underscore may stand between two digits ("1_000").
   */
  predicate IsDigitGroup(s: string) {
    && |s| > 0
    && (forall i :: 0 <= i < |s| ==> IsDigit(s[i]) || s[i] == '_')
    && (forall i :: 0 <= i < |s| && s[i] == '_' ==> 0 < i < |s| - 1 && IsDigit(s[i - 1]) && IsDigit(s[i + 1]))
  }

  /** The decimal value of the digits of s, underscores ignored. */
  function DigitsValue(s: string): nat
    requires forall i :: 0 <= i < |s| ==> IsDigit(s[i]) || s[i] == '_'
  {
    if s == [] then 0
    else if s[|s| - 1] == '_' then DigitsValue(s[..|s| - 1])
    else DigitsValue(s[..|s| - 1]) * 10 + DigitValue(s[|s| - 1])
  }

  /**
   * The whitespace int() skips around a number: str.isspace() except the
   * information separators U+001C..U+001F, which int() rejects.
   */
  predicate IsNumberSpace(c: char) {
    IsSpace(c) && !('\U{1c}' <= c <= '\U{1f}')
  }

  /** s with the leading whitespace int() skips removed. */
  function TrimNumberStart(s: string): string {
    if |s| > 0 && IsNumberSpace(s[0]) then TrimNumberStart(s[1..]) else s
  }

  /** s with the trailing whitespace int() skips removed. */
  function TrimNumberEnd(s: string): string {
    if |s| > 0 && IsNumberSpace(s[|s| - 1]) then TrimNumberEnd(s[..|s| - 1]) else s
  }

  /** s without the whitespace int() skips at either end. */
  function StripNumber(s: string): string {
    TrimNumberEnd(TrimNumberStart(s))
  }

  /** TrimNumberStart drops a run of skipped whitespace from the front of s and nothing else. */
  lemma {:induction false} TrimNumberStartIsSuffix(s: string)
    ensures var r := TrimNumberStart(s);
      && |r| <= |s| && r == s[|s| - |r|..]
      && (forall i :: 0 <= i < |s| - |r| ==> IsNumberSpace(s[i]))
      && (r == [] || !IsNumberSpace(r[0]))
  {
    if |s| > 0 && IsNumberSpace(s[0]) {
      TrimNumberStartIsSuffix(s[1..]);
      assert forall i :: 0 < i < |s| ==> s[i] == s[1..][i - 1];
    }
  }

  /** TrimNumberEnd drops a run of skipped whitespace from the back of s and nothing else. */
  lemma {:induction false} TrimNumberEndIsPrefix(s: string)
    ensures var r := TrimNumberEnd(s);
      && |r| <= |s| && r == s[..|r|]
      && (forall i :: |r| <= i < |s| ==> IsNumberSpace(s[i]))
      && (r == [] || !IsNumberSpace(r[|r| - 1]))
  {
    if |s| > 0 && IsNumberSpace(s[|s| - 1]) {
      TrimNumberEndIsPrefix(s[..|s| - 1]);
      assert forall i :: 0 <= i < |s| - 1 ==> s[i] == s[..|s| - 1][i];
    }
  }

  /**
   * Python's int(s) for a string s: the whitespace of IsNumberSpace is
   * ignored at both ends, and an optional sign is followed by a digit
   * group; anything else is a ValueError, here None.
   */
  function ParseInt(s: string): Option<int> {
    ParseLiteral(StripNumber(s))
  }

  /** int() accepts no information separator anywhere in its argument. */
  lemma SeparatorRejected(s: string, k: nat)
    requires k < |s| && '\U{1c}' <= s[k] <= '\U{1f}'
    ensures ParseInt(s) == None
  {
    var j := StripNumberKeeps(s, k);
    LiteralRejects(StripNumber(s), j);
  }

  /** A character int() does not skip survives StripNumber, at some index j. */
  lemma StripNumberKeeps(s: string, k: nat) returns (j: nat)
    requires k < |s| && !IsNumberSpace(s[k])
    ensures j < |StripNumber(s)| && StripNumber(s)[j] == s[k]
  {
    var u := TrimNumberStart(s);
    var t := TrimNumberEnd(u);
    TrimNumberStartIsSuffix(s);
    TrimNumberEndIsPrefix(u);
    var i := |s| - |u|;
    assert i <= k && s[k] == u[k - i];
    j := k - i;
    assert t[j] == u[j];
  }

  /** A character that is no digit, underscore or leading sign makes a literal invalid. */
  lemma LiteralRejects(t: string, j: nat)
    requires j < |t| && !IsDigit(t[j]) && t[j] != '_' && t[j] != '-' && t[j] != '+'
    ensures ParseLiteral(t) == None
  {
    var signed := t[0] == '-' || t[0] == '+';
    var body := if signed then t[1..] else t;
    var at := if signed then j - 1 else j;
    assert 0 <= at < |body| && body[at] == t[j];
  }

  /** On text str.strip() has already trimmed, int() skips nothing more. */
  lemma StrippedNumber(s: string)
    ensures StripNumber(Strip(s)) == Strip(s)
  {
  }

  /** int() on a string that has no surrounding whitespace. */
  function ParseLiteral(t: string): Option<int> {
    var negative := |t| > 0 && t[0] == '-';
    var body := if |t| > 0 && (t[0] == '-' || t[0] == '+') then t[1..] else t;
    if IsDigitGroup(body) then
      var v: int := DigitsValue(body);
      Some(if negative then -v else v)
    else None
  }

  /** Decimal digits of n, most significant first, without leading zeros. */
  function NatToString(n: nat): (s: string)
    ensures |s| > 0 && IsDigit(s[0]) && IsDigit(s[|s| - 1])
    ensures forall i :: 0 <= i < |s| ==> IsDigit(s[i])
  {
    if n < 10 then [DigitChar(n)] else NatToString(n / 10) + [DigitChar(n % 10)]
  }

  /** Python's str(n) for an int. */
  function IntToString(n: int): string {
    if n < 0 then "-" + NatToString(-n) else NatToString(n)
  }

  lemma {:induction false} NatToStringValue(n: nat)
    ensures DigitsValue(NatToString(n)) == n
  {
    var s := NatToString(n);
    if n >= 10 {
      NatToStringValue(n / 10);
      assert s[..|s| - 1] == NatToString(n / 10);
    }
  }

  /** int(str(n)) == n: the decimal rendering of an int parses back to it. */
  lemma IntToStringRoundTrip(n: int)
    ensures ParseInt(IntToString(n)) == Some(n)
  {
    var s := IntToString(n);
    assert !IsNumberSpace(s[0]) && !IsNumberSpace(s[|s| - 1]);
    assert StripNumber(s) == s;
    LiteralRoundTrip(n);
  }

  lemma LiteralRoundTrip(n: int)
    ensures ParseLiteral(IntToString(n)) == Some(n)
  {
    var s := IntToString(n);
    var m: nat := if n < 0 then -n else n;
    var digits := NatToString(m);
    NatToStringValue(m);
    DigitsAreGroup(digits);
    if n < 0 {
      assert s[1..] == digits;
    } else {
      assert s[0] != '-' && s[0] != '+';
    }
  }

  /** All-digit text is a digit group. */
  lemma DigitsAreGroup(s: string)
    requires |s| > 0 && forall i :: 0 <= i < |s| ==> IsDigit(s[i])
    ensures IsDigitGroup(s)
  {
  }

  /** Python's sep.join(names). */
  function Join(names: seq<string>, sep: string): string {
    if |names| == 0 then ""
    else if |names| == 1 then names[0]
    else names[0] + sep + Join(names[1..], sep)
  }

  /** Where names[i] starts inside Join(names, sep). */
  function JoinOffset(names: seq<string>, sep: string, i: nat): nat
    requires i <= |names|
  {
    if i == 0 then 0 else |names[0]| + |sep| + JoinOffset(names[1..], sep, i - 1)
  }

  /** Consecutive offsets are one name and one separator apart. */
  lemma {:induction false} JoinOffsetStep(names: seq<string>, sep: string, i: nat)
    requires i + 1 < |names|
    ensures JoinOffset(names, sep, i + 1) == JoinOffset(names, sep, i) + |names[i]| + |sep|
  {
    if i > 0 {
      JoinOffsetStep(names[1..], sep, i - 1);
    }
  }

  /** A slice past a prefix is a slice of what follows the prefix. */
  lemma SliceAfter(front: string, back: string, lo: nat, hi: nat)
    requires lo <= hi <= |back|
    ensures (front + back)[|front| + lo..|front| + hi] == back[lo..hi]
  {
  }

  /** Join(names, sep) holds names[i] at its offset: all names appear, in list order. */
  lemma {:induction false} JoinAt(names: seq<string>, sep: string, i: nat)
    requires i < |names|
    ensures JoinOffset(names, sep, i) + |names[i]| <= |Join(names, sep)|
    ensures Join(names, sep)[JoinOffset(names, sep, i)..JoinOffset(names, sep, i) + |names[i]|] == names[i]
  {
    if |names| > 1 {
      var rest := Join(names[1..], sep);
      var front := names[0] + sep;
      assert Join(names, sep) == front + rest;
      if i > 0 {
        JoinAt(names[1..], sep, i - 1);
        var lo := JoinOffset(names[1..], sep, i - 1);
        assert names[1..][i - 1] == names[i];
        assert JoinOffset(names, sep, i) == |front| + lo;
        SliceAfter(front, rest, lo, lo + |names[i]|);
      } else {
        assert (front + rest)[..|names[0]|] == names[0];
      }
    }
  }

  /** Between names[i] and names[i + 1], Join(names, sep) holds sep and nothing else. */
  lemma {:induction false} JoinSeparatorAt(names: seq<string>, sep: string, i: nat)
    requires i + 1 < |names|
    ensures JoinOffset(names, sep, i + 1) == JoinOffset(names, sep, i) + |names[i]| + |sep|
    ensures JoinOffset(names, sep, i + 1) <= |Join(names, sep)|
    ensures Join(names, sep)[JoinOffset(names, sep, i) + |names[i]|..JoinOffset(names, sep, i + 1)] == sep
  {
    JoinOffsetStep(names, sep, i);
    JoinAt(names, sep, i + 1);
    var rest := Join(names[1..], sep);
    var front := names[0] + sep;
    assert Join(names, sep) == front + rest;
    if i == 0 {
      assert (front + rest)[|names[0]|..|front|] == sep;
    } else {
      JoinSeparatorAt(names[1..], sep, i - 1);
      var lo := JoinOffset(names[1..], sep, i - 1) + |names[i]|;
      SliceAfter(front, rest, lo, lo + |sep|);
    }
  }

  /** Join(names, sep) ends right after its last name: nothing follows it. */
  lemma {:induction false} JoinEnds(names: seq<string>, sep: string)
    requires |names| > 0
    ensures |Join(names, sep)| == JoinOffset(names, sep, |names| - 1) + |names[|names| - 1]|
  {
    if |names| > 1 {
      JoinEnds(names[1..], sep);
      assert names[1..][|names| - 2] == names[|names| - 1];
    }
  }
}
