/** Shared building blocks: optional values, results, and the small pieces of
    Python string and integer behaviour that the bot relies on (`str.strip`,
    `str.lower`, `str.isdigit`, `str(int)` and `int(str)`). */
module Common {

  datatype Option<+T> = None | Some(value: T)

  datatype Result<+T, +E> = Success(value: T) | Failure(error: E)

  /** Python's truthiness of an optional string: present and non-empty. */
  predicate Truthy(s: Option<string>) {
    s.Some? && s.value != ""
  }

  /** The characters Python's `str.isspace` accepts, which `str.strip()`
      removes from both ends. */
  predicate IsWhitespace(c: char) {
    if c <= ' ' then ('\t' <= c <= '\r') || ('\U{1c}' <= c)
    else if c < '\U{85}' then false
    else c == '\U{85}' || c == '\U{a0}' || c == '\U{1680}' || ('\U{2000}' <= c <= '\U{200a}')
         || c == '\U{2028}' || c == '\U{2029}' || c == '\U{202f}' || c == '\U{205f}' || c == '\U{3000}'
  }

  function TrimLeft(s: string): (r: string)
    ensures |r| <= |s| && r == s[|s| - |r|..]
    ensures r == [] || !IsWhitespace(r[0])
    ensures forall k :: 0 <= k < |s| - |r| ==> IsWhitespace(s[k])
  {
    if s != [] && IsWhitespace(s[0]) then TrimLeft(s[1..]) else s
  }

  function TrimRight(s: string): (r: string)
    ensures |r| <= |s| && r == s[..|r|]
    ensures r == [] || !IsWhitespace(r[|r| - 1])
    ensures forall k :: |r| <= k < |s| ==> IsWhitespace(s[k])
  {
    if s != [] && IsWhitespace(s[|s| - 1]) then TrimRight(s[..|s| - 1]) else s
  }

  /** A non-empty text with whitespace at neither end. */
  predicate IsStripped(s: string) {
    s != [] && !IsWhitespace(s[0]) && !IsWhitespace(s[|s| - 1])
  }

  /** `str.strip()`: the longest slice of `s` that neither starts nor ends
      with whitespace, everything cut away being whitespace. */
  function Trim(s: string): (r: string)
    ensures |r| <= |s|
    ensures r == [] || IsStripped(r)
  {
    TrimRight(TrimLeft(s))
  }

  /** What `Trim` cuts away is whitespace, on both sides of the slice it keeps. */
  lemma TrimIsSlice(s: string)
    ensures exists i, j :: 0 <= i <= j <= |s| && Trim(s) == s[i..j]
                           && (forall k :: 0 <= k < i ==> IsWhitespace(s[k]))
                           && (forall k :: j <= k < |s| ==> IsWhitespace(s[k]))
  {
    var l := TrimLeft(s);
    var r := TrimRight(l);
    assert r == s[|s| - |l|..|s| - |l| + |r|];
  }

  lemma TrimIdempotent(s: string)
    ensures Trim(Trim(s)) == Trim(s)
  {
    var t := Trim(s);
    assert TrimLeft(t) == t;
    assert TrimRight(t) == t;
  }

  /** Leading whitespace makes no difference to `lstrip`. */
  lemma {:induction false} TrimLeftSkipsBlank(blank: string, s: string)
    requires forall k :: 0 <= k < |blank| ==> IsWhitespace(blank[k])
    ensures TrimLeft(blank + s) == TrimLeft(s)
  {
    if blank == [] {
      assert blank + s == s;
    } else {
      assert (blank + s)[0] == blank[0];
      assert (blank + s)[1..] == blank[1..] + s;
      TrimLeftSkipsBlank(blank[1..], s);
    }
  }

  /** Trailing whitespace makes no difference to `rstrip`. */
  lemma {:induction false} TrimRightSkipsBlank(s: string, blank: string)
    requires forall k :: 0 <= k < |blank| ==> IsWhitespace(blank[k])
    ensures TrimRight(s + blank) == TrimRight(s)
  {
    if blank == [] {
      assert s + blank == s;
    } else {
      var t := s + blank;
      assert t[|t| - 1] == blank[|blank| - 1];
      assert t[..|t| - 1] == s + blank[..|blank| - 1];
      TrimRightSkipsBlank(s, blank[..|blank| - 1]);
    }
  }

  lemma TrimOfUntrimmed(s: string)
    requires s == [] || IsStripped(s)
    ensures Trim(s) == s
  {
  }

  predicate StartsWith(s: string, prefix: string) {
    |prefix| <= |s| && s[..|prefix|] == prefix
  }

  predicate IsDigit(c: char) {
    '0' <= c <= '9'
  }

  predicate AllDigits(s: string) {
    forall k :: 0 <= k < |s| ==> IsDigit(s[k])
  }

  /** Python's `str.isdigit()` restricted to ASCII digits: non-empty and
      every character a digit. */
  predicate IsDigitString(s: string) {
    s != [] && AllDigits(s)
  }

  function DigitChar(d: nat): (c: char)
    requires d < 10
    ensures IsDigit(c) && c as int - '0' as int == d
  {
    ('0' as int + d) as char
  }

  function DigitValue(c: char): (d: nat)
    requires IsDigit(c)
    ensures d < 10 && DigitChar(d) == c
  {
    c as int - '0' as int
  }

  /** The decimal value of a string of ASCII digits, as `int(s)` gives it. */
  function DigitsValue(s: string): nat
    requires AllDigits(s)
  {
    if s == [] then 0 else DigitsValue(s[..|s| - 1]) * 10 + DigitValue(s[|s| - 1])
  }

  /** `str(n)` for a non-negative integer: no leading zeros, no sign. */
  function NatToString(n: nat): (r: string)
    ensures IsDigitString(r)
    ensures |r| > 1 ==> r[0] != '0'
  {
    if n < 10 then [DigitChar(n)] else NatToString(n / 10) + [DigitChar(n % 10)]
  }

  /** `str(i)` for any integer: a '-' in front of the digits of a negative value. */
  function IntToString(i: int): (r: string)
    ensures r != []
    ensures i < 0 <==> r[0] == '-'
    ensures forall k :: 0 <= k < |r| ==> IsDigit(r[k]) || (k == 0 && r[k] == '-')
  {
    if i < 0 then "-" + NatToString(-i) else NatToString(i)
  }

  lemma {:induction false} DigitsOfNatToString(n: nat)
    ensures DigitsValue(NatToString(n)) == n
  {
    if n >= 10 {
      DigitsOfNatToString(n / 10);
      var s := NatToString(n);
      assert s[..|s| - 1] == NatToString(n / 10);
    }
  }

  lemma {:induction false} NatToStringInjective(m: nat, n: nat)
    requires NatToString(m) == NatToString(n)
    ensures m == n
  {
    DigitsOfNatToString(m);
    DigitsOfNatToString(n);
  }

  /** `int(s)` on a string with no surrounding whitespace: an optional sign
      followed by one or more ASCII digits; anything else is a `ValueError`,
      modelled as `None`. */
  function ParseInt(s: string): (r: Option<int>)
    ensures r.Some? <==> (IsDigitString(s) || (|s| > 1 && (s[0] == '-' || s[0] == '+') && AllDigits(s[1..])))
  {
    if s != [] && (s[0] == '-' || s[0] == '+') then
      if IsDigitString(s[1..]) then
        var magnitude: int := DigitsValue(s[1..]);
        Some(if s[0] == '-' then -magnitude else magnitude)
      else None
    else if IsDigitString(s) then Some(DigitsValue(s))
    else None
  }

  /** Reading back what `str(i)` wrote gives `i` again. */
  lemma ParseIntOfIntToString(i: int)
    ensures ParseInt(IntToString(i)) == Some(i)
  {
    if i < 0 {
      var s := IntToString(i);
      assert s[1..] == NatToString(-i);
      DigitsOfNatToString(-i);
    } else {
      DigitsOfNatToString(i);
    }
  }

  /** Python's `str.lower()` on the Latin and Cyrillic capitals this bot's
      command words use; every other character is left as it is. */
  function ToLowerChar(c: char): (r: char)
    ensures IsWhitespace(c) <==> IsWhitespace(r)
  {
    if 'A' <= c <= 'Z' then (c as int + 32) as char
    else if '\U{410}' <= c <= '\U{42f}' then (c as int + 0x20) as char
    else if '\U{400}' <= c <= '\U{40f}' then (c as int + 0x50) as char
    else c
  }

  function ToLower(s: string): (r: string)
    ensures |r| == |s| && forall k :: 0 <= k < |s| ==> r[k] == ToLowerChar(s[k])
  {
    if s == [] then [] else [ToLowerChar(s[0])] + ToLower(s[1..])
  }

  /** Lower-casing twice is lower-casing once. */
  lemma ToLowerIdempotent(s: string)
    ensures ToLower(ToLower(s)) == ToLower(s)
  {
    var once := ToLower(s);
    assert forall k :: 0 <= k < |s| ==> ToLowerChar(once[k]) == once[k];
  }

  /** Lower-casing keeps whitespace where it is, so it commutes with `strip`. */
  lemma {:induction false} TrimLeftToLower(s: string)
    ensures TrimLeft(ToLower(s)) == ToLower(TrimLeft(s))
  {
    if s != [] {
      assert ToLower(s)[1..] == ToLower(s[1..]);
      TrimLeftToLower(s[1..]);
    }
  }

  lemma {:induction false} TrimRightToLower(s: string)
    ensures TrimRight(ToLower(s)) == ToLower(TrimRight(s))
  {
    if s != [] {
      assert ToLower(s)[..|s| - 1] == ToLower(s[..|s| - 1]);
      TrimRightToLower(s[..|s| - 1]);
    }
  }

  lemma TrimToLower(s: string)
    ensures Trim(ToLower(s)) == ToLower(Trim(s))
  {
    TrimLeftToLower(s);
    TrimRightToLower(TrimLeft(s));
  }

  /** Python's `str.partition(sep)` for a one-character separator, returning
      the part after the first occurrence, or "" when there is none. */
  function AfterFirst(s: string, sep: char): (r: string)
    ensures sep !in s ==> r == []
    ensures sep in s ==> exists k :: 0 <= k < |s| && s[k] == sep && sep !in s[..k] && r == s[k + 1..]
  {
    if s == [] then []
    else if s[0] == sep then s[1..]
    else
      var r := AfterFirst(s[1..], sep);
      assert sep in s ==> sep in s[1..];
      assert forall k :: 0 <= k < |s| - 1 ==> s[1..][..k] == s[1..k + 1] && s[1..][k + 1..] == s[k + 2..];
      r
  }

  /** The parts joined with `sep` between neighbours. */
  function Join(parts: seq<string>, sep: char): (s: string)
    ensures |parts| == 1 ==> s == parts[0]
  {
    if parts == [] then ""
    else if |parts| == 1 then parts[0]
    else parts[0] + [sep] + Join(parts[1..], sep)
  }

  /** The position of the first `sep` in `s`. */
  function FirstIndex(s: string, sep: char): (k: nat)
    requires sep in s
    ensures k < |s| && s[k] == sep && sep !in s[..k]
  {
    if s[0] == sep then 0
    else
      var k := FirstIndex(s[1..], sep);
      assert s[..k + 1] == [s[0]] + s[1..][..k];
      k + 1
  }

  /** `str.split(sep)` for a one-character separator: the pieces between the separators, in order. */
  function Split(s: string, sep: char): (parts: seq<string>)
    decreases |s|
    ensures |parts| >= 1
  {
    if sep !in s then [s]
    else
      var k := FirstIndex(s, sep);
      [s[..k]] + Split(s[k + 1..], sep)
  }

  /** The first separator of `head + [sep] + tail` is the one after `head`. */
  lemma {:induction false} FirstIndexAfter(head: string, sep: char, tail: string)
    requires sep !in head
    ensures FirstIndex(head + [sep] + tail, sep) == |head|
  {
    if head != [] {
      var s := head + [sep] + tail;
      assert s[0] == head[0];
      assert s[1..] == head[1..] + [sep] + tail;
      FirstIndexAfter(head[1..], sep, tail);
    }
  }

  /** Splitting a joined text gives back its parts when none holds the
      separator. */
  lemma {:induction false} SplitJoin(parts: seq<string>, sep: char)
    requires |parts| >= 1
    requires forall i :: 0 <= i < |parts| ==> sep !in parts[i]
    ensures Split(Join(parts, sep), sep) == parts
  {
    if |parts| > 1 {
      var head := parts[0];
      var tail := Join(parts[1..], sep);
      var s := head + [sep] + tail;
      assert Join(parts, sep) == s;
      assert s[|head|] == sep;
      FirstIndexAfter(head, sep, tail);
      assert s[..|head|] == head;
      assert s[|head| + 1..] == tail;
      assert Split(s, sep) == [head] + Split(tail, sep);
      SplitJoin(parts[1..], sep);
      assert parts == [head] + parts[1..];
    }
  }

  /** Every piece of a split is made of characters of the text other than
      the separator. */
  lemma {:induction false} SplitPartsOf(s: string, sep: char)
    decreases |s|
    ensures forall i, k :: 0 <= i < |Split(s, sep)| && 0 <= k < |Split(s, sep)[i]| ==>
      Split(s, sep)[i][k] in s && Split(s, sep)[i][k] != sep
  {
    if sep in s {
      var k := FirstIndex(s, sep);
      SplitPartsOf(s[k + 1..], sep);
      var parts := Split(s, sep);
      assert parts == [s[..k]] + Split(s[k + 1..], sep);
      forall i, j | 0 <= i < |parts| && 0 <= j < |parts[i]|
        ensures parts[i][j] in s && parts[i][j] != sep
      {
        if i == 0 {
          assert parts[i][j] == s[j];
        } else {
          assert parts[i] == Split(s[k + 1..], sep)[i - 1];
          var c := parts[i][j];
          assert c in s[k + 1..];
        }
      }
    }
  }
}
