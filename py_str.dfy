/**
 * The Python string builtins the core relies on: str.strip(), str.lower(),
 * `sub in s`, str.find(), str.split(sep, maxsplit), int(s) and str(n).
 * Strings are sequences of Unicode scalar values, as Python's are.
 */
module PyStr {
  import opened Wrappers

  /** The characters for which Python's str.isspace() holds. */
  predicate IsSpace(c: char) {
    || c == ' '
    || ('\t' <= c <= '\r')
    || ('\U{1C}' <= c <= '\U{1F}')
    || c == '\U{85}' || c == '\U{A0}' || c == '\U{1680}'
    || ('\U{2000}' <= c <= '\U{200A}')
    || c == '\U{2028}' || c == '\U{2029}' || c == '\U{202F}' || c == '\U{205F}' || c == '\U{3000}'
  }

  /** Number of whitespace characters at the front of s. */
  function LeadingSpaces(s: string): (n: nat)
    ensures n <= |s|
    ensures forall k :: 0 <= k < n ==> IsSpace(s[k])
    ensures n < |s| ==> !IsSpace(s[n])
  {
    if |s| > 0 && IsSpace(s[0]) then 1 + LeadingSpaces(s[1..]) else 0
  }

  /** Number of whitespace characters at the end of s. */
  function TrailingSpaces(s: string): (n: nat)
    ensures n <= |s|
    ensures forall k :: |s| - n <= k < |s| ==> IsSpace(s[k])
    ensures n < |s| ==> !IsSpace(s[|s| - 1 - n])
  {
    if |s| > 0 && IsSpace(s[|s| - 1]) then 1 + TrailingSpaces(s[..|s| - 1]) else 0
  }

  /** s.strip(): s without its leading and trailing whitespace. */
  function Strip(s: string): (r: string)
    ensures |r| <= |s|
    ensures r == [] || (!IsSpace(r[0]) && !IsSpace(r[|r| - 1]))
    ensures (forall k :: 0 <= k < |s| ==> IsSpace(s[k])) <==> r == []
  {
    var t := s[LeadingSpaces(s)..];
    t[..|t| - TrailingSpaces(t)]
  }

  /** A string that neither starts nor ends with whitespace is its own strip. */
  lemma StripUnchanged(s: string)
    requires s == [] || (!IsSpace(s[0]) && !IsSpace(s[|s| - 1]))
    ensures Strip(s) == s
  {
  }

  lemma StripIdempotent(s: string)
    ensures Strip(Strip(s)) == Strip(s)
  {
    StripUnchanged(Strip(s));
  }

  /** str.lower() restricted to the ASCII letters. */
  function LowerChar(c: char): char {
    if 'A' <= c <= 'Z' then (c as int + 32) as char else c
  }

  function Lower(s: string): (r: string)
    ensures |r| == |s|
  {
    seq(|s|, k requires 0 <= k < |s| => LowerChar(s[k]))
  }

  /** sub occurs in s starting at index k. */
  predicate OccursAt(s: string, sub: string, k: int) {
    0 <= k && k + |sub| <= |s| && s[k..k + |sub|] == sub
  }

  /** The first occurrence of sub in s at or after i. */
  function FindFrom(s: string, sub: string, i: nat): (r: Option<nat>)
    requires i <= |s|
    ensures r.Some? ==> i <= r.value && OccursAt(s, sub, r.value)
    ensures r.Some? ==> forall k :: i <= k < r.value ==> !OccursAt(s, sub, k)
    ensures r.None? ==> forall k :: i <= k ==> !OccursAt(s, sub, k)
    decreases |s| - i
  {
    if i + |sub| > |s| then None
    else if s[i..i + |sub|] == sub then Some(i)
    else FindFrom(s, sub, i + 1)
  }

  /** s.find(sub), with None for Python's -1. */
  function Find(s: string, sub: string): (r: Option<nat>)
    ensures r.Some? ==> OccursAt(s, sub, r.value) && forall k :: 0 <= k < r.value ==> !OccursAt(s, sub, k)
    ensures r.None? <==> forall k :: !OccursAt(s, sub, k)
  {
    FindFrom(s, sub, 0)
  }

  /** Python's `sub in s`. */
  predicate Contains(s: string, sub: string) {
    Find(s, sub).Some?
  }

  lemma ContainsIff(s: string, sub: string)
    ensures Contains(s, sub) <==> exists k :: OccursAt(s, sub, k)
  {
  }

  /** s.split(sep, 1)[1]: the text after the first sep, or None where Python raises IndexError. */
  function After(s: string, sep: string): (r: Option<string>)
    ensures r.None? <==> !Contains(s, sep)
    ensures r.Some? ==> exists k :: OccursAt(s, sep, k) && r.value == s[k + |sep|..]
  {
    match Find(s, sep)
    case None => None
    case Some(k) => Some(s[k + |sep|..])
  }

  /** The index of the first c in s, or |s| when there is none. */
  function IndexOf(s: string, c: char): (r: nat)
    ensures r <= |s| && c !in s[..r]
    ensures r < |s| ==> s[r] == c
  {
    if s == [] then 0
    else if s[0] == c then 0
    else
      assert s[..1 + IndexOf(s[1..], c)] == [s[0]] + s[1..][..IndexOf(s[1..], c)];
      1 + IndexOf(s[1..], c)
  }

  /** sep.join(parts) for a one-character separator. */
  function JoinWith(parts: seq<string>, sep: char): string
    requires |parts| >= 1
  {
    if |parts| == 1 then parts[0] else parts[0] + [sep] + JoinWith(parts[1..], sep)
  }

  /**
   * s.split(sep, n) for a one-character separator: at most n splits, taken
   * from the left.
   */
  function SplitN(s: string, sep: char, n: nat): (r: seq<string>)
    ensures 1 <= |r| <= n + 1
    decreases n
  {
    var i := IndexOf(s, sep);
    if n == 0 || i == |s| then [s]
    else [s[..i]] + SplitN(s[i + 1..], sep, n - 1)
  }

  /** Only the last piece may hold sep, and only when all n splits were made. */
  predicate SplitShaped(r: seq<string>, sep: char, n: nat) {
    && (forall k :: 0 <= k < |r| - 1 ==> sep !in r[k])
    && (|r| < n + 1 ==> |r| >= 1 && sep !in r[|r| - 1])
  }

  /** Joined with sep, the pieces of SplitN give back s. */
  lemma {:induction false} SplitNJoin(s: string, sep: char, n: nat)
    ensures JoinWith(SplitN(s, sep, n), sep) == s
    decreases n
  {
    var i := IndexOf(s, sep);
    if n > 0 && i < |s| {
      var rest := SplitN(s[i + 1..], sep, n - 1);
      assert SplitN(s, sep, n) == [s[..i]] + rest;
      SplitNJoin(s[i + 1..], sep, n - 1);
      JoinCons(s[..i], rest, sep);
      SplitAround(s, i);
    }
  }

  /** Joining a part in front of a non-empty list puts one separator between them. */
  lemma JoinCons(head: string, rest: seq<string>, sep: char)
    requires |rest| >= 1
    ensures JoinWith([head] + rest, sep) == head + [sep] + JoinWith(rest, sep)
  {
    assert ([head] + rest)[1..] == rest;
  }

  /** Cutting out the character at i and putting it back gives the string back. */
  lemma SplitAround(s: string, i: nat)
    requires i < |s|
    ensures s[..i] + [s[i]] + s[i + 1..] == s
  {
  }

  /** Only the last piece of SplitN may hold sep, and only when all n splits were made. */
  lemma {:induction false} SplitNShape(s: string, sep: char, n: nat)
    ensures SplitShaped(SplitN(s, sep, n), sep, n)
    decreases n
  {
    var r := SplitN(s, sep, n);
    var i := IndexOf(s, sep);
    if n == 0 {
    } else if i == |s| {
      assert s[..i] == s;
    } else {
      var rest := SplitN(s[i + 1..], sep, n - 1);
      SplitNShape(s[i + 1..], sep, n - 1);
      assert r == [s[..i]] + rest;
      assert SplitShaped(r, sep, n) by {
        forall k | 0 <= k < |r| - 1 ensures sep !in r[k] {
          if k > 0 {
            assert r[k] == rest[k - 1];
          }
        }
        assert r[|r| - 1] == rest[|rest| - 1];
      }
    }
  }

  /** The first separator of head + [sep] + tail is the one after head, when head has none. */
  lemma IndexOfAfterHead(head: string, sep: char, tail: string)
    requires sep !in head
    ensures IndexOf(head + [sep] + tail, sep) == |head|
  {
    var s := head + [sep] + tail;
    var i := IndexOf(s, sep);
    assert s[|head|] == sep;
  }

  /** Splitting is the inverse of joining pieces that obey SplitN's shape. */
  lemma {:induction false} SplitNOfJoin(parts: seq<string>, sep: char, n: nat)
    requires 1 <= |parts| <= n + 1
    requires SplitShaped(parts, sep, n)
    ensures SplitN(JoinWith(parts, sep), sep, n) == parts
    decreases n
  {
    if |parts| == 1 {
      SplitNOfPlain(parts[0], sep, n);
    } else {
      SplitShapedTail(parts, sep, n);
      SplitNOfJoin(parts[1..], sep, n - 1);
      SplitNOfJoinStep(parts, sep, n);
    }
  }

  /** The inductive step of SplitNOfJoin: a first piece without sep splits off in front of the rest. */
  lemma SplitNOfJoinStep(parts: seq<string>, sep: char, n: nat)
    requires 2 <= |parts| && 1 <= n && sep !in parts[0]
    requires SplitN(JoinWith(parts[1..], sep), sep, n - 1) == parts[1..]
    ensures SplitN(JoinWith(parts, sep), sep, n) == parts
  {
    var head, rest := parts[0], parts[1..];
    var tail := JoinWith(rest, sep);
    assert JoinWith(parts, sep) == head + [sep] + tail;
    SplitNOfSeparated(head, sep, tail, n);
    assert parts == [head] + rest;
  }

  /** A text without sep, or any text when no split is allowed, splits into itself alone. */
  lemma SplitNOfPlain(s: string, sep: char, n: nat)
    requires n == 0 || sep !in s
    ensures SplitN(s, sep, n) == [s]
  {
    if n > 0 {
      assert IndexOf(s, sep) == |s|;
    }
  }

  /** Dropping the first piece of a shaped split leaves a shaped split with one split fewer. */
  lemma SplitShapedTail(parts: seq<string>, sep: char, n: nat)
    requires 2 <= |parts| <= n + 1
    requires SplitShaped(parts, sep, n)
    ensures sep !in parts[0] && SplitShaped(parts[1..], sep, n - 1)
  {
    var rest := parts[1..];
    forall k | 0 <= k < |rest| - 1 ensures sep !in rest[k] {
      assert rest[k] == parts[k + 1];
    }
    assert rest[|rest| - 1] == parts[|parts| - 1];
  }

  lemma SplitNOfSeparated(head: string, sep: char, tail: string, n: nat)
    requires sep !in head && n >= 1
    ensures SplitN(head + [sep] + tail, sep, n) == [head] + SplitN(tail, sep, n - 1)
  {
    var s := head + [sep] + tail;
    IndexOfAfterHead(head, sep, tail);
    assert s[..|head|] == head;
    assert s[|head| + 1..] == tail;
  }

  predicate IsDigit(c: char) {
    '0' <= c <= '9'
  }

  predicate AllDigits(s: string) {
    forall k :: 0 <= k < |s| ==> IsDigit(s[k])
  }

  function DigitChar(d: nat): (c: char)
    requires d < 10
    ensures IsDigit(c)
  {
    (d + '0' as int) as char
  }

  function DigitValue(c: char): (d: nat)
    requires IsDigit(c)
    ensures d < 10 && DigitChar(d) == c
  {
    c as int - '0' as int
  }

  /** The decimal digits of n without leading zeros, as str(n) prints them. */
  function NatToDigits(n: nat): (s: string)
    ensures |s| >= 1 && AllDigits(s)
    decreases n
  {
    if n < 10 then [DigitChar(n)] else NatToDigits(n / 10) + [DigitChar(n % 10)]
  }

  /** The number a string of decimal digits denotes. */
  function DigitsValue(s: string): nat
    requires AllDigits(s)
  {
    if s == [] then 0 else 10 * DigitsValue(s[..|s| - 1]) + DigitValue(s[|s| - 1])
  }

  lemma {:induction false} DigitsValueOfNatToDigits(n: nat)
    ensures DigitsValue(NatToDigits(n)) == n
    decreases n
  {
    if n >= 10 {
      var s := NatToDigits(n);
      assert s[..|s| - 1] == NatToDigits(n / 10);
      DigitsValueOfNatToDigits(n / 10);
    }
  }

  /** Python's str(i) for an int. */
  function IntToString(i: int): (s: string)
    ensures |s| >= 1 && IsDigit(s[|s| - 1])
    ensures s[0] == '-' || IsDigit(s[0])
  {
    if i < 0 then "-" + NatToDigits(-i) else NatToDigits(i)
  }

  /**
   * The digit part of an int literal as int() accepts it: digits, with single
   * underscores allowed between two digits.
   */
  predicate IsDigitGroup(b: string) {
    && |b| >= 1 && IsDigit(b[0]) && IsDigit(b[|b| - 1])
    && (forall k :: 0 <= k < |b| ==> IsDigit(b[k]) || b[k] == '_')
    && (forall k :: 0 <= k < |b| - 1 ==> b[k] == '_' ==> b[k + 1] != '_')
  }

  /** b with its underscores dropped. */
  function DropUnderscores(b: string): (r: string)
    requires forall k :: 0 <= k < |b| ==> IsDigit(b[k]) || b[k] == '_'
    ensures AllDigits(r) && |r| <= |b|
  {
    if b == [] then []
    else if b[0] == '_' then DropUnderscores(b[1..])
    else [b[0]] + DropUnderscores(b[1..])
  }

  lemma {:induction false} DropUnderscoresOfDigits(s: string)
    requires AllDigits(s)
    ensures DropUnderscores(s) == s
  {
    if s != [] {
      DropUnderscoresOfDigits(s[1..]);
    }
  }

  /**
   * Python's int(s) for a str: optional surrounding whitespace, an optional
   * sign, then a digit group; None where Python raises ValueError.
   */
  function ParseInt(s: string): Option<int> {
    var t := Strip(s);
    if |t| == 0 then None
    else
      var body := if t[0] == '+' || t[0] == '-' then t[1..] else t;
      if !IsDigitGroup(body) then None
      else
        var v: int := DigitsValue(DropUnderscores(body));
        Some(if t[0] == '-' then -v else v)
  }

  /** int(str(i)) == i. */
  lemma ParseIntOfIntToString(i: int)
    ensures ParseInt(IntToString(i)) == Some(i)
  {
    var n: nat := if i < 0 then -i else i;
    var s := IntToString(i);
    var digits := NatToDigits(n);
    StripUnchanged(s);
    assert (if s[0] == '+' || s[0] == '-' then s[1..] else s) == digits;
    DigitsValueOfNatToDigits(n);
    ParseIntOfDigitRun(s, digits);
  }

  /** int() of a stripped text whose part after the optional sign is all digits. */
  lemma ParseIntOfDigitRun(s: string, digits: string)
    requires |s| >= 1 && Strip(s) == s && AllDigits(digits)
    requires digits == if s[0] == '+' || s[0] == '-' then s[1..] else s
    requires |digits| >= 1
    ensures ParseInt(s) == Some(if s[0] == '-' then -(DigitsValue(digits) as int) else DigitsValue(digits))
  {
    DigitsAreGroup(digits);
    DropUnderscoresOfDigits(digits);
    var v: int := DigitsValue(DropUnderscores(digits));
    assert ParseInt(s) == Some(if s[0] == '-' then -v else v);
  }

  /** A non-empty run of digits is a digit group. */
  lemma DigitsAreGroup(digits: string)
    requires |digits| >= 1 && AllDigits(digits)
    ensures IsDigitGroup(digits)
  {
  }



}
