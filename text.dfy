/** String primitives of the JavaScript runtime that the modelled code relies
    on: `trim`, `startsWith`, `includes`, `split` on one character,
    `parseInt(_, 10)` of a digit run and the decimal rendering of a
    non-negative integer in a template literal. */
module Text {

  /** The code points `String.prototype.trim` removes: ECMAScript WhiteSpace
      and LineTerminator. */
  predicate IsSpace(c: char) {
    || c == ' ' || c == '\t' || c == '\n' || c == '\r'
    || c == '\U{000B}' || c == '\U{000C}' || c == '\U{00A0}' || c == '\U{1680}'
    || ('\U{2000}' <= c <= '\U{200A}')
    || c == '\U{2028}' || c == '\U{2029}' || c == '\U{202F}' || c == '\U{205F}'
    || c == '\U{3000}' || c == '\U{FEFF}'
  }

  function TrimStart(s: string): (r: string)
    ensures |r| <= |s| && r == s[|s| - |r|..]
    ensures r == [] || !IsSpace(r[0])
    ensures forall k :: 0 <= k < |s| - |r| ==> IsSpace(s[k])
  {
    if s != [] && IsSpace(s[0]) then TrimStart(s[1..]) else s
  }

  function TrimEnd(s: string): (r: string)
    ensures |r| <= |s| && r == s[..|r|]
    ensures r == [] || !IsSpace(r[|r| - 1])
    ensures forall k :: |r| <= k < |s| ==> IsSpace(s[k])
  {
    if s != [] && IsSpace(s[|s| - 1]) then TrimEnd(s[..|s| - 1]) else s
  }

  /** `r` is `s[i..]` cut short, with only whitespace dropped before and
      after it. */
  predicate InfixWithinSpace(s: string, i: nat, r: string)
  {
    && i + |r| <= |s| && r == s[i..i + |r|]
    && (forall k :: 0 <= k < i ==> IsSpace(s[k]))
    && (forall k :: i + |r| <= k < |s| ==> IsSpace(s[k]))
  }

  /** `s.trim()`: the longest infix of `s` that neither starts nor ends with
      whitespace, obtained by dropping whitespace only. */
  function Trim(s: string): (r: string)
    ensures |r| <= |s|
    ensures r == [] || (!IsSpace(r[0]) && !IsSpace(r[|r| - 1]))
  {
    var t := TrimStart(s);
    var r := TrimEnd(t);
    assert r != [] ==> r[0] == t[0];
    r
  }

  /** Trimming drops whitespace only: the result is an infix of `s` with
      nothing but whitespace before and after it. */
  lemma TrimDropsOnlySpace(s: string)
    ensures exists i: nat :: InfixWithinSpace(s, i, Trim(s))
  {
    var t := TrimStart(s);
    assert Trim(s) == TrimEnd(t);
    TrimIsInfix(s, t, TrimEnd(t));
    assert InfixWithinSpace(s, |s| - |t|, Trim(s));
  }

  lemma TrimIsInfix(s: string, t: string, r: string)
    requires |t| <= |s| && t == s[|s| - |t|..] && forall k :: 0 <= k < |s| - |t| ==> IsSpace(s[k])
    requires |r| <= |t| && r == t[..|r|] && forall k :: |r| <= k < |t| ==> IsSpace(t[k])
    ensures InfixWithinSpace(s, |s| - |t|, r)
  {
    var i := |s| - |t|;
    forall k | i + |r| <= k < |s|
      ensures IsSpace(s[k])
    {
      assert s[k] == t[k - i];
    }
  }

  /** Trimming twice is trimming once: the codec may trim a line the stream
      loop has already trimmed without changing it. */
  lemma TrimIdempotent(s: string)
    ensures Trim(Trim(s)) == Trim(s)
  {
    var r := Trim(s);
    if r != [] {
      assert TrimStart(r) == r;
      assert TrimEnd(r) == r;
    }
  }

  /** `s.startsWith(p)`. */
  predicate StartsWith(s: string, p: string) {
    |p| <= |s| && s[..|p|] == p
  }

  /** `s.includes(sub)`. */
  predicate Contains(s: string, sub: string)
    decreases |s|
  {
    StartsWith(s, sub) || (s != [] && Contains(s[1..], sub))
  }

  /** `s.split(sep)` for a one-character separator: the pieces between
      separators, always at least one (`"".split(sep)` is `[""]`). */
  function Split(s: string, sep: char): (parts: seq<string>)
    ensures |parts| >= 1
    ensures forall k :: 0 <= k < |parts| ==> sep !in parts[k]
  {
    if s == [] then [[]]
    else
      var rest := Split(s[1..], sep);
      if s[0] == sep then [[]] + rest
      else [[s[0]] + rest[0]] + rest[1..]
  }

  /** `parts.join(sep)`. */
  function Join(parts: seq<string>, sep: char): string
    requires |parts| >= 1
  {
    if |parts| == 1 then parts[0] else parts[0] + [sep] + Join(parts[1..], sep)
  }

  /** Splitting loses nothing: joining the pieces back gives the text. */
  lemma {:induction false} JoinSplit(s: string, sep: char)
    ensures Join(Split(s, sep), sep) == s
  {
    if s != [] {
      JoinSplit(s[1..], sep);
      var rest := Split(s[1..], sep);
      if s[0] != sep && |rest| > 1 {
        assert [s[0]] + rest[0] + [sep] + Join(rest[1..], sep) == [s[0]] + Join(rest, sep);
      }
    }
  }

  /** `Split` read on a text that starts with a known character. */
  lemma SplitCons(c: char, t: string, sep: char)
    ensures var rest := Split(t, sep);
      Split([c] + t, sep) == if c == sep then [[]] + rest else [[c] + rest[0]] + rest[1..]
  {
    assert ([c] + t)[0] == c && ([c] + t)[1..] == t;
  }

  /** Splitting a concatenation: the complete pieces of `a` come first, and
      the unfinished last piece of `a` continues into `b`. */
  lemma {:induction false} SplitAppend(a: string, b: string, sep: char)
    ensures var pa := Split(a, sep);
      Split(a + b, sep) == pa[..|pa| - 1] + Split(pa[|pa| - 1] + b, sep)
  {
    if a == [] {
      assert a + b == b;
    } else {
      var c, a' := a[0], a[1..];
      assert a == [c] + a';
      SplitAppend(a', b, sep);
      SplitAppendCons(c, a', b, sep);
    }
  }

  /** The inductive step of `SplitAppend`, for a text `[c] + a'`. */
  lemma SplitAppendCons(c: char, a': string, b: string, sep: char)
    requires var pa' := Split(a', sep);
      Split(a' + b, sep) == pa'[..|pa'| - 1] + Split(pa'[|pa'| - 1] + b, sep)
    ensures var pa := Split([c] + a', sep);
      Split([c] + a' + b, sep) == pa[..|pa| - 1] + Split(pa[|pa| - 1] + b, sep)
  {
    assert [c] + a' + b == [c] + (a' + b);
    SplitCons(c, a', sep);
    SplitCons(c, a' + b, sep);
    var pa' := Split(a', sep);
    if c == sep {
      SepCase(c, a', b, sep);
    } else if |pa'| == 1 {
      SingleCase(c, a', b, sep);
    } else {
      MultiCase(c, a', b, sep);
    }
  }

  lemma SepCase(c: char, a': string, b: string, sep: char)
    requires c == sep
    requires var pa' := Split(a', sep);
      Split(a' + b, sep) == pa'[..|pa'| - 1] + Split(pa'[|pa'| - 1] + b, sep)
    requires Split([c] + a', sep) == [[]] + Split(a', sep)
    requires Split([c] + (a' + b), sep) == [[]] + Split(a' + b, sep)
    ensures var pa := Split([c] + a', sep);
      Split([c] + (a' + b), sep) == pa[..|pa| - 1] + Split(pa[|pa| - 1] + b, sep)
  {
    var pa' := Split(a', sep);
    var pa := Split([c] + a', sep);
    var empty: string := [];
    var last := pa'[|pa'| - 1];
    var tail := Split(last + b, sep);
    assert pa == [empty] + pa';
    assert pa[|pa| - 1] == last;
    assert pa[..|pa| - 1] == [empty] + pa'[..|pa'| - 1];
    assert [empty] + (pa'[..|pa'| - 1] + tail) == ([empty] + pa'[..|pa'| - 1]) + tail;
  }

  lemma SingleCase(c: char, a': string, b: string, sep: char)
    requires c != sep && |Split(a', sep)| == 1
    requires var pa' := Split(a', sep);
      Split(a' + b, sep) == pa'[..|pa'| - 1] + Split(pa'[|pa'| - 1] + b, sep)
    requires var rest := Split(a', sep); Split([c] + a', sep) == [[c] + rest[0]] + rest[1..]
    requires var rest := Split(a' + b, sep); Split([c] + (a' + b), sep) == [[c] + rest[0]] + rest[1..]
    ensures var pa := Split([c] + a', sep);
      Split([c] + (a' + b), sep) == pa[..|pa| - 1] + Split(pa[|pa| - 1] + b, sep)
  {
    var pa' := Split(a', sep);
    assert [c] + pa'[0] + b == [c] + (pa'[0] + b);
    SplitCons(c, pa'[0] + b, sep);
  }

  lemma MultiCase(c: char, a': string, b: string, sep: char)
    requires c != sep && |Split(a', sep)| > 1
    requires var pa' := Split(a', sep);
      Split(a' + b, sep) == pa'[..|pa'| - 1] + Split(pa'[|pa'| - 1] + b, sep)
    requires var rest := Split(a', sep); Split([c] + a', sep) == [[c] + rest[0]] + rest[1..]
    requires var rest := Split(a' + b, sep); Split([c] + (a' + b), sep) == [[c] + rest[0]] + rest[1..]
    ensures var pa := Split([c] + a', sep);
      Split([c] + (a' + b), sep) == pa[..|pa| - 1] + Split(pa[|pa| - 1] + b, sep)
  {
    var pa' := Split(a', sep);
    var pa := Split([c] + a', sep);
    assert pa[..|pa| - 1] == [[c] + pa'[0]] + pa'[1..|pa'| - 1];
    assert pa'[..|pa'| - 1] == [pa'[0]] + pa'[1..|pa'| - 1];
  }

  /** A text without a separator is one piece. */
  lemma {:induction false} SplitWithoutSep(s: string, sep: char)
    requires sep !in s
    ensures Split(s, sep) == [s]
  {
    if s != [] {
      assert sep !in s[1..];
      SplitWithoutSep(s[1..], sep);
      assert [s[0]] + s[1..] == s;
    }
  }

  /** Two separator-free texts joined by one separator split back into
      exactly those two. */
  lemma {:induction false} SplitPair(a: string, b: string, sep: char)
    requires sep !in a && sep !in b
    ensures Split(a + [sep] + b, sep) == [a, b]
  {
    SplitWithoutSep(b, sep);
    if a == [] {
      assert a + [sep] + b == [sep] + b;
      SplitCons(sep, b, sep);
    } else {
      assert sep !in a[1..];
      SplitPair(a[1..], b, sep);
      assert a + [sep] + b == [a[0]] + (a[1..] + [sep] + b);
      SplitCons(a[0], a[1..] + [sep] + b, sep);
      assert [a[0]] + a[1..] == a;
    }
  }

  predicate IsDigit(c: char) {
    '0' <= c <= '9'
  }

  predicate AllDigits(s: string) {
    forall k :: 0 <= k < |s| ==> IsDigit(s[k])
  }

  /** A numeral holds no other character. */
  lemma DigitsOnly(s: string, c: char)
    requires AllDigits(s) && !IsDigit(c)
    ensures c !in s
  {
    forall k | 0 <= k < |s| ensures s[k] != c {
      assert IsDigit(s[k]);
    }
  }

  function DigitValue(c: char): (d: nat)
    requires IsDigit(c)
    ensures d < 10
  {
    (c as int) - ('0' as int)
  }

  function DigitChar(d: nat): (c: char)
    requires d < 10
    ensures IsDigit(c) && DigitValue(c) == d
  {
    ('0' as int + d) as char
  }

  /** `parseInt(s, 10)` of a non-empty run of ASCII digits, read left to
      right (leading zeros are allowed and add nothing). */
  function ParseDecimal(s: string): nat
    requires AllDigits(s)
  {
    if s == [] then 0 else ParseDecimal(s[..|s| - 1]) * 10 + DigitValue(s[|s| - 1])
  }

  /** `${n}` for a non-negative integer: decimal digits, no leading zero. */
  function NatToDecimal(n: nat): (s: string)
    ensures |s| >= 1 && AllDigits(s)
    ensures |s| > 1 ==> s[0] != '0'
  {
    if n < 10 then [DigitChar(n)] else NatToDecimal(n / 10) + [DigitChar(n % 10)]
  }

  /** Rendering a count and parsing it back gives the count. */
  lemma {:induction false} ParseNatToDecimal(n: nat)
    ensures ParseDecimal(NatToDecimal(n)) == n
  {
    var s := NatToDecimal(n);
    if n < 10 {
      assert s[..|s| - 1] == [];
    } else {
      ParseNatToDecimal(n / 10);
      assert s[..|s| - 1] == NatToDecimal(n / 10);
    }
  }
}
