/**
 * The string operations of the .NET base library that the client relies on:
 * white-space tests, invariant lower-casing, character replacement, decimal
 * rendering of integers, and the `key=value&...` query strings the request
 * factory writes, each with the inverse that shows nothing is lost.
 */
module Text {
  import opened Common
  import opened Hex

  /** `char.IsWhiteSpace`: the Unicode white-space characters (category Zs, Zl, Zp, plus the controls it names). */
  predicate IsWhiteSpace(c: char)
  {
    c == ' ' || '\t' <= c <= '\r' || c == '\U{85}' || c == '\U{A0}' || c == '\U{1680}'
    || '\U{2000}' <= c <= '\U{200A}' || c == '\U{2028}' || c == '\U{2029}'
    || c == '\U{202F}' || c == '\U{205F}' || c == '\U{3000}'
  }

  /** `string.IsNullOrWhiteSpace`: null, empty, or white space only. */
  predicate IsNullOrWhiteSpace(s: Option<string>)
  {
    s.None? || forall i | 0 <= i < |s.value| :: IsWhiteSpace(s.value[i])
  }

  /** A hexadecimal digit is never white space, so a digest string is blank only when it is empty. */
  lemma HexIsBlankOnlyWhenEmpty(s: string)
    requires IsUpperHex(s) || IsLowerHex(s)
    ensures IsNullOrWhiteSpace(Some(s)) <==> s == []
  {
    if s != [] {
      assert !IsWhiteSpace(s[0]);
    }
  }

  function LowerChar(c: char): char
  {
    if 'A' <= c <= 'Z' then (c as int - 'A' as int + 'a' as int) as char else c
  }

  /** `ToLowerInvariant` on the ASCII letters; every other character is kept. */
  function ToLowerInvariant(s: string): (r: string)
    ensures |r| == |s|
    ensures forall i | 0 <= i < |s| :: r[i] == LowerChar(s[i])
  {
    seq(|s|, i requires 0 <= i < |s| => LowerChar(s[i]))
  }

  /** Lower-casing twice is lower-casing once. */
  lemma LowerIdempotent(s: string)
    ensures ToLowerInvariant(ToLowerInvariant(s)) == ToLowerInvariant(s)
  {
  }

  lemma LowerDigit(n: nat)
    requires n < 16
    ensures IsLowerHexDigit(LowerChar(Digit(n)))
    ensures DigitValue(LowerChar(Digit(n))) == Some(n)
  {
  }

  /** Lower-casing an upper-case hex string gives a lower-case hex string that decodes to the same octets. */
  lemma LowerHexRoundTrip(bs: seq<byte>)
    ensures IsLowerHex(ToLowerInvariant(ToHexString(bs)))
    ensures FromHexString(ToLowerInvariant(ToHexString(bs))) == Some(bs)
  {
    ToHexStringShape(bs);
    LowerHexDecodes(bs);
  }

  lemma {:induction false} LowerHexDecodes(bs: seq<byte>)
    ensures FromHexString(ToLowerInvariant(ToHexString(bs))) == Some(bs)
  {
    if bs != [] {
      LowerHexDecodes(bs[1..]);
      var b := bs[0] as nat;
      var hi, lo := Digit(b / 16), Digit(b % 16);
      var t := ToHexString(bs[1..]);
      assert ToHexString(bs) == [hi, lo] + t;
      var s := ToLowerInvariant([hi, lo] + t);
      LowerDigit(b / 16);
      LowerDigit(b % 16);
      assert s[2..] == ToLowerInvariant(t);
      NibbleSplit(bs[0]);
      assert [bs[0]] + bs[1..] == bs;
    }
  }

  /** `String.Replace` with one-character strings: every `from` becomes `to`, nothing else changes. */
  function Replace(s: string, from: char, to: char): (r: string)
    requires from != to
    ensures |r| == |s|
    ensures from !in r
    ensures forall i | 0 <= i < |s| :: r[i] == (if s[i] == from then to else s[i])
  {
    seq(|s|, i requires 0 <= i < |s| => if s[i] == from then to else s[i])
  }

  /** A string without the replaced character comes back unchanged. */
  lemma ReplaceAbsent(s: string, from: char, to: char)
    requires from != to && from !in s
    ensures Replace(s, from, to) == s
  {
  }

  // Decimal rendering, as `ToString()` of an integer, and its parser.

  predicate IsDecimalDigit(c: char) { '0' <= c <= '9' }

  function DecimalDigit(n: nat): (c: char)
    requires n < 10
    ensures IsDecimalDigit(c)
  {
    ('0' as int + n) as char
  }

  function NatToString(n: nat): (s: string)
    ensures |s| > 0
    ensures forall i | 0 <= i < |s| :: IsDecimalDigit(s[i])
  {
    if n < 10 then [DecimalDigit(n)] else NatToString(n / 10) + [DecimalDigit(n % 10)]
  }

  function IntToString(n: int): (s: string)
    ensures |s| > 0
    ensures forall i | 0 <= i < |s| :: IsDecimalDigit(s[i]) || s[i] == '-'
  {
    if n < 0 then "-" + NatToString(-n) else NatToString(n)
  }

  /** Digits only, most significant first; none for anything else. */
  function ParseNat(s: string): Option<nat>
    decreases |s|
  {
    if s == [] || !IsDecimalDigit(s[|s| - 1]) then None
    else
      var d := s[|s| - 1] as nat - '0' as nat;
      if |s| == 1 then Some(d)
      else match ParseNat(s[..|s| - 1])
        case None => None
        case Some(m) => Some(m * 10 + d)
  }

  function ParseInt(s: string): Option<int>
  {
    if |s| > 0 && s[0] == '-' then
      match ParseNat(s[1..]) case None => None case Some(m) => Some(-(m as int))
    else
      match ParseNat(s) case None => None case Some(m) => Some(m)
  }

  lemma {:induction false} NatRoundTrip(n: nat)
    ensures ParseNat(NatToString(n)) == Some(n)
    decreases n
  {
    if n >= 10 {
      var s := NatToString(n);
      NatRoundTrip(n / 10);
      assert s[..|s| - 1] == NatToString(n / 10);
      assert s[|s| - 1] == DecimalDigit(n % 10);
    }
  }

  lemma IntRoundTrip(n: int)
    ensures ParseInt(IntToString(n)) == Some(n)
  {
    if n < 0 {
      NatRoundTrip(-n);
      assert IntToString(n)[1..] == NatToString(-n);
    } else {
      NatRoundTrip(n);
    }
  }

  // Query strings: `k1=v1&k2=v2&...`, and the parser a server applies to them.

  function JoinQuery(ps: seq<(string, string)>): string
  {
    if ps == [] then []
    else if |ps| == 1 then ps[0].0 + "=" + ps[0].1
    else ps[0].0 + "=" + ps[0].1 + "&" + JoinQuery(ps[1..])
  }

  /** The pieces of `s` between occurrences of `sep`. */
  function SplitOn(s: string, sep: char): (r: seq<string>)
    ensures |r| > 0
    decreases |s|
  {
    if s == [] then [[]]
    else
      var rest := SplitOn(s[1..], sep);
      if s[0] == sep then [[]] + rest else [[s[0]] + rest[0]] + rest[1..]
  }

  /** Splits `s` at the first `sep`: what precedes it and what follows it (all of `s` and nothing when absent). */
  function SplitAtFirst(s: string, sep: char): (string, string)
    decreases |s|
  {
    if s == [] then ([], [])
    else if s[0] == sep then ([], s[1..])
    else
      var kv := SplitAtFirst(s[1..], sep);
      ([s[0]] + kv.0, kv.1)
  }

  /** Splits one `key=value` piece at its first `=`. */
  function ParsePair(seg: string): (string, string)
  {
    SplitAtFirst(seg, '=')
  }

  function ParsePairs(segs: seq<string>): (ps: seq<(string, string)>)
    ensures |ps| == |segs|
  {
    if segs == [] then [] else [ParsePair(segs[0])] + ParsePairs(segs[1..])
  }

  function ParseQuery(q: string): seq<(string, string)>
  {
    if q == [] then [] else ParsePairs(SplitOn(q, '&'))
  }

  /** No separator inside a key or a value, no `=` inside a key. */
  predicate QuerySafe(ps: seq<(string, string)>)
  {
    forall i | 0 <= i < |ps| :: '&' !in ps[i].0 && '&' !in ps[i].1 && '=' !in ps[i].0
  }

  lemma {:induction false} SplitOnWithout(a: string, sep: char)
    requires sep !in a
    ensures SplitOn(a, sep) == [a]
    decreases |a|
  {
    if a != [] {
      SplitOnWithout(a[1..], sep);
      assert [a[0]] + a[1..] == a;
    }
  }

  lemma {:induction false} SplitOnFirst(a: string, sep: char, b: string)
    requires sep !in a
    ensures SplitOn(a + [sep] + b, sep) == [a] + SplitOn(b, sep)
    decreases |a|
  {
    var s := a + [sep] + b;
    if a == [] {
      assert s[1..] == b;
    } else {
      assert s[1..] == a[1..] + [sep] + b;
      SplitOnFirst(a[1..], sep, b);
      assert [a[0]] + a[1..] == a;
    }
  }

  lemma {:induction false} SplitAtFirstRoundTrip(a: string, sep: char, b: string)
    requires sep !in a
    ensures SplitAtFirst(a + [sep] + b, sep) == (a, b)
    decreases |a|
  {
    var s := a + [sep] + b;
    if a == [] {
      assert s[1..] == b;
    } else {
      assert s[1..] == a[1..] + [sep] + b;
      SplitAtFirstRoundTrip(a[1..], sep, b);
      assert [a[0]] + a[1..] == a;
    }
  }

  lemma ParsePairRoundTrip(k: string, v: string)
    requires '=' !in k
    ensures ParsePair(k + "=" + v) == (k, v)
  {
    assert k + "=" + v == k + ['='] + v;
    SplitAtFirstRoundTrip(k, '=', v);
  }

  lemma {:induction false} SplitJoin(ps: seq<(string, string)>)
    requires |ps| > 0 && QuerySafe(ps)
    ensures ParsePairs(SplitOn(JoinQuery(ps), '&')) == ps
    decreases |ps|
  {
    var first := ps[0].0 + "=" + ps[0].1;
    assert '&' !in first by {
      forall i | 0 <= i < |first| ensures first[i] != '&' {
        if i < |ps[0].0| { assert first[i] == ps[0].0[i]; }
        else if i > |ps[0].0| { assert first[i] == ps[0].1[i - |ps[0].0| - 1]; }
      }
    }
    ParsePairRoundTrip(ps[0].0, ps[0].1);
    if |ps| == 1 {
      SplitOnWithout(first, '&');
    } else {
      assert QuerySafe(ps[1..]) by {
        forall i | 0 <= i < |ps[1..]| ensures '&' !in ps[1..][i].0 && '&' !in ps[1..][i].1 && '=' !in ps[1..][i].0 {
          assert ps[1..][i] == ps[i + 1];
        }
      }
      SplitJoin(ps[1..]);
      assert JoinQuery(ps) == first + ['&'] + JoinQuery(ps[1..]);
      SplitOnFirst(first, '&', JoinQuery(ps[1..]));
      assert [ps[0]] + ps[1..] == ps;
    }
  }

  /** A parser splitting at `&` and then at the first `=` recovers every pair of a safe query. */
  lemma QueryRoundTrip(ps: seq<(string, string)>)
    requires QuerySafe(ps)
    ensures ParseQuery(JoinQuery(ps)) == ps
  {
    if ps != [] {
      assert |JoinQuery(ps)| > 0 by {
        if |ps| == 1 { assert JoinQuery(ps) == ps[0].0 + "=" + ps[0].1; }
        else { assert JoinQuery(ps) == ps[0].0 + "=" + ps[0].1 + "&" + JoinQuery(ps[1..]); }
      }
      SplitJoin(ps);
    }
  }

  // URL paths: `/seg1/seg2/...`, and the segments a server splits them into.

  function Path(segs: seq<string>): string
  {
    if segs == [] then [] else "/" + segs[0] + Path(segs[1..])
  }

  lemma {:induction false} SplitSegments(first: string, rest: seq<string>)
    requires '/' !in first && forall i | 0 <= i < |rest| :: '/' !in rest[i]
    ensures SplitOn(first + Path(rest), '/') == [first] + rest
    decreases |rest|
  {
    if rest == [] {
      assert first + Path(rest) == first;
      SplitOnWithout(first, '/');
    } else {
      assert first + Path(rest) == first + ['/'] + (rest[0] + Path(rest[1..]));
      SplitOnFirst(first, '/', rest[0] + Path(rest[1..]));
      SplitSegments(rest[0], rest[1..]);
      assert [rest[0]] + rest[1..] == rest;
    }
  }

  /** Splitting a path at `/` gives an empty first piece, then every segment, when no segment holds a `/`. */
  lemma PathRoundTrip(segs: seq<string>)
    requires forall i | 0 <= i < |segs| :: '/' !in segs[i]
    ensures SplitOn(Path(segs), '/') == [""] + segs
  {
    SplitSegments("", segs);
    assert "" + Path(segs) == Path(segs);
  }

  /** A character other than `/` that no segment holds is not in the path either. */
  lemma {:induction false} PathAvoids(segs: seq<string>, c: char)
    requires c != '/' && forall i | 0 <= i < |segs| :: c !in segs[i]
    ensures c !in Path(segs)
  {
    if segs != [] {
      PathAvoids(segs[1..], c);
      assert Path(segs) == "/" + segs[0] + Path(segs[1..]);
    }
  }
}
