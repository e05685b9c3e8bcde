/**
 * The Python string operations the translator relies on: `strip()`,
 * `split(sep)` with a one-character separator, and `sep.join(parts)`.
 */
module Text {

  /** Python 2 distinguishes byte strings (`str`) from `unicode`; they strip different characters. */
  datatype StrType = ByteStr | UnicodeStr

  /**
   * The characters `strip()` removes: ASCII whitespace for byte strings, and
   * for unicode also the Unicode whitespace of Python 2.7's character database.
   */
  predicate IsSpace(c: char, t: StrType) {
    c == ' ' || '\t' <= c <= '\r' ||
    (t == UnicodeStr &&
      ('\U{1C}' <= c <= '\U{1F}' || c == '\U{85}' || c == '\U{A0}' || c == '\U{1680}' ||
       c == '\U{180E}' || '\U{2000}' <= c <= '\U{200A}' || c == '\U{2028}' || c == '\U{2029}' ||
       c == '\U{202F}' || c == '\U{205F}' || c == '\U{3000}'))
  }

  predicate AllSpace(s: string, t: StrType) {
    forall k :: 0 <= k < |s| ==> IsSpace(s[k], t)
  }

  /** `s.lstrip()` */
  function StripLeft(s: string, t: StrType): (r: string)
    ensures |r| <= |s| && r == s[|s| - |r|..]
    ensures AllSpace(s[..|s| - |r|], t)
    ensures r == [] || !IsSpace(r[0], t)
  {
    if s == [] || !IsSpace(s[0], t) then s
    else
      var r := StripLeft(s[1..], t);
      assert r == s[|s| - |r|..] && AllSpace(s[..|s| - |r|], t) by {
        var dropped := s[1..][..|s| - 1 - |r|];
        assert s[..|s| - |r|] == [s[0]] + dropped;
        assert s[1..][|s| - 1 - |r|..] == s[|s| - |r|..];
        AllSpaceCons(s[0], dropped, t);
      }
      r
  }

  lemma AllSpaceCons(c: char, rest: string, t: StrType)
    requires IsSpace(c, t) && AllSpace(rest, t)
    ensures AllSpace([c] + rest, t)
  {
    forall k | 0 <= k < |rest| + 1 ensures IsSpace(([c] + rest)[k], t) {
      if k > 0 {
        assert ([c] + rest)[k] == rest[k - 1];
      }
    }
  }

  /** `s.rstrip()` */
  function StripRight(s: string, t: StrType): (r: string)
    ensures |r| <= |s| && r == s[..|r|]
    ensures AllSpace(s[|r|..], t)
    ensures r == [] || !IsSpace(r[|r| - 1], t)
  {
    if s == [] || !IsSpace(s[|s| - 1], t) then s
    else
      var r := StripRight(s[..|s| - 1], t);
      assert s[|r|..] == s[..|s| - 1][|r|..] + [s[|s| - 1]];
      r
  }

  /** `s.strip()`: the result neither begins nor ends with whitespace. */
  function Strip(s: string, t: StrType): (r: string)
    ensures |r| <= |s|
    ensures r == [] || (!IsSpace(r[0], t) && !IsSpace(r[|r| - 1], t))
  {
    StripRight(StripLeft(s, t), t)
  }

  /** What `strip()` keeps is the part of `s` between a blank prefix and a blank suffix. */
  lemma StripBounds(s: string, t: StrType) returns (i: nat, j: nat)
    ensures i <= j <= |s| && Strip(s, t) == s[i..j]
    ensures AllSpace(s[..i], t) && AllSpace(s[j..], t)
  {
    var l := StripLeft(s, t);
    var r := StripRight(l, t);
    i := |s| - |l|;
    j := i + |r|;
    assert s[i..j] == l[..|r|];
    assert s[j..] == l[|r|..];
  }

  /** Stripping never introduces a character, so a separator absent from `s` is absent from `strip(s)`. */
  lemma StripKeepsAbsent(s: string, t: StrType, c: char)
    requires c !in s
    ensures c !in Strip(s, t)
  {
    var i, j := StripBounds(s, t);
    forall k | 0 <= k < j - i
      ensures s[i..j][k] != c
    {
      assert s[i..j][k] == s[i + k];
    }
  }

  /** Stripping twice is stripping once. */
  lemma StripIdempotent(s: string, t: StrType)
    ensures Strip(Strip(s, t), t) == Strip(s, t)
  {
    var r := Strip(s, t);
    if r != [] {
      assert StripLeft(r, t) == r;
    }
  }

  /**
   * `s.split(sep)`: the pieces between separators, at least one (`"".split(sep)` is `[""]`),
   * none of them containing the separator.
   */
  function Split(s: string, sep: char): (parts: seq<string>)
    ensures |parts| >= 1
    ensures forall k :: 0 <= k < |parts| ==> sep !in parts[k]
  {
    if s == [] then [[]]
    else
      var rest := Split(s[1..], sep);
      if s[0] == sep then [[]] + rest
      else [[s[0]] + rest[0]] + rest[1..]
  }

  /** `sep.join(parts)` */
  function Join(parts: seq<string>, sep: string): string
  {
    if |parts| == 0 then []
    else if |parts| == 1 then parts[0]
    else parts[0] + sep + Join(parts[1..], sep)
  }

  /** Joining the pieces of a split with the same separator gives back the string. */
  lemma {:induction false} JoinSplit(s: string, sep: char)
    ensures Join(Split(s, sep), [sep]) == s
  {
    if s != [] {
      var rest := Split(s[1..], sep);
      JoinSplit(s[1..], sep);
      if s[0] == sep {
        assert ([[]] + rest)[1..] == rest;
      } else {
        var parts := [[s[0]] + rest[0]] + rest[1..];
        if |rest| > 1 {
          assert parts[1..] == rest[1..];
          assert Join(rest, [sep]) == rest[0] + [sep] + Join(rest[1..], [sep]);
        }
      }
    }
  }

  /** Splitting a separator-free piece followed by the separator peels that piece off. */
  lemma {:induction false} SplitAfterPiece(p: string, sep: char, tail: string)
    requires sep !in p
    ensures Split(p + [sep] + tail, sep) == [p] + Split(tail, sep)
  {
    if p == [] {
      assert p + [sep] + tail == [sep] + tail;
      assert ([sep] + tail)[1..] == tail;
    } else {
      assert (p + [sep] + tail)[1..] == p[1..] + [sep] + tail;
      SplitAfterPiece(p[1..], sep, tail);
      assert [p[0]] + p[1..] == p;
    }
  }

  /** A separator-free string splits into itself alone. */
  lemma {:induction false} SplitWithoutSeparator(p: string, sep: char)
    requires sep !in p
    ensures Split(p, sep) == [p]
  {
    if p != [] {
      SplitWithoutSeparator(p[1..], sep);
      assert [p[0]] + p[1..] == p;
    }
  }

  /** Splitting a join of separator-free pieces gives back the pieces. */
  lemma {:induction false} SplitJoin(parts: seq<string>, sep: char)
    requires |parts| >= 1
    requires forall k :: 0 <= k < |parts| ==> sep !in parts[k]
    ensures Split(Join(parts, [sep]), sep) == parts
  {
    if |parts| == 1 {
      SplitWithoutSeparator(parts[0], sep);
    } else {
      SplitJoin(parts[1..], sep);
      SplitAfterPiece(parts[0], sep, Join(parts[1..], [sep]));
    }
  }
}
