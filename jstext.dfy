/**
 The two JavaScript string primitives the wheel's input parser relies on,
 `String.prototype.trim` and `String.prototype.split` with a one-character
 separator, as functions on `string` (a sequence of characters).
 `Join` is the reference inverse of `Split`.
 */
module JsText {

  /** The characters `trim` strips: ECMAScript WhiteSpace (TAB, VT, FF, the
      byte order mark and every space separator) and LineTerminator (LF, CR,
      LINE SEPARATOR, PARAGRAPH SEPARATOR). */
  predicate IsWhitespace(c: char) {
    var n := c as int;
    (0x09 <= n <= 0x0D) || n == 0x20 || n == 0xA0 || n == 0x1680
    || (0x2000 <= n <= 0x200A) || n == 0x2028 || n == 0x2029 || n == 0x202F
    || n == 0x205F || n == 0x3000 || n == 0xFEFF
  }

  predicate AllWhitespace(s: string) {
    forall i :: 0 <= i < |s| ==> IsWhitespace(s[i])
  }

  /** Drops the leading whitespace. */
  function TrimStart(s: string): (r: string)
    ensures |r| <= |s|
  {
    if s != [] && IsWhitespace(s[0]) then TrimStart(s[1..]) else s
  }

  /** Drops the trailing whitespace. */
  function TrimEnd(s: string): (r: string)
    ensures |r| <= |s|
  {
    if s != [] && IsWhitespace(s[|s| - 1]) then TrimEnd(s[..|s| - 1]) else s
  }

  /** `TrimStart` gives the suffix of `s` that starts at its first
      non-whitespace character. */
  lemma {:induction false} TrimStartSuffix(s: string)
    ensures var r := TrimStart(s);
      r == s[|s| - |r|..]
      && AllWhitespace(s[..|s| - |r|])
      && (r == [] || !IsWhitespace(r[0]))
  {
    if s != [] && IsWhitespace(s[0]) {
      TrimStartSuffix(s[1..]);
      var r := TrimStart(s);
      assert s[1..][|s| - 1 - |r|..] == s[|s| - |r|..];
      assert s[..|s| - |r|] == [s[0]] + s[1..][..|s| - 1 - |r|];
    }
  }

  /** `TrimEnd` gives the prefix of `s` that ends at its last
      non-whitespace character. */
  lemma {:induction false} TrimEndPrefix(s: string)
    ensures var r := TrimEnd(s);
      r == s[..|r|]
      && AllWhitespace(s[|r|..])
      && (r == [] || !IsWhitespace(r[|r| - 1]))
  {
    if s != [] && IsWhitespace(s[|s| - 1]) {
      var p := s[..|s| - 1];
      TrimEndPrefix(p);
      var r := TrimEnd(p);
      assert p[..|r|] == s[..|r|];
      assert s[|r|..] == p[|r|..] + [s[|s| - 1]];
    }
  }

  /** `s.trim()` */
  function Trim(s: string): string {
    TrimEnd(TrimStart(s))
  }

  /** `Trim` keeps a contiguous stretch of `s`, drops only whitespace around
      it, and the stretch neither starts nor ends with whitespace. */
  lemma TrimIsInfix(s: string)
    ensures var t := Trim(s); var i := |s| - |TrimStart(s)|;
      i + |t| <= |s| && s[i..i + |t|] == t
      && AllWhitespace(s[..i]) && AllWhitespace(s[i + |t|..])
      && (t == [] || (!IsWhitespace(t[0]) && !IsWhitespace(t[|t| - 1])))
  {
    TrimStartSuffix(s);
    TrimKept(s);
    TrimDropped(s);
    TrimEnds(s);
  }

  lemma {:induction false} TrimKept(s: string)
    ensures var t := Trim(s); var i := |s| - |TrimStart(s)|;
      i + |t| <= |s| && s[i..i + |t|] == t
  {
    var u := TrimStart(s);
    TrimStartSuffix(s);
    TrimEndPrefix(u);
    var t := TrimEnd(u);
    var i := |s| - |u|;
    assert u == s[i..];
    assert t == u[..|t|];
  }

  lemma {:induction false} TrimDropped(s: string)
    ensures var t := Trim(s); var i := |s| - |TrimStart(s)|;
      i + |t| <= |s| && AllWhitespace(s[i + |t|..])
  {
    var u := TrimStart(s);
    TrimStartSuffix(s);
    TrimEndPrefix(u);
    var t := TrimEnd(u);
    var i := |s| - |u|;
    assert u == s[i..];
    assert s[i + |t|..] == u[|t|..];
  }

  lemma TrimEnds(s: string)
    ensures var t := Trim(s);
      t == [] || (!IsWhitespace(t[0]) && !IsWhitespace(t[|t| - 1]))
  {
    var u := TrimStart(s);
    TrimStartSuffix(s);
    TrimEndPrefix(u);
    var t := TrimEnd(u);
    assert t != [] ==> t[0] == u[0];
  }

  /** The trimmed text is empty exactly when the input is whitespace only. */
  lemma TrimEmptyIffBlank(s: string)
    ensures Trim(s) == [] <==> AllWhitespace(s)
  {
    var u := TrimStart(s);
    var k := |s| - |u|;
    TrimStartSuffix(s);
    TrimEndPrefix(u);
    if Trim(s) == [] {
      assert u[0..] == u;
    }
  }

  /** A text that neither starts nor ends with whitespace is its own trim. */
  lemma TrimUnchanged(s: string)
    requires s != [] && !IsWhitespace(s[0]) && !IsWhitespace(s[|s| - 1])
    ensures Trim(s) == s
  {
    assert TrimStart(s) == s;
  }

  /** Trimming twice is trimming once. */
  lemma TrimIdempotent(s: string)
    ensures Trim(Trim(s)) == Trim(s)
  {
    var t := Trim(s);
    TrimIsInfix(s);
    assert TrimStart(t) == t;
    assert TrimEnd(t) == t;
  }

  /** `parts.join(sep)` for a non-empty list of parts. */
  function Join(parts: seq<string>, sep: char): string
    requires |parts| >= 1
  {
    if |parts| == 1 then parts[0] else parts[0] + [sep] + Join(parts[1..], sep)
  }

  /** `s.split(sep)`: the maximal pieces of `s` between occurrences of `sep`,
      in order. There is always at least one piece (`"".split(",")` is
      `[""]`). */
  function Split(s: string, sep: char): (r: seq<string>)
    ensures |r| >= 1
  {
    if s == [] then [[]]
    else
      var rest := Split(s[1..], sep);
      if s[0] == sep then [[]] + rest
      else [[s[0]] + rest[0]] + rest[1..]
  }

  /** No piece of a split contains the separator, and joining the pieces
      back with the separator gives the text. */
  lemma {:induction false} SplitPieces(s: string, sep: char)
    ensures var r := Split(s, sep);
      (forall k :: 0 <= k < |r| ==> sep !in r[k]) && Join(r, sep) == s
  {
    if s != [] {
      SplitPieces(s[1..], sep);
      var rest := Split(s[1..], sep);
      var r := Split(s, sep);
      assert s == [s[0]] + s[1..];
      if s[0] == sep {
        assert r[1..] == rest;
      } else {
        assert r[1..] == rest[1..];
        assert |rest| > 1 ==> Join(rest, sep) == rest[0] + [sep] + Join(rest[1..], sep);
      }
    }
  }

  /** One piece per separator, plus one. */
  lemma {:induction false} SplitCount(s: string, sep: char)
    ensures |Split(s, sep)| == multiset(s)[sep] + 1
  {
    if s != [] {
      SplitCount(s[1..], sep);
      assert s == [s[0]] + s[1..];
      assert multiset(s) == multiset{s[0]} + multiset(s[1..]);
    }
  }

  /** A text without the separator is a single piece. */
  lemma {:induction false} SplitNoSeparator(s: string, sep: char)
    requires sep !in s
    ensures Split(s, sep) == [s]
  {
    if s != [] {
      SplitNoSeparator(s[1..], sep);
      assert s == [s[0]] + s[1..];
    }
  }

  /** Splitting at the first separator. */
  lemma {:induction false} SplitAtFirst(a: string, b: string, sep: char)
    requires sep !in a
    ensures Split(a + [sep] + b, sep) == [a] + Split(b, sep)
  {
    if a != [] {
      var s := a + [sep] + b;
      assert s[0] == a[0] && s[1..] == a[1..] + [sep] + b;
      SplitAtFirst(a[1..], b, sep);
      var rest := Split(s[1..], sep);
      assert rest[0] == a[1..] && rest[1..] == Split(b, sep);
      assert [a[0]] + a[1..] == a;
    } else {
      assert (a + [sep] + b)[1..] == b;
    }
  }

  /** `Split` undoes `Join`: pieces free of the separator come back
      unchanged, so together with `Split`'s own contract the two are
      inverse bijections. */
  lemma {:induction false} SplitJoin(parts: seq<string>, sep: char)
    requires |parts| >= 1
    requires forall k :: 0 <= k < |parts| ==> sep !in parts[k]
    ensures Split(Join(parts, sep), sep) == parts
  {
    if |parts| == 1 {
      SplitNoSeparator(parts[0], sep);
    } else {
      SplitJoin(parts[1..], sep);
      SplitAtFirst(parts[0], Join(parts[1..], sep), sep);
      assert parts == [parts[0]] + parts[1..];
    }
  }

  /** Where the first piece sits in the joined text: it is a prefix, and if
      more pieces follow, a separator comes right after it and the rest is
      the join of the remaining pieces. */
  lemma {:induction false} JoinFirstPiece(parts: seq<string>, sep: char)
    requires |parts| >= 1
    ensures var s := Join(parts, sep);
      |parts[0]| <= |s| && s[..|parts[0]|] == parts[0]
      && (|parts| == 1 ==> s == parts[0])
      && (|parts| > 1 ==> |parts[0]| < |s| && s[|parts[0]|] == sep
                          && s[|parts[0]| + 1..] == Join(parts[1..], sep))
  {
    if |parts| > 1 {
      var s := Join(parts, sep);
      assert s == parts[0] + ([sep] + Join(parts[1..], sep));
    }
  }

  /** The first piece of a split is the text before the first separator, or
      the whole text when there is none. */
  lemma SplitFirstPiece(s: string, sep: char)
    ensures var p := Split(s, sep)[0];
      |p| <= |s| && s[..|p|] == p
      && (sep !in s <==> |Split(s, sep)| == 1)
      && (sep !in s ==> p == s)
      && (sep in s ==> |p| < |s| && s[|p|] == sep
                       && s[|p| + 1..] == Join(Split(s, sep)[1..], sep))
  {
    var parts := Split(s, sep);
    SplitPieces(s, sep);
    JoinFirstPiece(parts, sep);
    if |parts| > 1 {
      assert sep in s by { assert s[|parts[0]|] == sep; }
    }
  }

  /** The second piece of a split is the text between the first and the
      second separator (or the end). */
  lemma SplitSecondPiece(s: string, sep: char)
    requires sep in s
    ensures var parts := Split(s, sep);
      |parts| >= 2
      && var n, q := |parts[0]|, parts[1];
      n + 1 + |q| <= |s| && s[n + 1..n + 1 + |q|] == q
      && (n + 1 + |q| == |s| || s[n + 1 + |q|] == sep)
  {
    SplitPieces(s, sep);
    SplitFirstPiece(s, sep);
    JoinSecondPiece(Split(s, sep), sep);
  }

  /** Where the second piece sits in the joined text: right after the
      first separator, followed by the end or another separator. */
  lemma JoinSecondPiece(parts: seq<string>, sep: char)
    requires |parts| >= 2
    ensures var s, n, q := Join(parts, sep), |parts[0]|, parts[1];
      n + 1 + |q| <= |s| && s[n + 1..n + 1 + |q|] == q
      && (n + 1 + |q| == |s| || s[n + 1 + |q|] == sep)
  {
    var n := |parts[0]|;
    var rest := parts[1..];
    JoinFirstPiece(parts, sep);
    JoinFirstPiece(rest, sep);
    SliceOfSuffix(Join(parts, sep), n + 1, Join(rest, sep), rest[0]);
  }

  /** A prefix of the suffix of `s` at `off` is a slice of `s`. */
  lemma SliceOfSuffix<T>(s: seq<T>, off: nat, tail: seq<T>, q: seq<T>)
    requires off <= |s| && s[off..] == tail && |q| <= |tail| && tail[..|q|] == q
    ensures off + |q| <= |s| && s[off..off + |q|] == q
    ensures off + |q| < |s| ==> s[off + |q|] == tail[|q|]
  {
    assert s[off..off + |q|] == tail[..|q|];
  }
}
