/** The three Python `str` methods the router applies to the classifier's
    output: `split(sep)` with a one-character separator, `strip()` with no
    argument, and `capitalize()`. Strings are sequences of Unicode scalar
    values, as Python's `str` is. */
module PyStr {

  /** Python's `str.isspace` for one character: the characters that `strip()`
      with no argument removes. No whitespace character is a letter, so
      `capitalize()` leaves it alone. */
  predicate IsSpace(c: char): (b: bool)
    ensures b ==> !('a' <= c <= 'z') && !('A' <= c <= 'Z')
  {
    ('\t' <= c <= '\r') || ('\U{1C}' <= c <= '\U{1F}') || c == ' '
    || c == '\U{85}' || c == '\U{A0}' || c == '\U{1680}'
    || ('\U{2000}' <= c <= '\U{200A}') || c == '\U{2028}' || c == '\U{2029}'
    || c == '\U{202F}' || c == '\U{205F}' || c == '\U{3000}'
  }

  predicate AllSpace(s: string)
  {
    forall k :: 0 <= k < |s| ==> IsSpace(s[k])
  }

  // ---------------------------------------------------------------------
  // split

  /** Index of the first `sep` in `s`, or `|s|` when there is none. */
  function Find(s: string, sep: char): (i: nat)
    ensures i <= |s|
  {
    if s == [] || s[0] == sep then 0 else Find(s[1..], sep) + 1
  }

  /** `Find` gives the first separator: none occurs before it, and it is one
      unless it is the end of `s`. */
  lemma {:induction false} FindFirst(s: string, sep: char)
    ensures sep !in s[..Find(s, sep)]
    ensures Find(s, sep) < |s| ==> s[Find(s, sep)] == sep
    decreases |s|
  {
    if s != [] && s[0] != sep {
      var j := Find(s[1..], sep);
      FindFirst(s[1..], sep);
      assert s[..j + 1] == [s[0]] + s[1..][..j];
    }
  }

  /** `s.split(sep)`: the pieces between the occurrences of `sep`. There is
      always at least one piece; the first is the longest prefix of `s`
      free of `sep`, and it is followed by `sep` or by the end of `s`. */
  function Split(s: string, sep: char): (pieces: seq<string>)
    ensures |pieces| >= 1
    decreases |s|
  {
    var i := Find(s, sep);
    if i == |s| then [s] else [s[..i]] + Split(s[i + 1..], sep)
  }

  /** `sep.join(pieces)`, the inverse of `Split`. */
  function Join(pieces: seq<string>, sep: char): string
    requires |pieces| >= 1
  {
    if |pieces| == 1 then pieces[0]
    else pieces[0] + [sep] + Join(pieces[1..], sep)
  }

  /** No piece contains the separator. */
  lemma {:induction false} SplitPiecesHaveNoSeparator(s: string, sep: char)
    ensures forall p <- Split(s, sep) :: sep !in p
    decreases |s|
  {
    var i := Find(s, sep);
    FindFirst(s, sep);
    if i < |s| {
      SplitPiecesHaveNoSeparator(s[i + 1..], sep);
    } else {
      assert s[..i] == s;
    }
  }

  /** Splitting yields one more piece than there are separators. */
  lemma {:induction false} SplitCount(s: string, sep: char)
    ensures |Split(s, sep)| == multiset(s)[sep] + 1
    decreases |s|
  {
    var i := Find(s, sep);
    FindFirst(s, sep);
    if i == |s| {
      assert s == s[..i];
    } else {
      assert s == s[..i] + [sep] + s[i + 1..];
      assert multiset(s) == multiset(s[..i]) + multiset{sep} + multiset(s[i + 1..]);
      SplitCount(s[i + 1..], sep);
    }
  }

  /** A string without the separator is a single piece. */
  lemma SplitWithoutSeparator(s: string, sep: char)
    requires sep !in s
    ensures Split(s, sep) == [s]
  {
    assert s[..|s|] == s;
    FindUnique(s, sep, |s|);
  }

  /** Joining the pieces gives back the string that was split. */
  lemma {:induction false} SplitJoin(s: string, sep: char)
    ensures Join(Split(s, sep), sep) == s
    decreases |s|
  {
    var i := Find(s, sep);
    if i < |s| {
      assert s[i] == sep by {
        FindFirst(s, sep);
      }
      var rest := Split(s[i + 1..], sep);
      assert Split(s, sep) == [s[..i]] + rest;
      SplitJoin(s[i + 1..], sep);
      assert ([s[..i]] + rest)[1..] == rest;
      assert Join(Split(s, sep), sep) == s[..i] + [sep] + Join(rest, sep);
      assert s == s[..i] + [sep] + s[i + 1..];
    }
  }

  /** `Find` is the only index with its two properties. */
  lemma {:induction false} FindUnique(s: string, sep: char, k: nat)
    requires k <= |s| && sep !in s[..k]
    requires k < |s| ==> s[k] == sep
    ensures Find(s, sep) == k
    decreases |s|
  {
    if s != [] && s[0] != sep {
      assert k > 0;
      assert s[1..][..k - 1] == s[..k][1..];
      FindUnique(s[1..], sep, k - 1);
    }
  }

  /** The separator that ends a separator-free prefix is the first one. */
  lemma FindAfterPrefix(a: string, b: string, sep: char)
    requires sep !in a
    ensures Find(a + [sep] + b, sep) == |a|
  {
    var s := a + [sep] + b;
    assert s[..|a|] == a;
    FindUnique(s, sep, |a|);
  }

  /** Unfolds `Split` once, at the first separator. */
  lemma SplitAt(s: string, sep: char)
    requires Find(s, sep) < |s|
    ensures Split(s, sep) == [s[..Find(s, sep)]] + Split(s[Find(s, sep) + 1..], sep)
  {
  }

  /** Splitting the join of separator-free pieces gives back those pieces. */
  lemma {:induction false} JoinSplit(pieces: seq<string>, sep: char)
    requires |pieces| >= 1
    requires forall p <- pieces :: sep !in p
    ensures Split(Join(pieces, sep), sep) == pieces
    decreases |pieces|
  {
    var first := pieces[0];
    assert sep !in first;
    if |pieces| == 1 {
      SplitWithoutSeparator(first, sep);
    } else {
      var rest := pieces[1..];
      assert forall p <- rest :: sep !in p;
      var tail := Join(rest, sep);
      var s := first + [sep] + tail;
      assert Join(pieces, sep) == s;
      FindAfterPrefix(first, tail, sep);
      SplitAt(s, sep);
      assert s[..|first|] == first && s[|first| + 1..] == tail;
      JoinSplit(rest, sep);
      assert pieces == [first] + rest;
    }
  }

  /** Joining two runs of pieces joins their joins with one separator. */
  lemma {:induction false} JoinConcat(xs: seq<string>, ys: seq<string>, sep: char)
    requires |xs| >= 1 && |ys| >= 1
    ensures Join(xs + ys, sep) == Join(xs, sep) + [sep] + Join(ys, sep)
    decreases |xs|
  {
    assert (xs + ys)[0] == xs[0];
    if |xs| == 1 {
      assert (xs + ys)[1..] == ys;
    } else {
      assert (xs + ys)[1..] == xs[1..] + ys;
      JoinConcat(xs[1..], ys, sep);
    }
  }

  /** Splitting at a separator splits the two sides independently. */
  lemma SplitConcat(a: string, b: string, sep: char)
    ensures Split(a + [sep] + b, sep) == Split(a, sep) + Split(b, sep)
  {
    var xs, ys := Split(a, sep), Split(b, sep);
    SplitPiecesHaveNoSeparator(a, sep);
    SplitPiecesHaveNoSeparator(b, sep);
    SplitJoin(a, sep);
    SplitJoin(b, sep);
    JoinConcat(xs, ys, sep);
    assert forall p <- xs + ys :: sep !in p;
    JoinSplit(xs + ys, sep);
  }

  /** The first piece is the longest separator-free prefix; it is followed
      by the separator or by the end of `s`. */
  lemma SplitFirstPiece(s: string, sep: char)
    ensures var first := Split(s, sep)[0];
            |first| <= |s| && first == s[..|first|] && sep !in first
            && (|first| == |s| || s[|first|] == sep)
  {
    FindFirst(s, sep);
  }

  // ---------------------------------------------------------------------
  // strip

  /** Removes the leading whitespace: what is left is a suffix of `s`, every
      removed character is whitespace, and the suffix does not start with
      whitespace. */
  function LStrip(s: string): (r: string)
    ensures |r| <= |s| && r == s[|s| - |r|..]
    ensures AllSpace(s[..|s| - |r|])
    ensures r == [] || !IsSpace(r[0])
    decreases |s|
  {
    if s != [] && IsSpace(s[0]) then
      var r := LStrip(s[1..]);
      assert s[..|s| - |r|] == [s[0]] + s[1..][..|s| - 1 - |r|];
      r
    else s
  }

  /** Removes the trailing whitespace, symmetrically to `LStrip`. */
  function RStrip(s: string): (r: string)
    ensures |r| <= |s| && r == s[..|r|]
    ensures AllSpace(s[|r|..])
    ensures r == [] || !IsSpace(r[|r| - 1])
    decreases |s|
  {
    if s != [] && IsSpace(s[|s| - 1]) then
      var r := RStrip(s[..|s| - 1]);
      assert s[|r|..] == s[..|s| - 1][|r|..] + [s[|s| - 1]];
      r
    else s
  }

  /** `s.strip()`: neither end of the result is whitespace. */
  function Strip(s: string): (r: string)
    ensures |r| <= |s|
    ensures r == [] || (!IsSpace(r[0]) && !IsSpace(r[|r| - 1]))
  {
    var left := LStrip(s);
    var r := RStrip(left);
    assert r == [] || r[0] == left[0];
    r
  }

  lemma {:induction false} LStripPrefix(p: string, t: string)
    requires AllSpace(p)
    requires t == [] || !IsSpace(t[0])
    ensures LStrip(p + t) == t
    decreases |p|
  {
    if p != [] {
      assert (p + t)[1..] == p[1..] + t;
      LStripPrefix(p[1..], t);
    }
  }

  lemma {:induction false} RStripSuffix(t: string, q: string)
    requires AllSpace(q)
    requires t == [] || !IsSpace(t[|t| - 1])
    ensures RStrip(t + q) == t
    decreases |q|
  {
    if q != [] {
      assert (t + q)[..|t + q| - 1] == t + q[..|q| - 1];
      RStripSuffix(t, q[..|q| - 1]);
    }
  }

  /** `Strip` removes exactly the surrounding whitespace: whenever `s` is
      whitespace, then a core that neither starts nor ends with whitespace,
      then whitespace, `Strip` gives that core. */
  lemma StripExactly(p: string, m: string, q: string)
    requires AllSpace(p) && AllSpace(q)
    requires m == [] || (!IsSpace(m[0]) && !IsSpace(m[|m| - 1]))
    ensures Strip(p + m + q) == m
  {
    if m == [] {
      assert p + m + q == (p + q) + [];
      assert AllSpace(p + q);
      LStripPrefix(p + q, []);
    } else {
      assert p + m + q == p + (m + q);
      LStripPrefix(p, m + q);
      RStripSuffix(m, q);
    }
  }

  /** A string that neither starts nor ends with whitespace is already
      stripped. */
  lemma StripUnchanged(m: string)
    requires m == [] || (!IsSpace(m[0]) && !IsSpace(m[|m| - 1]))
    ensures Strip(m) == m
  {
    assert AllSpace([]);
    assert [] + m + [] == m;
    StripExactly([], m, []);
  }

  /** Stripping twice is stripping once. */
  lemma StripIdempotent(s: string)
    ensures Strip(Strip(s)) == Strip(s)
  {
    StripUnchanged(Strip(s));
  }

  // ---------------------------------------------------------------------
  // capitalize

  function Upper(c: char): (u: char)
  {
    if 'a' <= c <= 'z' then (c as int - 32) as char else c
  }

  function Lower(c: char): (l: char)
  {
    if 'A' <= c <= 'Z' then (c as int + 32) as char else c
  }

  /** `s.lower()`. */
  function LowerAll(s: string): (r: string)
    ensures |r| == |s|
    ensures forall k :: 0 <= k < |s| ==> r[k] == Lower(s[k])
  {
    if s == [] then [] else [Lower(s[0])] + LowerAll(s[1..])
  }

  /** The shape `capitalize()` produces: the first character is not a
      lower-case letter, and no later character is an upper-case one. */
  predicate Capitalized(s: string)
  {
    (s == [] || !('a' <= s[0] <= 'z'))
    && forall k :: 1 <= k < |s| ==> !('A' <= s[k] <= 'Z')
  }

  /** `s.capitalize()`: the first character upper-cased and the rest
      lower-cased. The result has the capitalized shape and equals `s` up to
      letter case. */
  function Capitalize(s: string): (r: string)
    ensures |r| == |s|
    ensures Capitalized(r)
    ensures LowerAll(r) == LowerAll(s)
  {
    if s == [] then [] else [Upper(s[0])] + LowerAll(s[1..])
  }

  lemma FirstCharUnique(c: char, d: char)
    requires !('a' <= d <= 'z') && Lower(d) == Lower(c)
    ensures d == Upper(c)
  {
  }

  lemma LaterCharUnique(c: char, d: char)
    requires !('A' <= d <= 'Z') && Lower(d) == Lower(c)
    ensures d == Lower(c)
  {
  }

  /** `Capitalize` is the only string of the capitalized shape that equals
      `s` up to letter case. */
  lemma CapitalizeUnique(s: string, t: string)
    requires Capitalized(t)
    requires LowerAll(t) == LowerAll(s)
    ensures t == Capitalize(s)
  {
    var r := Capitalize(s);
    assert |t| == |s| == |r|;
    forall k | 0 <= k < |t|
      ensures t[k] == r[k]
    {
      assert Lower(t[k]) == LowerAll(t)[k] == LowerAll(s)[k] == Lower(s[k]);
      if k == 0 {
        FirstCharUnique(s[0], t[0]);
      } else {
        assert r[k] == LowerAll(s[1..])[k - 1] == Lower(s[k]);
        LaterCharUnique(s[k], t[k]);
      }
    }
  }

  /** Capitalizing twice is capitalizing once. */
  lemma CapitalizeIdempotent(s: string)
    ensures Capitalize(Capitalize(s)) == Capitalize(s)
  {
    CapitalizeUnique(Capitalize(s), Capitalize(s));
  }

  /** Strings that differ only in letter case capitalize alike. */
  lemma CapitalizeIgnoresCase(s: string, t: string)
    requires LowerAll(s) == LowerAll(t)
    ensures Capitalize(s) == Capitalize(t)
  {
    CapitalizeUnique(t, Capitalize(s));
  }

  /** `Capitalize` changes only letters, so it keeps a stripped string
      stripped. */
  lemma CapitalizeKeepsStripped(s: string)
    requires Strip(s) == s
    ensures Strip(Capitalize(s)) == Capitalize(s)
  {
    var r := Capitalize(s);
    if r != [] {
      assert !IsSpace(r[0]) && !IsSpace(r[|r| - 1]);
    }
    StripUnchanged(r);
  }
}
