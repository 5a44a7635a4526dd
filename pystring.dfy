/**
 * Python's str methods as the core uses them: split with a one-character
 * separator (no limit and with limit 1), strip with and without an argument,
 * join and replace. Strings are sequences of Unicode scalar values.
 */
module PyString {
  import opened Wrappers

  /** The characters for which Python's str.isspace() holds; str.strip() with no argument removes these. */
  const Whitespace: set<char> :=
    {'\t', '\n', '\U{0B}', '\U{0C}', '\r', '\U{1C}', '\U{1D}', '\U{1E}', '\U{1F}', ' ',
     '\U{85}', '\U{A0}', '\U{1680}',
     '\U{2000}', '\U{2001}', '\U{2002}', '\U{2003}', '\U{2004}', '\U{2005}',
     '\U{2006}', '\U{2007}', '\U{2008}', '\U{2009}', '\U{200A}',
     '\U{2028}', '\U{2029}', '\U{202F}', '\U{205F}', '\U{3000}'}

  /** Neither end of s is a character of cs. */
  predicate IsStripped(s: string, cs: set<char>) {
    s == [] || (s[0] !in cs && s[|s| - 1] !in cs)
  }

  /** s.lstrip(cs): the longest suffix of s that does not start with a character of cs. */
  function StripLeft(s: string, cs: set<char>): (r: string)
    ensures |r| <= |s| && r == s[|s| - |r|..]
    ensures forall k :: 0 <= k < |s| - |r| ==> s[k] in cs
    ensures r == [] || r[0] !in cs
  {
    if s != [] && s[0] in cs then StripLeft(s[1..], cs) else s
  }

  /** s.rstrip(cs): the longest prefix of s that does not end with a character of cs. */
  function StripRight(s: string, cs: set<char>): (r: string)
    ensures |r| <= |s| && r == s[..|r|]
    ensures forall k :: |r| <= k < |s| ==> s[k] in cs
    ensures r == [] || r[|r| - 1] !in cs
  {
    if s != [] && s[|s| - 1] in cs then StripRight(s[..|s| - 1], cs) else s
  }

  /**
   * s.strip(cs): what is left once every leading and every trailing
   * character of cs is removed; neither end of it is in cs.
   */
  function Strip(s: string, cs: set<char>): (r: string)
    ensures IsStripped(r, cs)
    ensures IsStripped(s, cs) ==> r == s
  {
    StripRight(StripLeft(s, cs), cs)
  }

  /** [x.strip() for x in xs] */
  function TrimAll(xs: seq<string>): (r: seq<string>)
    ensures |r| == |xs|
    ensures forall i :: 0 <= i < |xs| ==> r[i] == Strip(xs[i], Whitespace)
  {
    seq(|xs|, i requires 0 <= i < |xs| => Strip(xs[i], Whitespace))
  }

  /**
   * s.split(sep): n separators give n + 1 pieces, none containing sep,
   * and "" gives [""].
   */
  function Split(s: string, sep: char): (r: seq<string>)
    ensures |r| == multiset(s)[sep] + 1
    ensures forall i :: 0 <= i < |r| ==> sep !in r[i]
  {
    if s == [] then [[]]
    else
      assert s == [s[0]] + s[1..];
      var rest := Split(s[1..], sep);
      if s[0] == sep then [[]] + rest
      else [[s[0]] + rest[0]] + rest[1..]
  }

  /** sep.join(xs) */
  function Join(xs: seq<string>, sep: string): string
  {
    if |xs| == 0 then []
    else if |xs| == 1 then xs[0]
    else xs[0] + sep + Join(xs[1..], sep)
  }

  /**
   * s.split(sep, 1) as the segment parser unpacks it: None when s has no
   * sep (the unpacking raises), otherwise the text before the FIRST sep and
   * everything after it.
   */
  function SplitOnce(s: string, sep: char): (r: Option<(string, string)>)
    ensures r.None? <==> sep !in s
    ensures r.Some? ==> sep !in r.value.0 && s == r.value.0 + [sep] + r.value.1
  {
    if s == [] then None
    else if s[0] == sep then Some(([], s[1..]))
    else
      match SplitOnce(s[1..], sep)
      case None => None
      case Some((a, b)) => Some(([s[0]] + a, b))
  }

  /** s.replace(c, w) for a one-character pattern c. */
  function Replace(s: string, c: char, w: string): (r: string)
    ensures c !in w ==> c !in r
    ensures c !in s ==> r == s
  {
    if s == [] then []
    else
      assert s == [s[0]] + s[1..];
      (if s[0] == c then w else [s[0]]) + Replace(s[1..], c, w)
  }

  lemma {:induction false} JoinConsHead(a: string, xs: seq<string>, sep: string)
    requires |xs| >= 1
    ensures Join([a + xs[0]] + xs[1..], sep) == a + Join(xs, sep)
  {
    var ys := [a + xs[0]] + xs[1..];
    if |xs| > 1 {
      assert ys[1..] == xs[1..];
    }
  }

  /** Joining the pieces of a split with the separator gives back the string. */
  lemma {:induction false} JoinSplit(s: string, sep: char)
    ensures Join(Split(s, sep), [sep]) == s
  {
    if s != [] {
      var rest := Split(s[1..], sep);
      JoinSplit(s[1..], sep);
      if s[0] == sep {
        assert ([[]] + rest)[1..] == rest;
      } else {
        JoinConsHead([s[0]], rest, [sep]);
      }
    }
  }

  /** Splitting p + t, where p has no separator, extends the first piece of t by p. */
  lemma {:induction false} SplitPrefix(p: string, t: string, sep: char)
    requires sep !in p
    ensures Split(p + t, sep) == [p + Split(t, sep)[0]] + Split(t, sep)[1..]
  {
    if p == [] {
      var r := Split(t, sep);
      assert p + t == t;
      assert p + r[0] == r[0];
      assert r == [r[0]] + r[1..];
    } else {
      assert (p + t)[1..] == p[1..] + t;
      SplitPrefix(p[1..], t, sep);
      assert [p[0]] + (p[1..] + Split(t, sep)[0]) == p + Split(t, sep)[0];
    }
  }

  /** Splitting a join of separator-free pieces gives back exactly those pieces. */
  lemma {:induction false} SplitJoin(ps: seq<string>, sep: char)
    requires |ps| >= 1
    requires forall i :: 0 <= i < |ps| ==> sep !in ps[i]
    ensures Split(Join(ps, [sep]), sep) == ps
  {
    if |ps| == 1 {
      SplitPrefix(ps[0], [], sep);
      assert ps[0] + [] == ps[0];
    } else {
      var j := Join(ps[1..], [sep]);
      SplitJoin(ps[1..], sep);
      assert Join(ps, [sep]) == ps[0] + ([sep] + j);
      SplitPrefix(ps[0], [sep] + j, sep);
      assert ([sep] + j)[1..] == j;
      assert Split([sep] + j, sep) == [[]] + ps[1..];
      assert ps[0] + [] == ps[0];
    }
  }

  /** s.replace(c, w) is w.join(s.split(c)). */
  lemma {:induction false} ReplaceIsJoinSplit(s: string, c: char, w: string)
    ensures Replace(s, c, w) == Join(Split(s, c), w)
  {
    if s != [] {
      var rest := Split(s[1..], c);
      ReplaceIsJoinSplit(s[1..], c, w);
      if s[0] == c {
        assert ([[]] + rest)[1..] == rest;
      } else {
        JoinConsHead([s[0]], rest, w);
      }
    }
  }
}
