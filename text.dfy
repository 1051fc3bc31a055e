/**
 * Rust strings as byte sequences.
 *
 * A Rust `String` is a vector of UTF-8 bytes; its `==` and its `Ord` compare
 * those bytes. The model writes each byte as the `char` with the same code, so
 * that ASCII literals such as "user.wutag" can be written directly.
 */
module Text {
  import opened Wrappers

  type byte = c: char | c as int < 256 witness 'a'
  type Text = seq<byte>

  const NUL: byte := 0 as char

  /** `str::strip_prefix`. */
  function StripPrefix(s: Text, p: Text): (r: Option<Text>)
    ensures r.Some? <==> p <= s
    ensures r.Some? ==> p + r.value == s
  {
    if p <= s then Some(s[|p|..]) else None
  }

  predicate OccursAt(s: Text, pat: Text, i: nat)
  {
    i + |pat| <= |s| && s[i..i + |pat|] == pat
  }

  /** The first occurrence of `pat` in `s` at or after position `i`. */
  function IndexFrom(s: Text, pat: Text, i: nat): (r: Option<nat>)
    ensures r.Some? ==> i <= r.value && OccursAt(s, pat, r.value)
    ensures r.Some? ==> forall j | i <= j < r.value :: !OccursAt(s, pat, j)
    ensures r.None? ==> forall j | i <= j :: !OccursAt(s, pat, j)
    decreases |s| - i
  {
    if i + |pat| > |s| then None
    else if OccursAt(s, pat, i) then Some(i)
    else IndexFrom(s, pat, i + 1)
  }

  /**
   * `str::split` with a non-empty pattern: the pieces between the
   * non-overlapping occurrences of `pat`, found from left to right.
   */
  function Split(s: Text, pat: Text): (parts: seq<Text>)
    requires |pat| > 0
    ensures |parts| >= 1
    decreases |s|
  {
    match IndexFrom(s, pat, 0)
    case None => [s]
    case Some(i) => [s[..i]] + Split(s[i + |pat|..], pat)
  }

  /** The inverse of `Split`: the pieces with `sep` between each two. */
  function Join(parts: seq<Text>, sep: Text): Text
    requires |parts| >= 1
  {
    if |parts| == 1 then parts[0] else parts[0] + sep + Join(parts[1..], sep)
  }

  /** Splitting and joining again gives back the string. */
  lemma {:induction false} JoinSplit(s: Text, pat: Text)
    requires |pat| > 0
    ensures Join(Split(s, pat), pat) == s
    decreases |s|
  {
    match IndexFrom(s, pat, 0)
    case None =>
    case Some(i) =>
      var rest := s[i + |pat|..];
      var parts := Split(s, pat);
      assert parts == [s[..i]] + Split(rest, pat);
      assert parts[0] == s[..i] && parts[1..] == Split(rest, pat);
      JoinSplit(rest, pat);
      assert Join(parts, pat) == s[..i] + pat + rest;
      assert s[i..i + |pat|] == pat;
      assert s == s[..i] + s[i..i + |pat|] + rest;
  }

  /** A string that lacks the first byte of the pattern is a single piece. */
  lemma SplitWithout(s: Text, pat: Text)
    requires |pat| > 0 && pat[0] !in s
    ensures Split(s, pat) == [s]
  {
  }

  /** Splitting on a one-byte separator that `a` does not contain peels `a` off. */
  lemma SplitAfter(a: Text, c: byte, rest: Text)
    requires c !in a
    ensures Split(a + [c] + rest, [c]) == [a] + Split(rest, [c])
  {
    var s := a + [c] + rest;
    assert OccursAt(s, [c], |a|);
    forall j | 0 <= j < |a|
      ensures !OccursAt(s, [c], j)
    {
      assert s[j] == a[j];
    }
    assert IndexFrom(s, [c], 0) == Some(|a|);
    assert s[..|a|] == a;
    assert s[|a| + 1..] == rest;
  }

  /** Concatenation regroups. */
  lemma Concat(p: Text, q: Text, r: Text)
    ensures p + q + r == p + (q + r)
  {
  }

  /** The four pieces and their separators, grouped from the right. */
  lemma Regroup(a: Text, b: Text, c: Text, d: Text, sep: byte, rest: Text)
    ensures a + [sep] + b + [sep] + c + [sep] + d + rest
         == a + [sep] + (b + [sep] + (c + [sep] + (d + rest)))
  {
    var t := d + rest;
    var x3 := c + [sep] + t;
    var x2 := b + [sep] + x3;
    var a4 := a + [sep] + b + [sep];
    calc {
      a + [sep] + b + [sep] + c + [sep] + d + rest;
      { Concat(a4 + c + [sep], d, rest); }
      a4 + c + [sep] + t;
      { Concat(a4 + c, [sep], t); Concat(a4, c, [sep] + t); Concat(c, [sep], t); }
      a4 + x3;
      { Concat(a + [sep] + b, [sep], x3); Concat(a + [sep], b, [sep] + x3); Concat(b, [sep], x3); }
      a + [sep] + x2;
    }
  }

  /** Two separator-free pieces, each followed by the separator, peel off. */
  lemma SplitTwo(b: Text, c: Text, sep: byte, t: Text)
    requires sep !in b && sep !in c
    ensures Split(b + [sep] + (c + [sep] + t), [sep]) == [b, c] + Split(t, [sep])
  {
    SplitAfter(c, sep, t);
    SplitAfter(b, sep, c + [sep] + t);
  }

  /** Three separator-free pieces, each followed by the separator, peel off. */
  lemma SplitThree(a: Text, b: Text, c: Text, sep: byte, t: Text)
    requires sep !in a && sep !in b && sep !in c
    ensures Split(a + [sep] + (b + [sep] + (c + [sep] + t)), [sep]) == [a, b, c] + Split(t, [sep])
  {
    SplitTwo(b, c, sep, t);
    SplitAfter(a, sep, b + [sep] + (c + [sep] + t));
  }

  /**
   * Splitting `a;b;c;d` followed by `rest` on a one-byte separator that none
   * of the first four pieces contains: those four, then the pieces of `rest`.
   */
  lemma SplitFour(a: Text, b: Text, c: Text, d: Text, sep: byte, rest: Text)
    requires sep !in a && sep !in b && sep !in c && sep !in d
    ensures var f := Split(a + [sep] + b + [sep] + c + [sep] + d + rest, [sep]);
      |f| >= 4 && f[0] == a && f[1] == b && f[2] == c && f[3..] == Split(d + rest, [sep])
  {
    var t := d + rest;
    var x3 := c + [sep] + t;
    var x2 := b + [sep] + x3;
    Regroup(a, b, c, d, sep, rest);
    SplitThree(a, b, c, sep, t);
    assert Split(a + [sep] + x2, [sep]) == [a, b, c] + Split(t, [sep]);
  }

  /** The first piece of `a` followed by nothing or by the separator is `a`. */
  lemma SplitHead(a: Text, sep: byte, rest: Text)
    requires sep !in a
    requires rest == [] || rest[0] == sep
    ensures Split(a + rest, [sep])[0] == a
  {
    if rest == [] {
      assert a + rest == a;
      SplitWithout(a, [sep]);
    } else {
      assert a + rest == a + [sep] + rest[1..];
      SplitAfter(a, sep, rest[1..]);
    }
  }

  /**
   * Splitting five separator-free pieces joined by the separator, followed by
   * nothing or by further separated pieces: the five come first.
   */
  lemma SplitFive(a: Text, b: Text, c: Text, d: Text, e: Text, sep: byte, extra: Text)
    requires sep !in a && sep !in b && sep !in c && sep !in d && sep !in e
    requires extra == [] || extra[0] == sep
    ensures var f := Split(a + [sep] + b + [sep] + c + [sep] + d + [sep] + e + extra, [sep]);
      |f| >= 5 && f[0] == a && f[1] == b && f[2] == c && f[3] == d && f[4] == e
  {
    var rest := [sep] + (e + extra);
    assert a + [sep] + b + [sep] + c + [sep] + d + [sep] + e + extra == a + [sep] + b + [sep] + c + [sep] + d + rest;
    SplitFour(a, b, c, d, sep, rest);
    assert d + rest == d + [sep] + (e + extra);
    SplitAfter(d, sep, e + extra);
    SplitHead(e, sep, extra);
  }

  /** A string that lacks any one byte of the pattern is a single piece. */
  lemma SplitWithoutByte(s: Text, pat: Text, k: nat)
    requires k < |pat| && pat[k] !in s
    ensures Split(s, pat) == [s]
  {
  }

  /** Splitting at the first occurrence of the pattern. */
  lemma SplitAt(s: Text, pat: Text, i: nat)
    requires |pat| > 0 && OccursAt(s, pat, i)
    requires forall j | 0 <= j < i :: !OccursAt(s, pat, j)
    ensures Split(s, pat) == [s[..i]] + Split(s[i + |pat|..], pat)
  {
    assert IndexFrom(s, pat, 0) == Some(i);
  }

  /** Byte-wise lexicographic order, as Rust orders strings. */
  datatype Ordering = Less | Equal | Greater
  {
    function Reverse(): Ordering
    {
      match this
      case Less => Greater
      case Equal => Equal
      case Greater => Less
    }
  }

  function Compare(a: Text, b: Text): (r: Ordering)
    ensures |a| < |b| && a == b[..|a|] ==> r == Less
    ensures |b| < |a| && b == a[..|b|] ==> r == Greater
    decreases |a|
  {
    if a == [] then (if b == [] then Equal else Less)
    else if b == [] then Greater
    else if a[0] < b[0] then Less
    else if a[0] > b[0] then Greater
    else Compare(a[1..], b[1..])
  }

  /** Two strings compare equal exactly when they are the same bytes. */
  lemma {:induction false} CompareEqual(a: Text, b: Text)
    ensures Compare(a, b) == Equal <==> a == b
    decreases |a|
  {
    if a != [] && b != [] && a[0] == b[0] {
      CompareEqual(a[1..], b[1..]);
      assert a == [a[0]] + a[1..] && b == [b[0]] + b[1..];
    }
  }

  /** Swapping the arguments reverses the answer. */
  lemma {:induction false} CompareAntisymmetric(a: Text, b: Text)
    ensures Compare(b, a) == Compare(a, b).Reverse()
    decreases |a|
  {
    if a != [] && b != [] && a[0] == b[0] {
      CompareAntisymmetric(a[1..], b[1..]);
    }
  }

  /** The order is transitive. */
  lemma {:induction false} CompareTransitive(a: Text, b: Text, c: Text)
    requires Compare(a, b) == Less && Compare(b, c) == Less
    ensures Compare(a, c) == Less
    decreases |a|
  {
    if a != [] && b != [] && c != [] && a[0] == b[0] && b[0] == c[0] {
      CompareTransitive(a[1..], b[1..], c[1..]);
    }
  }
}
