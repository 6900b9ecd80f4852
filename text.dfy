/**
 * Kotlin's `String.split(" ")` with no limit: the string is cut at every
 * space, so `n` spaces give `n + 1` pieces, empty pieces included (the empty
 * string splits to `[""]`). `getOrNull(i)` returns a piece or null.
 */
module Text {
  import opened Wrappers

  const Space: char := ' '

  function Split(s: string): (parts: seq<string>)
    ensures |parts| >= 1
    ensures forall i :: 0 <= i < |parts| ==> Space !in parts[i]
    decreases |s|
  {
    if |s| == 0 then [""]
    else
      var rest := Split(s[1..]);
      if s[0] == Space then [""] + rest
      else [[s[0]] + rest[0]] + rest[1..]
  }

  /** `joinToString(" ")`, the inverse of Split. */
  function Join(parts: seq<string>): string
    requires |parts| >= 1
  {
    if |parts| == 1 then parts[0] else parts[0] + [Space] + Join(parts[1..])
  }

  /** `split(" ").getOrNull(i)`. */
  function Piece(s: string, i: nat): (r: Option<string>)
    ensures r.Some? <==> i < |Split(s)|
    ensures r.Some? ==> r.value == Split(s)[i] && Space !in r.value
  {
    var parts := Split(s);
    if i < |parts| then Some(parts[i]) else None
  }

  /** Joining the pieces with single spaces gives the string back. */
  lemma {:induction false} JoinSplit(s: string)
    ensures Join(Split(s)) == s
    decreases |s|
  {
    if |s| > 0 {
      JoinSplit(s[1..]);
      var rest := Split(s[1..]);
      if s[0] != Space && |rest| > 1 {
        assert Join(rest) == rest[0] + [Space] + Join(rest[1..]);
        assert Split(s)[1..] == rest[1..];
      }
    }
  }

  /** A string without spaces is a single piece. */
  lemma {:induction false} SplitNoSpace(s: string)
    requires Space !in s
    ensures Split(s) == [s]
    decreases |s|
  {
    if |s| > 0 {
      SplitNoSpace(s[1..]);
      assert [s[0]] + s[1..] == s;
    }
  }

  /** Splitting `a + " " + b`, where `a` has no space, gives `a` and then the pieces of `b`. */
  lemma {:induction false} SplitAtFirstSpace(a: string, b: string)
    requires Space !in a
    ensures Split(a + [Space] + b) == [a] + Split(b)
    decreases |a|
  {
    if |a| == 0 {
      assert a + [Space] + b == [Space] + b;
      assert ([Space] + b)[1..] == b;
    } else {
      var s := a + [Space] + b;
      assert s[1..] == a[1..] + [Space] + b;
      SplitAtFirstSpace(a[1..], b);
      assert [a[0]] + a[1..] == a;
    }
  }

  /** Splitting space-free pieces joined by single spaces gives the pieces back. */
  lemma {:induction false} SplitJoin(parts: seq<string>)
    requires |parts| >= 1
    requires forall i :: 0 <= i < |parts| ==> Space !in parts[i]
    ensures Split(Join(parts)) == parts
  {
    if |parts| == 1 {
      SplitNoSpace(parts[0]);
    } else {
      SplitJoin(parts[1..]);
      SplitAtFirstSpace(parts[0], Join(parts[1..]));
      assert [parts[0]] + parts[1..] == parts;
    }
  }

  /**
   * The first piece is the text before the first space (the whole string when
   * there is none); the remaining pieces are the pieces of what follows that space.
   */
  lemma {:induction false} SplitShape(s: string)
    ensures var p := Split(s);
      && p[0] <= s
      && (|p| == 1 <==> Space !in s)
      && (|p| == 1 ==> p[0] == s)
      && (|p| > 1 ==> |p[0]| < |s| && s[|p[0]|] == Space && p[1..] == Split(s[|p[0]| + 1..]))
  {
    var p := Split(s);
    var k := |p[0]|;
    JoinSplit(s);
    if |p| == 1 {
      assert Join(p) == p[0];
    } else {
      assert s == p[0] + [Space] + Join(p[1..]);
      assert s[k + 1..] == Join(p[1..]);
      SplitJoin(p[1..]);
    }
  }

  /**
   * A string with a space has a second piece: it follows the first piece and
   * one space, and ends at the next space or at the end of the string.
   */
  lemma SecondPiece(s: string)
    ensures var p := Split(s);
      Space in s ==>
        && |p| > 1
        && p[0] + [Space] + p[1] <= s
        && (|p[0]| + 1 + |p[1]| == |s| || s[|p[0]| + 1 + |p[1]|] == Space)
  {
    SplitShape(s);
    var p := Split(s);
    if Space in s {
      var a := p[0];
      var rest := s[|a| + 1..];
      SplitShape(rest);
      var q := Split(rest);
      assert p[1] == q[0] by { assert p[1..][0] == p[1]; }
      var b := q[0];
      PrefixAfterSpace(s, a, b);
      if |q| > 1 {
        assert s[|a| + 1 + |b|] == rest[|b|];
      }
    }
  }

  /** A prefix, one space and a prefix of what follows that space form a prefix. */
  lemma PrefixAfterSpace(s: string, a: string, b: string)
    requires a <= s && |a| < |s| && s[|a|] == Space && b <= s[|a| + 1..]
    ensures a + [Space] + b <= s
  {
    assert a + [Space] + b == s[..|a| + 1 + |b|];
  }
}
