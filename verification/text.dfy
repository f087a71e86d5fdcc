/** The two Go string operations the bridge relies on: `strings.Replace` with
    a count of one, and `strings.Split` on a one-character separator, together
    with the `strings.Join` that inverts the split. */
module Text {
  import opened Wrappers

  /** `p` occurs in `s` starting at index `i`. */
  predicate OccursAt(s: string, p: string, i: nat) {
    i + |p| <= |s| && s[i..i + |p|] == p
  }

  /** `p` occurs somewhere in `s`. */
  predicate Contains(s: string, p: string) {
    exists i: nat :: i <= |s| && OccursAt(s, p, i)
  }

  /** `i` is the leftmost occurrence of `p` in `s`. */
  predicate IsFirstOccurrence(s: string, p: string, i: nat) {
    OccursAt(s, p, i) && forall j: nat :: j < i ==> !OccursAt(s, p, j)
  }

  /** Leftmost occurrence of `p` in `s` at or after index `k`. */
  function IndexFrom(s: string, p: string, k: nat): (r: Option<nat>)
    requires k <= |s|
    ensures r.Some? ==> k <= r.value && OccursAt(s, p, r.value)
    ensures r.Some? ==> forall j: nat :: k <= j < r.value ==> !OccursAt(s, p, j)
    ensures r.None? ==> forall j: nat :: k <= j ==> !OccursAt(s, p, j)
    decreases |s| - k
  {
    if OccursAt(s, p, k) then Some(k)
    else if k == |s| then None
    else IndexFrom(s, p, k + 1)
  }

  /** Go's `strings.Index`: the leftmost occurrence of `p` in `s`, if any. */
  function IndexOf(s: string, p: string): (r: Option<nat>)
    ensures r.None? <==> !Contains(s, p)
    ensures r.Some? ==> IsFirstOccurrence(s, p, r.value)
  {
    var r := IndexFrom(s, p, 0);
    assert r.Some? ==> OccursAt(s, p, r.value);
    r
  }

  /** The leftmost occurrence is unique. */
  lemma FirstOccurrenceUnique(s: string, p: string, i: nat, j: nat)
    requires IsFirstOccurrence(s, p, i) && IsFirstOccurrence(s, p, j)
    ensures i == j
  {
  }

  /** Go's `strings.Replace(s, pat, rep, 1)`: the leftmost occurrence of `pat`
      is replaced by `rep`; every other character is kept in place. */
  function ReplaceFirst(s: string, pat: string, rep: string): (r: string)
    ensures !Contains(s, pat) ==> r == s
    ensures forall i: nat {:trigger IsFirstOccurrence(s, pat, i)} ::
      IsFirstOccurrence(s, pat, i) ==> r == s[..i] + rep + s[i + |pat|..]
    ensures |r| == if Contains(s, pat) then |s| - |pat| + |rep| else |s|
  {
    match IndexOf(s, pat)
    case None => s
    case Some(i) =>
      assert forall j: nat :: IsFirstOccurrence(s, pat, j) ==> j == i by {
        forall j: nat | IsFirstOccurrence(s, pat, j) {
          FirstOccurrenceUnique(s, pat, i, j);
        }
      }
      s[..i] + rep + s[i + |pat|..]
  }

  /** A replacement is visible exactly where the pattern first occurs: if `s`
      splits as `pre + pat + post` at the leftmost occurrence, the result is
      `pre + rep + post`. */
  lemma ReplaceFirstAt(pre: string, pat: string, post: string, rep: string)
    requires IsFirstOccurrence(pre + pat + post, pat, |pre|)
    ensures ReplaceFirst(pre + pat + post, pat, rep) == pre + rep + post
  {
    var s := pre + pat + post;
    assert s[..|pre|] == pre;
    assert s[|pre| + |pat|..] == post;
  }

  /** A pattern at index 0 is always the leftmost occurrence. */
  lemma PrefixIsFirstOccurrence(pat: string, post: string)
    ensures IsFirstOccurrence(pat + post, pat, 0)
  {
    assert (pat + post)[0..|pat|] == pat;
  }

  /** Number of occurrences of the character `c` in `s`. */
  function Count(s: string, c: char): nat
  {
    if |s| == 0 then 0
    else (if s[0] == c then 1 else 0) + Count(s[1..], c)
  }

  /** Go's `strings.Split(s, string(sep))`: the pieces of `s` between
      separators, including empty ones; always at least one piece. */
  function Split(s: string, sep: char): (r: seq<string>)
    ensures |r| == Count(s, sep) + 1
  {
    if |s| == 0 then [""]
    else
      assert s == [s[0]] + s[1..];
      var rest := Split(s[1..], sep);
      if s[0] == sep then [""] + rest
      else [[s[0]] + rest[0]] + rest[1..]
  }

  /** No piece of a split contains the separator. */
  lemma {:induction false} SplitPiecesExcludeSeparator(s: string, sep: char)
    ensures forall i :: 0 <= i < |Split(s, sep)| ==> sep !in Split(s, sep)[i]
  {
    if |s| != 0 {
      SplitPiecesExcludeSeparator(s[1..], sep);
      var rest := Split(s[1..], sep);
      if s[0] != sep {
        assert Split(s, sep) == [[s[0]] + rest[0]] + rest[1..];
        assert sep !in [s[0]] + rest[0];
      }
    }
  }

  /** Go's `strings.Join(ps, string(sep))`. */
  function Join(ps: seq<string>, sep: char): string
  {
    if |ps| == 0 then ""
    else if |ps| == 1 then ps[0]
    else ps[0] + [sep] + Join(ps[1..], sep)
  }

  /** Rejoining the pieces with the separator gives back the split string. */
  lemma {:induction false} JoinSplit(s: string, sep: char)
    ensures Join(Split(s, sep), sep) == s
  {
    if |s| != 0 {
      var rest := Split(s[1..], sep);
      JoinSplit(s[1..], sep);
      assert s == [s[0]] + s[1..];
      var ps := Split(s, sep);
      if s[0] == sep {
        assert ps == [""] + rest;
        assert ps[1..] == rest;
        calc {
          Join(ps, sep);
          "" + [sep] + Join(rest, sep);
          [sep] + s[1..];
        }
      } else if |rest| == 1 {
        assert ps == [[s[0]] + rest[0]];
      } else {
        assert ps == [[s[0]] + rest[0]] + rest[1..];
        assert ps[1..] == rest[1..];
        calc {
          Join(ps, sep);
          ([s[0]] + rest[0]) + [sep] + Join(rest[1..], sep);
          [s[0]] + (rest[0] + [sep] + Join(rest[1..], sep));
          [s[0]] + Join(rest, sep);
        }
      }
    }
  }

  /** A string without the separator is a single piece. */
  lemma {:induction false} SplitNoSeparator(s: string, sep: char)
    requires sep !in s
    ensures Split(s, sep) == [s]
  {
    if |s| != 0 {
      SplitNoSeparator(s[1..], sep);
      assert [s[0]] + s[1..] == s;
    }
  }

  /** Splitting distributes over a separator: the pieces of `a + [sep] + b`
      are the pieces of `a` followed by the pieces of `b`. */
  lemma {:induction false} SplitAround(a: string, sep: char, b: string)
    ensures Split(a + [sep] + b, sep) == Split(a, sep) + Split(b, sep)
  {
    var s := a + [sep] + b;
    if |a| == 0 {
      assert s == [sep] + b;
      assert s[1..] == b;
    } else {
      assert s[1..] == a[1..] + [sep] + b;
      SplitAround(a[1..], sep, b);
      SplitStep(a, s, sep, Split(b, sep));
    }
  }

  /** One inductive step of `SplitAround`: the first character of `a` joins
      the first piece, or opens a new empty one. */
  lemma SplitStep(a: string, s: string, sep: char, rb: seq<string>)
    requires |a| > 0 && |s| > 0 && s[0] == a[0]
    requires Split(s[1..], sep) == Split(a[1..], sep) + rb
    ensures Split(s, sep) == Split(a, sep) + rb
  {
    if a[0] == sep {
      SplitStepAtSeparator(a, s, sep, rb);
    } else {
      SplitStepInPiece(a, s, sep, rb);
    }
  }

  /** `SplitStep` when the first character is the separator. */
  lemma SplitStepAtSeparator(a: string, s: string, sep: char, rb: seq<string>)
    requires |a| > 0 && |s| > 0 && s[0] == a[0] == sep
    requires Split(s[1..], sep) == Split(a[1..], sep) + rb
    ensures Split(s, sep) == Split(a, sep) + rb
  {
    var ra := Split(a[1..], sep);
    var x := Split(s, sep);
    var y := Split(a, sep);
    assert x == [""] + (ra + rb);
    assert y == [""] + ra;
    ConcatAssociative([""], ra, rb);
  }

  /** `SplitStep` when the first character extends the first piece. */
  lemma SplitStepInPiece(a: string, s: string, sep: char, rb: seq<string>)
    requires |a| > 0 && |s| > 0 && s[0] == a[0] != sep
    requires Split(s[1..], sep) == Split(a[1..], sep) + rb
    ensures Split(s, sep) == Split(a, sep) + rb
  {
    var ra := Split(a[1..], sep);
    var x := Split(s, sep);
    var y := Split(a, sep);
    assert x == [[a[0]] + (ra + rb)[0]] + (ra + rb)[1..];
    assert y == [[a[0]] + ra[0]] + ra[1..];
    ExtendFirstPiece([a[0]], ra, rb);
  }

  lemma ConcatAssociative(u: seq<string>, v: seq<string>, w: seq<string>)
    ensures u + (v + w) == (u + v) + w
  {
  }

  /** Extending the first piece commutes with appending further pieces. */
  lemma ExtendFirstPiece(x: string, ra: seq<string>, rb: seq<string>)
    requires |ra| > 0
    ensures [x + (ra + rb)[0]] + (ra + rb)[1..] == ([x + ra[0]] + ra[1..]) + rb
  {
    assert (ra + rb)[1..] == ra[1..] + rb;
  }

  /** Splitting a join of separator-free pieces gives the pieces back. */
  lemma {:induction false} SplitJoin(ps: seq<string>, sep: char)
    requires |ps| >= 1
    requires forall i :: 0 <= i < |ps| ==> sep !in ps[i]
    ensures Split(Join(ps, sep), sep) == ps
  {
    SplitNoSeparator(ps[0], sep);
    if |ps| > 1 {
      SplitJoin(ps[1..], sep);
      SplitAround(ps[0], sep, Join(ps[1..], sep));
      assert ps == [ps[0]] + ps[1..];
    }
  }
}
