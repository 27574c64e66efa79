/** Generic sequence operations shared by the three scripts: the list
    comprehension filter, `sep.join(pieces)` and `s.split(sep)` with a
    one-element separator, together with the laws that relate them. */
module Seqs {

  /** The elements of `s` that satisfy `keep`, in their original order
      (`[x for x in s if keep(x)]`). */
  function Filter<T>(s: seq<T>, keep: T -> bool): (r: seq<T>)
    ensures |r| <= |s|
    ensures forall i :: 0 <= i < |r| ==> r[i] in s && keep(r[i])
    ensures forall i :: 0 <= i < |s| && keep(s[i]) ==> s[i] in r
  {
    if |s| == 0 then []
    else (if keep(s[0]) then [s[0]] else []) + Filter(s[1..], keep)
  }

  /** Concatenation of all pieces, without separator. */
  function Flatten<T>(ss: seq<seq<T>>): seq<T>
  {
    if |ss| == 0 then [] else ss[0] + Flatten(ss[1..])
  }

  /** `sep.join(ss)`: the pieces with `sep` between consecutive ones. */
  function Join<T>(ss: seq<seq<T>>, sep: seq<T>): seq<T>
  {
    if |ss| == 0 then []
    else if |ss| == 1 then ss[0]
    else ss[0] + sep + Join(ss[1..], sep)
  }

  /** `s.split(d)` for a one-element separator: the maximal separator-free
      pieces, empty ones included, so there is always at least one piece. */
  function SplitOn<T(==)>(s: seq<T>, d: T): (r: seq<seq<T>>)
    ensures |r| >= 1
    ensures forall i :: 0 <= i < |r| ==> d !in r[i]
  {
    if |s| == 0 then [[]]
    else
      var rest := SplitOn(s[1..], d);
      if s[0] == d then [[]] + rest
      else [[s[0]] + rest[0]] + rest[1..]
  }

  /** Filtering distributes over concatenation. */
  lemma {:induction false} FilterAppend<T>(a: seq<T>, b: seq<T>, keep: T -> bool)
    ensures Filter(a + b, keep) == Filter(a, keep) + Filter(b, keep)
  {
    if |a| == 0 {
      assert a + b == b;
    } else {
      assert (a + b)[0] == a[0];
      assert (a + b)[1..] == a[1..] + b;
      FilterAppend(a[1..], b, keep);
    }
  }

  /** Filtering twice with the same predicate is the same as filtering once. */
  lemma {:induction false} FilterIdempotent<T>(s: seq<T>, keep: T -> bool)
    ensures Filter(Filter(s, keep), keep) == Filter(s, keep)
  {
    FilterFixpoint(Filter(s, keep), keep);
  }

  /** A sequence is left unchanged by the filter exactly when every element
      is kept. */
  lemma {:induction false} FilterFixpoint<T>(s: seq<T>, keep: T -> bool)
    ensures Filter(s, keep) == s <==> forall i :: 0 <= i < |s| ==> keep(s[i])
  {
    if forall i :: 0 <= i < |s| ==> keep(s[i]) {
      if |s| > 0 {
        assert forall i :: 0 <= i < |s[1..]| ==> keep(s[1..][i]) by {
          forall i | 0 <= i < |s[1..]| ensures keep(s[1..][i]) {
            assert s[1..][i] == s[i + 1];
          }
        }
        FilterFixpoint(s[1..], keep);
        assert [s[0]] + s[1..] == s;
      }
    } else {
      var i :| 0 <= i < |s| && !keep(s[i]);
      assert s[i] in s;
      assert s[i] !in Filter(s, keep);
    }
  }

  /** Nothing survives a filter that keeps none of the elements. */
  lemma {:induction false} FilterNone<T>(s: seq<T>, keep: T -> bool)
    requires forall i :: 0 <= i < |s| ==> !keep(s[i])
    ensures Filter(s, keep) == []
  {
    if |s| > 0 {
      FilterNone(s[1..], keep);
    }
  }

  /** Every value occurs in the filtered sequence exactly as often as in the
      input when it is kept, and not at all otherwise. */
  lemma {:induction false} FilterCount<T>(s: seq<T>, keep: T -> bool, x: T)
    ensures multiset(Filter(s, keep))[x] == if keep(x) then multiset(s)[x] else 0
  {
    if |s| > 0 {
      FilterCount(s[1..], keep, x);
      assert s == [s[0]] + s[1..];
      assert multiset(s) == multiset([s[0]]) + multiset(s[1..]);
    }
  }

  /** `FilterCount` for every value at once. */
  lemma FilterCountAll<T>(s: seq<T>, keep: T -> bool)
    ensures forall x :: multiset(Filter(s, keep))[x] == if keep(x) then multiset(s)[x] else 0
  {
    forall x {
      FilterCount(s, keep, x);
    }
  }

  /** The kept and the dropped elements together account for the whole
      input. */
  lemma {:induction false} FilterPartition<T>(s: seq<T>, keep: T -> bool, drop: T -> bool)
    requires forall x :: drop(x) == !keep(x)
    ensures |Filter(s, keep)| + |Filter(s, drop)| == |s|
  {
    if |s| > 0 {
      FilterPartition(s[1..], keep, drop);
    }
  }

  /** Joining the pieces of `s.split(d)` with `d` gives back `s`. */
  lemma {:induction false} JoinSplitOn<T>(s: seq<T>, d: T)
    ensures Join(SplitOn(s, d), [d]) == s
  {
    if |s| > 0 {
      var rest := SplitOn(s[1..], d);
      JoinSplitOn(s[1..], d);
      if s[0] == d {
        assert SplitOn(s, d) == [[]] + rest;
        assert ([[]] + rest)[1..] == rest;
        assert s == [d] + s[1..];
      } else {
        var r := SplitOn(s, d);
        assert r == [[s[0]] + rest[0]] + rest[1..];
        if |rest| == 1 {
          assert Join(rest, [d]) == rest[0];
        } else {
          assert r[1..] == rest[1..];
          assert Join(rest, [d]) == rest[0] + [d] + Join(rest[1..], [d]);
        }
        assert s == [s[0]] + s[1..];
      }
    }
  }

  /** A sequence free of the separator splits into itself alone. */
  lemma {:induction false} SplitOnWithoutSeparator<T>(s: seq<T>, d: T)
    requires d !in s
    ensures SplitOn(s, d) == [s]
  {
    if |s| > 0 {
      assert d !in s[1..];
      SplitOnWithoutSeparator(s[1..], d);
      assert [s[0]] + s[1..] == s;
    }
  }

  /** Every element of every piece comes from the split sequence. */
  lemma {:induction false} SplitOnPiecesFrom<T>(s: seq<T>, d: T)
    ensures forall i, j :: 0 <= i < |SplitOn(s, d)| && 0 <= j < |SplitOn(s, d)[i]| ==> SplitOn(s, d)[i][j] in s
  {
    if |s| > 0 {
      SplitOnPiecesFrom(s[1..], d);
      var rest := SplitOn(s[1..], d);
      var r := SplitOn(s, d);
      forall i, j | 0 <= i < |r| && 0 <= j < |r[i]| ensures r[i][j] in s {
        if s[0] == d {
          assert r[i] == rest[i - 1];
          assert rest[i - 1][j] in s[1..];
        } else if i == 0 {
          if j > 0 {
            assert r[0][j] == rest[0][j - 1];
            assert rest[0][j - 1] in s[1..];
          }
        } else {
          assert r[i] == rest[i];
          assert rest[i][j] in s[1..];
        }
      }
    }
  }

  /** Splitting `a`, separator, `b` gives the pieces of `a` followed by the
      pieces of `b`. */
  lemma {:induction false} SplitOnAppend<T>(a: seq<T>, b: seq<T>, d: T)
    ensures SplitOn(a + [d] + b, d) == SplitOn(a, d) + SplitOn(b, d)
  {
    if |a| == 0 {
      var s := a + [d] + b;
      assert s[0] == d && s[1..] == b;
    } else {
      SplitOnAppend(a[1..], b, d);
      SplitOnAppendStep(a, b, d);
    }
  }

  /** The inductive step of `SplitOnAppend`: the first element of `a`
      either starts a new piece or joins the first piece, on both sides
      alike. */
  lemma SplitOnAppendStep<T>(a: seq<T>, b: seq<T>, d: T)
    requires |a| > 0
    requires SplitOn(a[1..] + [d] + b, d) == SplitOn(a[1..], d) + SplitOn(b, d)
    ensures SplitOn(a + [d] + b, d) == SplitOn(a, d) + SplitOn(b, d)
  {
    var s := a + [d] + b;
    assert s[0] == a[0] && s[1..] == a[1..] + [d] + b;
    if a[0] == d {
      SplitOnAppendSeparator(a, b, d);
    } else {
      SplitOnAppendElement(a, b, d);
    }
  }

  /** The separator case of `SplitOnAppendStep`: a new empty piece is
      put in front on both sides. */
  lemma SplitOnAppendSeparator<T>(a: seq<T>, b: seq<T>, d: T)
    requires |a| > 0 && a[0] == d
    requires SplitOn(a[1..] + [d] + b, d) == SplitOn(a[1..], d) + SplitOn(b, d)
    ensures SplitOn(a + [d] + b, d) == SplitOn(a, d) + SplitOn(b, d)
  {
    var s := a + [d] + b;
    assert s[0] == a[0] && s[1..] == a[1..] + [d] + b;
    var ra := SplitOn(a[1..], d);
    var rb := SplitOn(b, d);
    assert SplitOn(s, d) == [[]] + (ra + rb);
    assert SplitOn(a, d) == [[]] + ra;
    PrependPiece([], ra, rb);
  }

  /** The element case of `SplitOnAppendStep`: the element joins the first
      piece on both sides, and that piece comes from `a` on both sides. */
  lemma SplitOnAppendElement<T>(a: seq<T>, b: seq<T>, d: T)
    requires |a| > 0 && a[0] != d
    requires SplitOn(a[1..] + [d] + b, d) == SplitOn(a[1..], d) + SplitOn(b, d)
    ensures SplitOn(a + [d] + b, d) == SplitOn(a, d) + SplitOn(b, d)
  {
    var s := a + [d] + b;
    assert s[0] == a[0] && s[1..] == a[1..] + [d] + b;
    var ra := SplitOn(a[1..], d);
    var rb := SplitOn(b, d);
    assert SplitOn(s, d) == [[a[0]] + (ra + rb)[0]] + (ra + rb)[1..];
    assert SplitOn(a, d) == [[a[0]] + ra[0]] + ra[1..];
    ExtendFirstPiece(a[0], ra, rb);
  }

  /** Extending the first piece commutes with appending further pieces. */
  lemma ExtendFirstPiece<T>(x: T, ra: seq<seq<T>>, rb: seq<seq<T>>)
    requires |ra| >= 1
    ensures [[x] + (ra + rb)[0]] + (ra + rb)[1..] == ([[x] + ra[0]] + ra[1..]) + rb
  {
    assert (ra + rb)[0] == ra[0];
    assert (ra + rb)[1..] == ra[1..] + rb;
  }

  /** Putting a piece in front commutes with appending further pieces. */
  lemma PrependPiece<T>(p: seq<T>, ra: seq<seq<T>>, rb: seq<seq<T>>)
    ensures [p] + (ra + rb) == ([p] + ra) + rb
  {
  }
}
