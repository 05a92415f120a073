// Splitting a sequence into its maximal runs of non-separator elements.
// A strand's enzymes are the runs of its codons between Non codons, and a
// complex's products are the runs of each strand between gaps; both are
// specified by Split.

module Segments {

  /** Length of the longest prefix of xs that holds no sep. */
  function RunLength<T(==)>(xs: seq<T>, sep: T): (n: nat)
    ensures n <= |xs|
    ensures forall i :: 0 <= i < n ==> xs[i] != sep
    ensures n < |xs| ==> xs[n] == sep
  {
    if xs == [] || xs[0] == sep then 0 else 1 + RunLength(xs[1..], sep)
  }

  /** The maximal runs of non-sep elements of xs, left to right. */
  function Split<T(==)>(xs: seq<T>, sep: T): (r: seq<seq<T>>)
    ensures forall k :: 0 <= k < |r| ==> r[k] != [] && sep !in r[k]
    decreases |xs|
  {
    if xs == [] then []
    else if xs[0] == sep then Split(xs[1..], sep)
    else
      var n := RunLength(xs, sep);
      [xs[..n]] + Split(xs[n..], sep)
  }

  /** The elements of xs other than sep, in order. */
  function Without<T(==)>(xs: seq<T>, sep: T): (r: seq<T>)
    ensures sep !in r
    ensures |r| <= |xs|
  {
    if xs == [] then []
    else if xs[0] == sep then Without(xs[1..], sep)
    else [xs[0]] + Without(xs[1..], sep)
  }

  function Concat<T>(xss: seq<seq<T>>): seq<T>
  {
    if xss == [] then [] else xss[0] + Concat(xss[1..])
  }

  /** xs is empty or ends with sep: a run cannot continue past its end. */
  predicate Closed<T(==)>(xs: seq<T>, sep: T)
  {
    xs == [] || xs[|xs| - 1] == sep
  }

  /** u is a maximal run of xs starting at index a. */
  predicate IsRunAt<T(==)>(xs: seq<T>, sep: T, a: int, u: seq<T>)
  {
    && 0 <= a && a + |u| <= |xs|
    && xs[a..a + |u|] == u
    && (a == 0 || xs[a - 1] == sep)
    && (a + |u| == |xs| || xs[a + |u|] == sep)
  }

  lemma {:induction false} WithoutAppend<T>(xs: seq<T>, ys: seq<T>, sep: T)
    ensures Without(xs + ys, sep) == Without(xs, sep) + Without(ys, sep)
    decreases |xs|
  {
    if xs == [] {
      assert xs + ys == ys;
    } else {
      assert (xs + ys)[0] == xs[0];
      assert (xs + ys)[1..] == xs[1..] + ys;
      WithoutAppend(xs[1..], ys, sep);
    }
  }

  lemma {:induction false} WithoutNoSep<T>(u: seq<T>, sep: T)
    requires sep !in u
    ensures Without(u, sep) == u
    decreases |u|
  {
    if u != [] {
      WithoutNoSep(u[1..], sep);
    }
  }

  lemma {:induction false} ConcatAppend<T>(xss: seq<seq<T>>, yss: seq<seq<T>>)
    ensures Concat(xss + yss) == Concat(xss) + Concat(yss)
    decreases |xss|
  {
    if xss == [] {
      assert xss + yss == yss;
    } else {
      assert (xss + yss)[0] == xss[0];
      assert (xss + yss)[1..] == xss[1..] + yss;
      ConcatAppend(xss[1..], yss);
    }
  }

  /** Joining the runs gives back every non-sep element, in order. */
  lemma {:induction false} ConcatSplit<T>(xs: seq<T>, sep: T)
    ensures Concat(Split(xs, sep)) == Without(xs, sep)
    decreases |xs|
  {
    if xs == [] {
    } else if xs[0] == sep {
      ConcatSplit(xs[1..], sep);
    } else {
      var n := RunLength(xs, sep);
      ConcatSplit(xs[n..], sep);
      assert xs == xs[..n] + xs[n..];
      WithoutAppend(xs[..n], xs[n..], sep);
      WithoutNoSep(xs[..n], sep);
      assert Concat(Split(xs, sep)) == xs[..n] + Concat(Split(xs[n..], sep));
    }
  }

  /** There are no runs exactly when every element is sep. */
  lemma {:induction false} SplitEmpty<T>(xs: seq<T>, sep: T)
    ensures Split(xs, sep) == [] <==> forall i :: 0 <= i < |xs| ==> xs[i] == sep
    decreases |xs|
  {
    if xs != [] && xs[0] == sep {
      SplitEmpty(xs[1..], sep);
      assert forall i :: 1 <= i < |xs| ==> xs[i] == xs[1..][i - 1];
    }
  }

  lemma {:induction false} RunLengthAppend<T>(xs: seq<T>, ys: seq<T>, sep: T)
    requires sep in xs
    ensures RunLength(xs + ys, sep) == RunLength(xs, sep)
    decreases |xs|
  {
    if xs[0] != sep {
      assert (xs + ys)[1..] == xs[1..] + ys;
      RunLengthAppend(xs[1..], ys, sep);
    }
  }

  /** A closed prefix splits independently of what follows it. */
  lemma {:induction false} SplitAppend<T>(xs: seq<T>, ys: seq<T>, sep: T)
    requires Closed(xs, sep)
    ensures Split(xs + ys, sep) == Split(xs, sep) + Split(ys, sep)
    decreases |xs|
  {
    if xs == [] {
      assert xs + ys == ys;
    } else if xs[0] == sep {
      assert (xs + ys)[1..] == xs[1..] + ys;
      SplitAppend(xs[1..], ys, sep);
    } else {
      assert xs[|xs| - 1] == sep;
      RunLengthAppend(xs, ys, sep);
      var n := RunLength(xs, sep);
      assert (xs + ys)[..n] == xs[..n];
      assert (xs + ys)[n..] == xs[n..] + ys;
      SplitAppend(xs[n..], ys, sep);
    }
  }

  /** A non-empty run with nothing around it, or with a separator after it,
      is its own single piece. */
  lemma RunAlone<T>(u: seq<T>, sep: T)
    requires u != [] && sep !in u
    ensures Split(u, sep) == [u]
    ensures Split(u + [sep], sep) == [u]
  {
    RunLengthNoSep(u, sep);
    assert u[..|u|] == u;
    assert u[|u|..] == [];
    assert (u + [sep])[..|u|] == u;
    assert (u + [sep])[|u|..] == [sep];
    RunLengthAppend(u + [sep], [], sep);
    assert u + [sep] + [] == u + [sep];
    assert RunLength(u + [sep], sep) == |u|;
  }

  /** The pieces of a closed prefix followed by a sep-free tail u: the tail
      is one more piece, and a sep after it closes it without adding one. */
  lemma SplitClose<T>(prefix: seq<T>, u: seq<T>, sep: T)
    requires Closed(prefix, sep) && sep !in u
    ensures Split(prefix + u, sep) == Split(prefix, sep) + (if u == [] then [] else [u])
    ensures Split(prefix + u + [sep], sep) == Split(prefix + u, sep)
  {
    SplitAppend(prefix, u, sep);
    assert prefix + u + [sep] == prefix + (u + [sep]);
    SplitAppend(prefix, u + [sep], sep);
    if u == [] {
      assert u + [sep] == [sep];
      assert Split([sep], sep) == Split([sep][1..], sep);
    } else {
      RunAlone(u, sep);
    }
  }

  /** One step of a left-to-right scan that keeps the pieces ps of a closed
      prefix xs[..start] and an open sep-free run u = xs[start..k]: reading
      xs[k] either extends the run or, being sep, closes it. */
  lemma SplitScanStep<T>(xs: seq<T>, sep: T, start: nat, k: nat, ps: seq<seq<T>>, u: seq<T>)
    requires start <= k < |xs|
    requires Closed(xs[..start], sep) && ps == Split(xs[..start], sep)
    requires u == xs[start..k] && sep !in u
    ensures xs[k] != sep ==> u + [xs[k]] == xs[start..k + 1] && sep !in u + [xs[k]]
    ensures xs[k] == sep ==> Closed(xs[..k + 1], sep)
    ensures xs[k] == sep ==>
              Split(xs[..k + 1], sep) == ps + (if u == [] then [] else [u])
  {
    assert xs[start..k + 1] == u + [xs[k]];
    assert xs[..k + 1] == xs[..start] + u + [xs[k]];
    SplitClose(xs[..start], u, sep);
  }

  /** The end of that scan: the open run, if any, is the last piece. */
  lemma SplitScanEnd<T>(xs: seq<T>, sep: T, start: nat, ps: seq<seq<T>>, u: seq<T>)
    requires start <= |xs|
    requires Closed(xs[..start], sep) && ps == Split(xs[..start], sep)
    requires u == xs[start..] && sep !in u
    ensures Split(xs, sep) == ps + (if u == [] then [] else [u])
  {
    assert xs == xs[..start] + u;
    SplitClose(xs[..start], u, sep);
  }

  /** The state of a left-to-right scan of xs that has read xs[..k]: ps holds
      the pieces of the closed prefix xs[..start], u the open run after it. */
  predicate Scanned<T(==)>(xs: seq<T>, sep: T, start: int, k: int, ps: seq<seq<T>>, u: seq<T>)
  {
    && 0 <= start <= k <= |xs|
    && u == xs[start..k] && sep !in u
    && Closed(xs[..start], sep) && ps == Split(xs[..start], sep)
  }

  lemma ScannedStart<T>(xs: seq<T>, sep: T)
    ensures Scanned(xs, sep, 0, 0, [], [])
  {
    assert xs[..0] == [];
    assert xs[0..0] == [];
  }

  /** Reading xs[k]: a sep closes the open run (keeping it if non-empty),
      anything else extends it. */
  lemma ScannedStep<T>(xs: seq<T>, sep: T, start: int, k: int, ps: seq<seq<T>>, u: seq<T>)
    requires Scanned(xs, sep, start, k, ps, u) && k < |xs|
    ensures xs[k] == sep && |u| == 0 ==> Scanned(xs, sep, k + 1, k + 1, ps, [])
    ensures xs[k] == sep && |u| != 0 ==> Scanned(xs, sep, k + 1, k + 1, ps + [u], [])
    ensures xs[k] != sep ==> Scanned(xs, sep, start, k + 1, ps, u + [xs[k]])
  {
    SplitScanStep(xs, sep, start, k, ps, u);
    assert ps + [] == ps;
  }

  /** A scan that has read all of xs has its pieces, the open run last. */
  lemma ScannedEnd<T>(xs: seq<T>, sep: T, start: int, ps: seq<seq<T>>, u: seq<T>)
    requires Scanned(xs, sep, start, |xs|, ps, u)
    ensures |u| == 0 ==> Split(xs, sep) == ps
    ensures |u| != 0 ==> Split(xs, sep) == ps + [u]
  {
    assert xs[start..|xs|] == xs[start..];
    assert ps + [] == ps;
    SplitScanEnd(xs, sep, start, ps, u);
  }

  lemma {:induction false} RunLengthNoSep<T>(u: seq<T>, sep: T)
    requires sep !in u
    ensures RunLength(u, sep) == |u|
    decreases |u|
  {
    if u != [] {
      RunLengthNoSep(u[1..], sep);
    }
  }

  /** A maximal run of a suffix xs[d..] is one of xs, unless it starts the
      suffix right after a non-sep element. */
  lemma RunAtShift<T>(xs: seq<T>, sep: T, d: nat, a: int, u: seq<T>)
    requires d <= |xs| && IsRunAt(xs[d..], sep, a, u)
    requires a > 0 || d == 0 || xs[d - 1] == sep
    ensures IsRunAt(xs, sep, a + d, u)
  {
    assert xs[a + d..a + d + |u|] == xs[d..][a..a + |u|];
    if a > 0 {
      assert xs[a + d - 1] == xs[d..][a - 1];
    }
    if a + |u| < |xs| - d {
      assert xs[a + d + |u|] == xs[d..][a + |u|];
    }
  }

  /** Every piece of Split is a maximal run of xs. */
  lemma {:induction false} SplitMaximal<T>(xs: seq<T>, sep: T, k: nat)
    requires k < |Split(xs, sep)|
    ensures exists a :: IsRunAt(xs, sep, a, Split(xs, sep)[k])
    decreases |xs|
  {
    var r := Split(xs, sep);
    if xs[0] == sep {
      SplitMaximal(xs[1..], sep, k);
      var a :| IsRunAt(xs[1..], sep, a, r[k]);
      RunAtShift(xs, sep, 1, a, r[k]);
    } else {
      var n := RunLength(xs, sep);
      if k == 0 {
        assert IsRunAt(xs, sep, 0, r[k]);
      } else {
        var rest := xs[n..];
        assert r[k] == Split(rest, sep)[k - 1];
        SplitMaximal(rest, sep, k - 1);
        var a :| IsRunAt(rest, sep, a, r[k]);
        assert rest[0] == sep && r[k][0] != sep;
        assert a > 0;
        RunAtShift(xs, sep, n, a, r[k]);
      }
    }
  }

  lemma {:induction false} RunLengthPrefix<T>(u: seq<T>, rest: seq<T>, sep: T)
    requires sep !in u && (rest == [] || rest[0] == sep)
    ensures RunLength(u + rest, sep) == |u|
    decreases |u|
  {
    if u == [] {
      assert u + rest == rest;
    } else {
      assert (u + rest)[0] == u[0];
      assert (u + rest)[1..] == u[1..] + rest;
      RunLengthPrefix(u[1..], rest, sep);
    }
  }

  lemma {:induction false} SplitSkipSeps<T>(xs: seq<T>, sep: T, a: nat, s: nat)
    requires a <= s <= |xs|
    requires forall i :: a <= i < s ==> xs[i] == sep
    ensures Split(xs[a..], sep) == Split(xs[s..], sep)
    decreases s - a
  {
    if a < s {
      assert xs[a..][1..] == xs[a + 1..];
      SplitSkipSeps(xs, sep, a + 1, s);
    }
  }

  /** The suffix of xs from a, when it holds only seps up to s and then the
      maximal run xs[s..b], splits into that run and the pieces after it. */
  lemma SplitPieceAt<T>(xs: seq<T>, sep: T, a: nat, s: nat, b: nat)
    requires a <= s < b <= |xs|
    requires forall i :: a <= i < s ==> xs[i] == sep
    requires forall i :: s <= i < b ==> xs[i] != sep
    requires b < |xs| ==> xs[b] == sep
    ensures Split(xs[a..], sep) == [xs[s..b]] + Split(xs[b..], sep)
  {
    SplitSkipSeps(xs, sep, a, s);
    var u, rest := xs[s..b], xs[b..];
    assert xs[s..] == u + rest;
    RunLengthPrefix(u, rest, sep);
    assert (u + rest)[..|u|] == u;
    assert (u + rest)[|u|..] == rest;
  }

  /** A suffix of seps only has no pieces. */
  lemma SplitSepsAt<T>(xs: seq<T>, sep: T, a: nat)
    requires a <= |xs|
    requires forall i :: a <= i < |xs| ==> xs[i] == sep
    ensures Split(xs[a..], sep) == []
  {
    SplitSkipSeps(xs, sep, a, |xs|);
  }

}
