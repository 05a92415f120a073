// A complex of two paired strands, and the product strands it dissociates
// into.

module Complexes {
  import opened Tables
  import opened Segments
  import opened Strands

  /** Go's `Complex`, a pair of strands: top is c[0], bottom is c[1]. Cell i
      of bottom lies opposite cell Mirror(i, len) of top. */
  datatype Complex = Complex(top: Strand, bottom: Strand)

  /** The strands of c in the order Go's `range c` visits them. */
  function Pair(c: Complex): seq<Strand>
  {
    [c.top, c.bottom]
  }

  /** Go's `NewComplex`: s paired with a strand of gaps of the same length. */
  function NewComplex(s: Strand): (c: Complex)
    ensures c.top == s && |c.bottom| == |s|
    ensures forall i :: 0 <= i < |s| ==> c.bottom[i] == Gap
  {
    Complex(s, seq(|s|, _ => Gap))
  }

  /** The products of a complex: the maximal gap-free runs of the top strand,
      left to right, then those of the bottom strand. */
  function ProductsOf(c: Complex): seq<Strand>
  {
    Split(c.top, Gap) + Split(c.bottom, Gap)
  }

  /** The first pass of Go's `Complex.Products` over one strand: a run
      starts at every cell that is not a gap and follows a gap or the start. */
  method CountRuns(s: Strand) returns (n: nat)
    ensures n == |Split(s, Gap)|
  {
    n := 0;
    var isSeq := false;
    ghost var from := 0;
    for i := 0 to |s|
      invariant 0 <= from <= i && (isSeq <==> from < i)
      invariant Closed(s[..from], Gap) && Gap !in s[from..i]
      invariant n == |Split(s[..from], Gap)| + (if isSeq then 1 else 0)
    {
      SplitScanStep(s, Gap, from, i, Split(s[..from], Gap), s[from..i]);
      var wasSeq := isSeq;
      isSeq := s[i] != Gap;
      if isSeq && !wasSeq {
        n := n + 1;
      }
      if !isSeq {
        from := i + 1;
      }
    }
    SplitScanEnd(s, Gap, from, Split(s[..from], Gap), s[from..]);
  }

  /** The first pass of Go's `Complex.Products`: the number of products,
      which Go uses as the capacity of the result. */
  method CountProducts(c: Complex) returns (n: nat)
    ensures n == |ProductsOf(c)|
  {
    n := 0;
    for t := 0 to 2
      invariant n == (if t == 0 then 0 else |Split(c.top, Gap)|) +
                     (if t == 2 then |Split(c.bottom, Gap)| else 0)
    {
      var k := CountRuns(Pair(c)[t]);
      n := n + k;
    }
  }

  /** The second pass of Go's `Complex.Products` over one strand: append
      each maximal run of s to p, as it is closed by a gap or by the end. */
  method AppendRuns(p0: seq<Strand>, s: Strand) returns (p: seq<Strand>)
    ensures p == p0 + Split(s, Gap)
  {
    p := p0;
    var isSeq := false;
    var start := -1;
    ghost var from := 0;
    for i := 0 to |s|
      invariant 0 <= from <= i && (isSeq <==> from < i)
      invariant start == if isSeq then from else -1
      invariant Closed(s[..from], Gap) && Gap !in s[from..i]
      invariant p == p0 + Split(s[..from], Gap)
    {
      SplitScanStep(s, Gap, from, i, Split(s[..from], Gap), s[from..i]);
      var wasSeq := isSeq;
      isSeq := s[i] != Gap;
      if isSeq && !wasSeq {
        start := i;
      } else if wasSeq && !isSeq {
        p := p + [s[start..i]];
        start := -1;
      }
      if !isSeq {
        from := i + 1;
      }
    }
    SplitScanEnd(s, Gap, from, Split(s[..from], Gap), s[from..]);
    if isSeq {
      p := p + [s[start..]];
    }
  }

  /** Go's `Complex.Products`: the runs of the top strand, then the bottom's. */
  method Products(c: Complex) returns (p: seq<Strand>)
    ensures p == ProductsOf(c)
  {
    p := [];
    for t := 0 to 2
      invariant t == 0 ==> p == []
      invariant t == 1 ==> p == Split(c.top, Gap)
      invariant t == 2 ==> p == ProductsOf(c)
    {
      p := AppendRuns(p, Pair(c)[t]);
    }
  }

  /** Every product is a non-empty, gap-free maximal run of the top strand
      (the first |Split(c.top, Gap)| of them) or of the bottom strand. */
  lemma ProductsAreRuns(c: Complex, k: nat)
    requires k < |ProductsOf(c)|
    ensures ProductsOf(c)[k] != [] && Gap !in ProductsOf(c)[k]
    ensures var nTop := |Split(c.top, Gap)|;
            if k < nTop then exists a :: IsRunAt(c.top, Gap, a, ProductsOf(c)[k])
            else exists a :: IsRunAt(c.bottom, Gap, a, ProductsOf(c)[k])
  {
    var nTop := |Split(c.top, Gap)|;
    if k < nTop {
      SplitMaximal(c.top, Gap, k);
    } else {
      SplitMaximal(c.bottom, Gap, k - nTop);
    }
  }

  /** Joined together, the products are the non-gap cells of the top strand
      followed by those of the bottom strand. */
  lemma ProductsCells(c: Complex)
    ensures Concat(ProductsOf(c)) == Without(c.top, Gap) + Without(c.bottom, Gap)
  {
    ConcatAppend(Split(c.top, Gap), Split(c.bottom, Gap));
    ConcatSplit(c.top, Gap);
    ConcatSplit(c.bottom, Gap);
  }

  /** A complex has no products exactly when every cell is a gap. */
  lemma NoProducts(c: Complex)
    ensures ProductsOf(c) == [] <==>
              (forall i :: 0 <= i < |c.top| ==> c.top[i] == Gap) &&
              (forall i :: 0 <= i < |c.bottom| ==> c.bottom[i] == Gap)
  {
    SplitEmpty(c.top, Gap);
    SplitEmpty(c.bottom, Gap);
  }

  /** A fresh complex dissociates into the runs of its strand alone. */
  lemma NewComplexProducts(s: Strand)
    ensures ProductsOf(NewComplex(s)) == Split(s, Gap)
  {
    SplitEmpty(NewComplex(s).bottom, Gap);
  }
}
