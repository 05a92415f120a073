// Strands: sequences of cells, edited one cell at a time, and parsed into
// the enzymes they code for.

module Strands {
  import opened Tables
  import opened Segments

  /** A strand of cells; a cell holding Gap has no base. */
  type Strand = seq<byte>

  /** No cell is 0xff, the one byte Go's 255-entry tables cannot index. */
  predicate Indexable(s: Strand)
  {
    forall i :: 0 <= i < |s| ==> s[i] != 0xff
  }

  /** pos indexes a cell of s that is not a gap. */
  predicate OnStrand(s: Strand, pos: int)
  {
    0 <= pos < |s| && s[pos] != Gap
  }

  /** The cell of the paired strand (of length n) that lies opposite pos. */
  function Mirror(pos: int, n: int): int
  {
    n - 1 - pos
  }

  lemma MirrorInvolutive(pos: int, n: int)
    ensures Mirror(Mirror(pos, n), n) == pos
    ensures 0 <= pos < n <==> 0 <= Mirror(pos, n) < n
  {
  }

  function Prepend(s: Strand, b: byte): (r: Strand)
    ensures |r| == |s| + 1 && r[0] == b && r[1..] == s
  {
    [b] + s
  }

  /** The index insert puts its cell at: pos, or counted from the far end
      of s when the strand is the opposite one. */
  function InsertIndex(s: Strand, pos: int, opposite: bool): int
  {
    if opposite then |s| - pos else pos
  }

  /** Go's `insert`: b inserted before cell pos of s (or, when opposite,
      before cell len(s)-pos); index len(s) appends and index -1 prepends. */
  function Insert(s: Strand, b: byte, pos: int, opposite: bool): (r: Strand)
    requires -1 <= InsertIndex(s, pos, opposite) <= |s|
    ensures var p := InsertIndex(s, pos, opposite);
            var q := if p == -1 then 0 else p;
            r == s[..q] + [b] + s[q..]
  {
    var p := InsertIndex(s, pos, opposite);
    if p == |s| then
      s + [b]
    else if p == -1 then
      Prepend(s, b)
    else
      var shifted := s[..p + 1] + s[p..];
      assert shifted[p := b] == s[..p] + [b] + s[p..];
      shifted[p := b]
  }

  /** Inserting a cell Go's tables can index keeps a strand indexable, and
      lengthens it by one. */
  lemma InsertIndexable(s: Strand, b: byte, pos: int, opposite: bool)
    requires -1 <= InsertIndex(s, pos, opposite) <= |s|
    requires Indexable(s) && b != 0xff
    ensures Indexable(Insert(s, b, pos, opposite))
    ensures |Insert(s, b, pos, opposite)| == |s| + 1
  {
    var p := InsertIndex(s, pos, opposite);
    var q := if p == -1 then 0 else p;
    var r := Insert(s, b, pos, opposite);
    forall i | 0 <= i < |r|
      ensures r[i] != 0xff
    {
      if i > q {
        assert r[i] == s[i - 1];
      } else if i < q {
        assert r[i] == s[i];
      }
    }
  }

  /** Go's `copyOpposite`: the complement of src[pos], when it is a base, is
      written into the cell of dst opposite pos. */
  function CopyOpposite(dst: Strand, src: Strand, pos: int): (r: Strand)
    requires 0 <= pos < |src| && pos < |dst| && src[pos] != 0xff
    ensures |r| == |dst|
    ensures forall j :: 0 <= j < |dst| ==>
              r[j] == if j == Mirror(pos, |dst|) && IsBase(src[pos])
                      then Complement(src[pos]) else dst[j]
  {
    if Index(src[pos]) != NotABase then
      dst[Mirror(pos, |dst|) := Complement(src[pos])]
    else
      dst
  }

  /** Go's `copyOpposite` as it runs: a write into the cells of dst, in place. */
  method CopyOppositeInto(dst: array<byte>, src: Strand, pos: int)
    requires 0 <= pos < |src| && pos < dst.Length && src[pos] != 0xff
    modifies dst
    ensures dst[..] == CopyOpposite(old(dst[..]), src, pos)
  {
    if Index(src[pos]) != NotABase {
      dst[dst.Length - pos - 1] := Complement(src[pos]);
    }
  }

  /** After copying, the two cells opposite each other pair up. */
  lemma CopyOppositePairs(dst: Strand, src: Strand, pos: int)
    requires 0 <= pos < |src| && pos < |dst| && IsBase(src[pos])
    ensures Complement(CopyOpposite(dst, src, pos)[Mirror(pos, |dst|)]) == src[pos]
  {
    ComplementInvolutive(src[pos]);
  }

  /** The cells Enzymes reads: every pair s[2k], s[2k+1], not a trailing odd cell. */
  predicate Decodable(s: Strand)
  {
    forall i :: 0 <= i < |s| / 2 * 2 ==> IsBase(s[i])
  }

  /** The amino acids the pairs of s code for, in order. */
  function Codons(s: Strand): (r: seq<AminoAcid>)
    requires Decodable(s)
    ensures |r| == |s| / 2
    ensures forall k :: 0 <= k < |r| ==> r[k] == Decode(s[2 * k], s[2 * k + 1])
  {
    seq(|s| / 2, k requires 0 <= k < |s| / 2 => Decode(s[2 * k], s[2 * k + 1]))
  }

  /** A trailing odd cell is never read: it may even be a non-base. */
  lemma CodonsIgnoreOdd(s: Strand, b: byte)
    requires |s| % 2 == 0 && Decodable(s)
    ensures Decodable(s + [b]) && Codons(s + [b]) == Codons(s)
  {
  }

  /** The k-th codon of s is read from cells 2k and 2k+1. */
  lemma CodonAt(s: Strand, k: int)
    requires Decodable(s) && 0 <= k < |s| / 2
    ensures 2 * k + 1 < |s| && IsBase(s[2 * k]) && IsBase(s[2 * k + 1])
    ensures Codons(s)[k] == Decode(s[2 * k], s[2 * k + 1])
  {
    assert 2 * k + 1 < |s| / 2 * 2;
  }

  /** Go's `Strand.Enzymes`: the codons of s, split at every Non. Go steps i
      over 0, 2, 4, ... while i+1 < len(s); here k = i/2 runs over the codons. */
  method Enzymes(s: Strand) returns (e: seq<Enzyme>)
    requires Decodable(s)
    ensures e == Split(Codons(s), Non)
    ensures forall k :: 0 <= k < |e| ==> e[k] != [] && Non !in e[k]
  {
    ghost var codes := Codons(s);
    var buf: Enzyme := [];
    e := [];
    ghost var start := 0;
    var n := |s| / 2;
    ScannedStart(codes, Non);
    for k := 0 to n
      invariant Scanned(codes, Non, start, k, e, buf)
    {
      var i := 2 * k;
      CodonAt(s, k);
      var c := Decode(s[i], s[i + 1]);
      ScannedStep(codes, Non, start, k, e, buf);
      if c == Non {
        if |buf| != 0 {
          e := e + [buf];
          buf := [];
        }
        start := k + 1;
      } else {
        buf := buf + [c];
      }
    }
    ScannedEnd(codes, Non, start, e, buf);
    if |buf| != 0 {
      e := e + [buf];
    }
  }

  /** Joined together, the enzymes of s are its codons with every Non taken
      out, in order. */
  lemma EnzymesConcat(s: Strand)
    requires Decodable(s)
    ensures Concat(Split(Codons(s), Non)) == Without(Codons(s), Non)
  {
    ConcatSplit(Codons(s), Non);
  }
}
