// The fixed tables of typogenetics: bases and their pairing, the amino
// acids, the pseudo-codon code, and the per-amino-acid behaviour data.

module Tables {

  /** A Go `byte`. Strand cells are bytes; the value 0 is a gap. */
  type byte = x: int | 0 <= x < 256

  /** A cell holding no base (Go's `null()`). */
  const Gap: byte := 0

  const A: byte := 'A' as int
  const C: byte := 'C' as int
  const G: byte := 'G' as int
  const T: byte := 'T' as int

  /** The value Go's `index` table holds for every byte other than A/C/G/T. */
  const NotABase: byte := 0xff

  predicate IsPurine(b: byte) { b == A || b == G }

  predicate IsPyrimidine(b: byte) { b == C || b == T }

  predicate IsBase(b: byte) { b == A || b == C || b == G || b == T }

  /** Go's `index` table: position of a base in the code table's rows and
      columns. The table has 255 entries, so byte 0xff is out of range. */
  function Index(b: byte): (r: byte)
    requires b != 0xff
    ensures IsBase(b) <==> r != NotABase
    ensures IsBase(b) ==> r < 4
  {
    if b == A then 0
    else if b == C then 1
    else if b == G then 2
    else if b == T then 3
    else NotABase
  }

  /** Go's `Complement` table: how bases pair. */
  function Complement(b: byte): (r: byte)
    requires IsBase(b)
    ensures IsBase(r) && r != b
    ensures IsPurine(b) <==> IsPyrimidine(r)
  {
    if b == A then T
    else if b == C then G
    else if b == G then C
    else A
  }

  lemma ComplementInvolutive(b: byte)
    requires IsBase(b)
    ensures Complement(Complement(b)) == b
  {
  }

  /** Every base is exactly one of purine and pyrimidine; nothing else is either. */
  lemma BaseClasses(b: byte)
    ensures IsBase(b) <==> (IsPurine(b) || IsPyrimidine(b))
    ensures !(IsPurine(b) && IsPyrimidine(b))
  {
  }

  datatype AminoAcid =
    | Non  // no amino acid: separates enzymes in a strand
    | Cut  // cut strand(s)
    | Del  // delete a base from strand
    | Swi  // switch enzyme to other strand
    | Mvr  // move one unit to the right
    | Mvl  // move one unit to the left
    | Cop  // turn on copy mode
    | Off  // turn off copy mode
    | Ina  // insert A to the right of this unit
    | Inc  // insert C to the right of this unit
    | Ing  // insert G to the right of this unit
    | Int  // insert T to the right of this unit
    | Rpy  // search for the nearest pyrimidine to the right
    | Rpu  // search for the nearest purine to the right
    | Lpy  // search for the nearest pyrimidine to the left
    | Lpu  // search for the nearest purine to the left

  /** An enzyme is a sequence of amino acids. */
  type Enzyme = seq<AminoAcid>

  /** The pseudo-codon table, row = first base, column = second base. */
  const Code: seq<AminoAcid> :=
    [ Non, Cut, Del, Swi,
      Mvr, Mvl, Cop, Off,
      Ina, Inc, Ing, Int,
      Rpy, Rpu, Lpy, Lpu ]

  /** The amino acid a pair of bases codes for; only AA codes for Non. */
  function Decode(x: byte, y: byte): (r: AminoAcid)
    requires IsBase(x) && IsBase(y)
    ensures r == Non <==> x == A && y == A
  {
    Code[Index(x) * 4 + Index(y)]
  }

  /** The pair of bases that codes for an amino acid: the inverse of Decode. */
  function Codon(a: AminoAcid): (r: (byte, byte))
    ensures IsBase(r.0) && IsBase(r.1) && Decode(r.0, r.1) == a
  {
    match a
    case Non => (A, A)  case Cut => (A, C)  case Del => (A, G)  case Swi => (A, T)
    case Mvr => (C, A)  case Mvl => (C, C)  case Cop => (C, G)  case Off => (C, T)
    case Ina => (G, A)  case Inc => (G, C)  case Ing => (G, G)  case Int => (G, T)
    case Rpy => (T, A)  case Rpu => (T, C)  case Lpy => (T, G)  case Lpu => (T, T)
  }

  /** Decoding is one-to-one on base pairs: 16 pairs, 16 amino acids. */
  lemma CodonOfDecode(x: byte, y: byte)
    requires IsBase(x) && IsBase(y)
    ensures Codon(Decode(x, y)) == (x, y)
  {
  }

  /** The amino acids that lengthen both strands of a complex by one cell. */
  predicate IsInsertion(a: AminoAcid) { a in {Cut, Ina, Inc, Ing, Int} }

  /** The amino acids that search along the strand. */
  predicate IsSearch(a: AminoAcid) { a in {Rpy, Rpu, Lpy, Lpu} }

  /** Go's `Inserts` table: the cell an insertion amino acid inserts. */
  function Inserts(a: AminoAcid): (b: byte)
    requires IsInsertion(a)
    ensures a == Cut <==> b == Gap
    ensures a != Cut ==> IsBase(b)
  {
    match a
    case Cut => Gap
    case Ina => A
    case Inc => C
    case Ing => G
    case Int => T
  }

  /** Go's `Moves` table: the step of a search amino acid (0 for the rest,
      the Go array's zero value). */
  function Moves(a: AminoAcid): (m: int)
    ensures IsSearch(a) <==> (m == 1 || m == -1)
    ensures !IsSearch(a) ==> m == 0
  {
    match a
    case Rpy | Rpu => 1
    case Lpy | Lpu => -1
    case _ => 0
  }

  /** Go's `Matches` table: the predicate a search amino acid stops at. Only
      a base can match, so a search never stops at a gap. */
  predicate Matches(a: AminoAcid, b: byte)
    requires IsSearch(a)
    ensures Matches(a, b) ==> IsBase(b)
  {
    match a
    case Rpy | Lpy => IsPyrimidine(b)
    case Rpu | Lpu => IsPurine(b)
  }

  /** The folding turn of an amino acid: Left = -1, Straight = 0, Right = 1. */
  type Kink = k: int | -1 <= k <= 1

  const Left: Kink := -1
  const Straight: Kink := 0
  const Right: Kink := 1

  /** Go's `Kinks` table (Non has the array's zero value, Straight). */
  function Kinks(a: AminoAcid): Kink
  {
    match a
    case Non | Cut | Del | Mvr | Mvl | Ina => Straight
    case Swi | Cop | Inc | Ing | Rpy => Right
    case Off | Int | Rpu | Lpy | Lpu => Left
  }

  /** A compass direction, North = 0 clockwise to West = 3. */
  type Direction = d: int | 0 <= d < 4

  const North: Direction := 0
  const East: Direction := 1
  const South: Direction := 2
  const West: Direction := 3

  /** Go's `d & 0x3` on a small signed integer: for two's complement this is
      the remainder modulo 4 that is never negative, which is Dafny's `%`. */
  function Wrap(x: int): Direction
  {
    x % 4
  }

  lemma WrapShift(x: int, k: int)
    ensures Wrap(x + 4 * k) == Wrap(x)
  {
  }

  /** Reducing a running heading after every step or only at the end gives
      the same direction. */
  lemma WrapAdd(x: int, y: int)
    ensures Wrap(Wrap(x) + y) == Wrap(x + y)
  {
    assert x == 4 * (x / 4) + Wrap(x);
    WrapShift(Wrap(x) + y, x / 4);
  }

  /** Go's `Preference` table: the base an enzyme whose relative fold is the
      given direction binds to. */
  function BasePreference(d: Direction): (b: byte)
    ensures IsBase(b)
  {
    if d == East then A
    else if d == North then C
    else if d == South then G
    else T
  }
}
