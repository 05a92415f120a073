// The tertiary structure of an enzyme: the directions of its first and
// last segments, and the base it binds to.

module Folding {
  import opened Tables

  /** The sum of the kinks of every amino acid of e, unreduced. */
  function KinkSum(e: Enzyme): int
  {
    if e == [] then 0 else Kinks(e[0]) + KinkSum(e[1..])
  }

  /** The running sum of Go's loop: one more amino acid adds its kink. */
  lemma {:induction false} KinkSumAppend(e: Enzyme, a: AminoAcid)
    ensures KinkSum(e + [a]) == KinkSum(e) + Kinks(a)
    decreases |e|
  {
    if e == [] {
      assert [a][1..] == [];
    } else {
      assert (e + [a])[1..] == e[1..] + [a];
      KinkSumAppend(e[1..], a);
    }
  }

  /** The fold of a non-empty enzyme: the first segment points where the first
      amino acid's kink turns North, and the last segment is North turned by
      the kink of every amino acid, the first one included. */
  function FoldOf(e: Enzyme): (Direction, Direction)
    requires e != []
  {
    (Wrap(Kinks(e[0])), Wrap(North + KinkSum(e)))
  }

  /** Go's `Enzyme.Fold`: a running heading, reduced after each amino acid. */
  method Fold(e: Enzyme) returns (first: Direction, last: Direction)
    requires e != []
    ensures (first, last) == FoldOf(e)
  {
    var dir: Direction := North;
    for i := 0 to |e|
      invariant dir == Wrap(North + KinkSum(e[..i]))
    {
      assert e[..i + 1] == e[..i] + [e[i]];
      KinkSumAppend(e[..i], e[i]);
      WrapAdd(North + KinkSum(e[..i]), Kinks(e[i]));
      dir := Wrap(dir + Kinks(e[i]));
    }
    assert e[..|e|] == e;
    first, last := Wrap(Kinks(e[0])), dir;
  }

  /** Go's `Enzyme.Preference`: the table entry at last + (East - first). */
  function Preference(e: Enzyme): (b: byte)
    requires e != []
    ensures IsBase(b)
  {
    var (first, last) := FoldOf(e);
    BasePreference(Wrap(last + (East - first)))
  }

  /** The first amino acid's kink counts in both folding directions, so the
      preference depends only on the kinks of the amino acids after it. */
  lemma PreferenceAfterFirst(e: Enzyme)
    requires e != []
    ensures Preference(e) == BasePreference(Wrap(East + KinkSum(e[1..])))
  {
    var k, rest := Kinks(e[0]), KinkSum(e[1..]);
    var first, last := Wrap(k), Wrap(North + k + rest);
    assert FoldOf(e) == (first, last);
    WrapAdd(North + k + rest, East - first);
    assert k - first == 0 || k - first == -4;
    WrapShift(East + rest, (k - first) / 4);
    assert North + k + rest + (East - first) == East + rest + 4 * ((k - first) / 4);
  }

  /** Appending an amino acid turns the last segment by its kink and leaves
      the first segment alone. */
  lemma FoldAppend(e: Enzyme, a: AminoAcid)
    requires e != []
    ensures FoldOf(e + [a]).0 == FoldOf(e).0
    ensures FoldOf(e + [a]).1 == Wrap(FoldOf(e).1 + Kinks(a))
  {
    KinkSumAppend(e, a);
    WrapAdd(North + KinkSum(e), Kinks(a));
  }
}
