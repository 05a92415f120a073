// The enzyme execution engine: an enzyme's amino acids applied one after
// another to a complex, from a start position on its top strand.

module Engine {
  import opened Tables
  import opened Strands
  import opened Complexes
  import opened Segments

  /** What OperateOn carries from one amino acid to the next: the complex
      (its top strand is the one the enzyme is bound to), the enzyme's
      position on it, and whether copy mode is on. */
  datatype State = State(c: Complex, pos: int, copyMode: bool)

  /** A state an amino acid can run from: strands of equal length, the
      position on a cell of the top strand, and no cell Go's tables cannot
      index. */
  predicate Ready(st: State)
  {
    && |st.c.top| == |st.c.bottom|
    && 0 <= st.pos < |st.c.top|
    && Indexable(st.c.top) && Indexable(st.c.bottom)
  }

  /** An enzyme OperateOn accepts: Go panics on Non. */
  predicate Runnable(e: Enzyme)
  {
    forall i :: 0 <= i < |e| ==> e[i] != Non
  }

  /** Every enzyme a strand codes for can be run: none holds Non. */
  lemma EnzymesRunnable(s: Strand, k: nat)
    requires Decodable(s) && k < |Split(Codons(s), Non)|
    ensures Runnable(Split(Codons(s), Non)[k]) && Split(Codons(s), Non)[k] != []
  {
  }

  /** The search loop of a search amino acid, from pos (already one step
      along): while pos is on the strand, copy its cell across in copy mode
      and stop if it matches; otherwise step on. Returns the new bottom
      strand and the position the search stopped at. */
  function Scan(a: AminoAcid, top: Strand, bottom: Strand, pos: int, copyMode: bool): (r: (Strand, int))
    requires IsSearch(a) && |top| == |bottom| && Indexable(top) && Indexable(bottom)
    ensures |r.0| == |bottom| && Indexable(r.0)
    decreases if Moves(a) > 0 then |top| - pos else pos + 1
  {
    if !OnStrand(top, pos) then
      (bottom, pos)
    else
      var b := if copyMode then CopyOpposite(bottom, top, pos) else bottom;
      if Matches(a, top[pos]) then (b, pos)
      else Scan(a, top, b, pos + Moves(a), copyMode)
  }

  /** An insertion amino acid: the enzyme steps right and the new cell goes
      under it; the bottom strand gets a gap opposite, so the strands stay
      in register. */
  function ActInsert(a: AminoAcid, st: State): (r: State)
    requires IsInsertion(a) && Ready(st)
    ensures |r.c.top| == |r.c.bottom| == |st.c.top| + 1
    ensures Indexable(r.c.top) && Indexable(r.c.bottom)
    ensures r.pos == st.pos + 1 && r.copyMode == st.copyMode
    ensures r.c.top == st.c.top[..r.pos] + [Inserts(a)] + st.c.top[r.pos..]
    ensures var m := Mirror(r.pos, |r.c.bottom|);
            r.c.bottom == st.c.bottom[..m] + [Gap] + st.c.bottom[m..]
  {
    var p := st.pos + 1;
    InsertIndexable(st.c.top, Inserts(a), p, false);
    InsertIndexable(st.c.bottom, Gap, p, true);
    State(Complex(Insert(st.c.top, Inserts(a), p, false), Insert(st.c.bottom, Gap, p, true)), p, st.copyMode)
  }

  /** A search amino acid: the top strand is untouched, and the search of
      Scan starts one step along. */
  function ActSearch(a: AminoAcid, st: State): (r: State)
    requires IsSearch(a) && Ready(st)
    ensures r.c.top == st.c.top && |r.c.bottom| == |st.c.bottom| && Indexable(r.c.bottom)
    ensures r.copyMode == st.copyMode
  {
    var (b, p) := Scan(a, st.c.top, st.c.bottom, st.pos + Moves(a), st.copyMode);
    State(Complex(st.c.top, b), p, st.copyMode)
  }

  /** An amino acid that neither inserts nor searches: it moves the enzyme,
      switches strands, deletes the cell under it or sets copy mode. */
  function ActSimple(a: AminoAcid, st: State): (r: State)
    requires a != Non && !IsInsertion(a) && !IsSearch(a) && Ready(st)
    ensures |r.c.top| == |r.c.bottom| == |st.c.top|
    ensures Indexable(r.c.top) && Indexable(r.c.bottom)
    ensures r.copyMode == if a == Cop then true else if a == Off then false else st.copyMode
  {
    var top, bottom, pos := st.c.top, st.c.bottom, st.pos;
    match a
    case Del => State(Complex(top[pos := Gap], bottom), pos - 1, st.copyMode)
    case Swi => State(Complex(bottom, top), Mirror(pos, |bottom|), st.copyMode)
    case Mvr => st.(pos := pos + 1)
    case Mvl => st.(pos := pos - 1)
    case Cop => st.(copyMode := true)
    case Off => st.(copyMode := false)
  }

  /** The effect of one amino acid (the switch of Go's `OperateOn`). */
  function Act(a: AminoAcid, st: State): (r: State)
    requires a != Non && Ready(st)
    ensures |r.c.top| == |r.c.bottom| == |st.c.top| + (if IsInsertion(a) then 1 else 0)
    ensures Indexable(r.c.top) && Indexable(r.c.bottom)
    ensures r.copyMode == if a == Cop then true else if a == Off then false else st.copyMode
  {
    if IsInsertion(a) then ActInsert(a, st)
    else if IsSearch(a) then ActSearch(a, st)
    else ActSimple(a, st)
  }

  /** What follows every amino acid that leaves the position on the strand:
      in copy mode, the cell under the position is copied across. */
  function CopyAfter(st: State): (r: State)
    requires |st.c.top| == |st.c.bottom| && OnStrand(st.c.top, st.pos)
    requires Indexable(st.c.top) && Indexable(st.c.bottom)
    ensures Ready(r) && r.c.top == st.c.top && r.pos == st.pos && r.copyMode == st.copyMode
  {
    if st.copyMode then
      st.(c := st.c.(bottom := CopyOpposite(st.c.bottom, st.c.top, st.pos)))
    else
      st
  }

  /** The result of running an enzyme: the final state, how many amino acids
      ran, and whether the run stopped because the position left the strand. */
  datatype Outcome = Outcome(final: State, executed: nat, halted: bool)

  /** Go's `OperateOn` as a recursive specification. */
  function Run(e: Enzyme, st: State): (r: Outcome)
    requires Runnable(e) && Ready(st)
    ensures r.executed <= |e| && |r.final.c.top| == |r.final.c.bottom|
    ensures Indexable(r.final.c.top) && Indexable(r.final.c.bottom)
    ensures !r.halted ==> Ready(r.final)
    ensures r.halted <==> r.executed > 0 && !OnStrand(r.final.c.top, r.final.pos)
    ensures !r.halted ==> r.executed == |e|
    decreases |e|
  {
    if e == [] then
      Outcome(st, 0, false)
    else
      var next := Act(e[0], st);
      if !OnStrand(next.c.top, next.pos) then
        Outcome(next, 1, true)
      else
        var r := Run(e[1..], CopyAfter(next));
        Outcome(r.final, r.executed + 1, r.halted)
  }

  /** The search loop of Go's `OperateOn` for a search amino acid, from pos
      (already one step along). */
  method Search(a: AminoAcid, top: Strand, bottom: Strand, pos: int, copyMode: bool)
    returns (b: Strand, p: int)
    requires IsSearch(a) && |top| == |bottom| && Indexable(top) && Indexable(bottom)
    ensures (b, p) == Scan(a, top, bottom, pos, copyMode)
  {
    var move := Moves(a);
    b, p := bottom, pos;
    while OnStrand(top, p)
      invariant |b| == |top| && Indexable(b)
      invariant Scan(a, top, b, p, copyMode) == Scan(a, top, bottom, pos, copyMode)
      decreases if move > 0 then |top| - p else p + 1
    {
      ghost var b1 := b;
      if copyMode {
        b := CopyOpposite(b, top, p);
      }
      if Matches(a, top[p]) {
        assert Scan(a, top, b1, p, copyMode) == (b, p);
        return;
      }
      p := p + move;
    }
  }

  /** One pass of the switch of Go's `OperateOn`. */
  method Step(a: AminoAcid, top0: Strand, bottom0: Strand, pos: int, copyMode0: bool)
    returns (top: Strand, bottom: Strand, p: int, copyMode: bool)
    requires a != Non && Ready(State(Complex(top0, bottom0), pos, copyMode0))
    ensures State(Complex(top, bottom), p, copyMode) == Act(a, State(Complex(top0, bottom0), pos, copyMode0))
  {
    top, bottom, p, copyMode := top0, bottom0, pos, copyMode0;
    if IsInsertion(a) {
      p := p + 1;
      top, bottom := Insert(top, Inserts(a), p, false), Insert(bottom, Gap, p, true);
    } else if IsSearch(a) {
      bottom, p := Search(a, top, bottom, p + Moves(a), copyMode);
    } else {
      match a {
        case Del =>
          top := top[p := Gap];
          p := p - 1;
        case Swi =>
          top, bottom := bottom, top;
          p := |top| - p - 1;
        case Mvr =>
          p := p + 1;
        case Mvl =>
          p := p - 1;
        case Cop =>
          copyMode := true;
        case Off =>
          copyMode := false;
      }
    }
  }

  /** Go's `Enzyme.OperateOn`, without the debug trace. */
  method OperateOn(e: Enzyme, c: Complex, pos: int) returns (r: Complex)
    requires |c.top| == |c.bottom|
    requires 0 <= pos < |c.top|
    requires Runnable(e)
    requires Indexable(c.top) && Indexable(c.bottom)
    ensures r == Run(e, State(c, pos, false)).final.c
    ensures |r.top| == |r.bottom|
  {
    var copyMode := false;
    var top, bottom, p := c.top, c.bottom, pos;
    ghost var start := State(c, pos, false);
    for i := 0 to |e|
      invariant Ready(State(Complex(top, bottom), p, copyMode))
      invariant Run(e[i..], State(Complex(top, bottom), p, copyMode)).final == Run(e, start).final
    {
      assert e[i..][1..] == e[i + 1..];
      top, bottom, p, copyMode := Step(e[i], top, bottom, p, copyMode);
      if !OnStrand(top, p) {
        r := Complex(top, bottom);
        return;
      }
      if copyMode {
        bottom := CopyOpposite(bottom, top, p);
      }
    }
    r := Complex(top, bottom);
  }

  /** Every two base cells that lie opposite each other pair up: the complex
      is a consistent double strand. */
  predicate Paired(c: Complex)
  {
    && |c.top| == |c.bottom|
    && forall i :: 0 <= i < |c.top| && IsBase(c.top[i]) && IsBase(c.bottom[Mirror(i, |c.top|)]) ==>
         c.bottom[Mirror(i, |c.top|)] == Complement(c.top[i])
  }

  lemma NewComplexPaired(s: Strand)
    ensures Paired(NewComplex(s))
  {
  }

  /** Copying across writes the partner of a cell opposite it, so it keeps
      the strands paired. */
  lemma PairedCopy(c: Complex, pos: int)
    requires Paired(c) && 0 <= pos < |c.top| && c.top[pos] != 0xff
    ensures Paired(Complex(c.top, CopyOpposite(c.bottom, c.top, pos)))
  {
    var n := |c.top|;
    var b := CopyOpposite(c.bottom, c.top, pos);
    forall i | 0 <= i < n && IsBase(c.top[i]) && IsBase(b[Mirror(i, n)])
      ensures b[Mirror(i, n)] == Complement(c.top[i])
    {
      if i != pos {
        assert Mirror(i, n) != Mirror(pos, n);
      }
    }
  }

  /** Swapping the strands keeps them paired, since pairing is symmetric. */
  lemma PairedSwap(c: Complex)
    requires Paired(c)
    ensures Paired(Complex(c.bottom, c.top))
  {
    var n := |c.top|;
    forall i | 0 <= i < n && IsBase(c.bottom[i]) && IsBase(c.top[Mirror(i, n)])
      ensures c.top[Mirror(i, n)] == Complement(c.bottom[i])
    {
      var j := Mirror(i, n);
      MirrorInvolutive(i, n);
      assert c.bottom[Mirror(j, n)] == Complement(c.top[j]);
      ComplementInvolutive(c.top[j]);
    }
  }

  /** Deleting a cell of the top strand leaves no new pair to check. */
  lemma PairedDelete(c: Complex, pos: int)
    requires Paired(c) && 0 <= pos < |c.top|
    ensures Paired(Complex(c.top[pos := Gap], c.bottom))
  {
  }

  /** An insertion puts a gap opposite the new cell and shifts both strands
      together, so every old pair stays opposite. */
  lemma PairedInsert(a: AminoAcid, st: State)
    requires IsInsertion(a) && Ready(st) && Paired(st.c)
    ensures Paired(ActInsert(a, st).c)
  {
    var r := ActInsert(a, st);
    var n, p := |st.c.top|, st.pos + 1;
    forall i | 0 <= i < n + 1 && IsBase(r.c.top[i]) && IsBase(r.c.bottom[Mirror(i, n + 1)])
      ensures r.c.bottom[Mirror(i, n + 1)] == Complement(r.c.top[i])
    {
      if i < p {
        assert r.c.top[i] == st.c.top[i];
        assert r.c.bottom[Mirror(i, n + 1)] == st.c.bottom[Mirror(i, n)];
      } else if i > p {
        assert r.c.top[i] == st.c.top[i - 1];
        assert r.c.bottom[Mirror(i, n + 1)] == st.c.bottom[Mirror(i - 1, n)];
      }
    }
  }

  /** A search copies across cell by cell, each copy keeping the pairing. */
  lemma {:induction false} PairedScan(a: AminoAcid, top: Strand, bottom: Strand, pos: int, copyMode: bool)
    requires IsSearch(a) && |top| == |bottom| && Indexable(top) && Indexable(bottom)
    requires Paired(Complex(top, bottom))
    ensures Paired(Complex(top, Scan(a, top, bottom, pos, copyMode).0))
    decreases if Moves(a) > 0 then |top| - pos else pos + 1
  {
    if OnStrand(top, pos) {
      var b := if copyMode then CopyOpposite(bottom, top, pos) else bottom;
      if copyMode {
        PairedCopy(Complex(top, bottom), pos);
      }
      if !Matches(a, top[pos]) {
        PairedScan(a, top, b, pos + Moves(a), copyMode);
      }
    }
  }

  /** Every amino acid keeps a paired complex paired. */
  lemma PairedAct(a: AminoAcid, st: State)
    requires a != Non && Ready(st) && Paired(st.c)
    ensures Paired(Act(a, st).c)
  {
    if IsInsertion(a) {
      PairedInsert(a, st);
    } else if IsSearch(a) {
      PairedScan(a, st.c.top, st.c.bottom, st.pos + Moves(a), st.copyMode);
    } else if a == Del {
      PairedDelete(st.c, st.pos);
    } else if a == Swi {
      PairedSwap(st.c);
    }
  }

  /** Running an enzyme on a paired complex leaves it paired: every base the
      engine writes into a strand is the partner of the base opposite it. */
  lemma {:induction false} PairedRun(e: Enzyme, st: State)
    requires Runnable(e) && Ready(st) && Paired(st.c)
    ensures Paired(Run(e, st).final.c)
    decreases |e|
  {
    if e != [] {
      var next := Act(e[0], st);
      PairedAct(e[0], st);
      if OnStrand(next.c.top, next.pos) {
        if next.copyMode {
          PairedCopy(next.c, next.pos);
        }
        PairedRun(e[1..], CopyAfter(next));
      }
    }
  }

  /** j lies strictly behind q on a search from pos in the direction of a. */
  predicate Passed(a: AminoAcid, pos: int, q: int, j: int)
  {
    if Moves(a) > 0 then pos <= j < q else q < j <= pos
  }

  /** A search stops at the nearest cell from pos, in its direction, that
      matches, or at the first gap or strand end before one; every cell it
      passed is a non-matching cell on the strand. */
  lemma {:induction false} ScanFinds(a: AminoAcid, top: Strand, bottom: Strand, pos: int, copyMode: bool)
    requires IsSearch(a) && |top| == |bottom| && Indexable(top) && Indexable(bottom)
    ensures var q := Scan(a, top, bottom, pos, copyMode).1;
            && (if Moves(a) > 0 then pos <= q else q <= pos)
            && (!OnStrand(top, q) || Matches(a, top[q]))
            && forall j :: Passed(a, pos, q, j) ==> OnStrand(top, j) && !Matches(a, top[j])
    decreases if Moves(a) > 0 then |top| - pos else pos + 1
  {
    if OnStrand(top, pos) && !Matches(a, top[pos]) {
      var b := if copyMode then CopyOpposite(bottom, top, pos) else bottom;
      ScanFinds(a, top, b, pos + Moves(a), copyMode);
    }
  }

  /** The cells a search from pos that stopped at q copied across: those it
      passed and, when it is on the strand, the one it stopped at. */
  predicate Visited(a: AminoAcid, top: Strand, pos: int, q: int, j: int)
  {
    (Passed(a, pos, q, j) || j == q) && OnStrand(top, j)
  }

  /** Without copy mode a search leaves the bottom strand alone; with it, each
      visited base has its complement written opposite, and nothing else of
      the bottom strand changes. */
  lemma {:induction false} ScanCopies(a: AminoAcid, top: Strand, bottom: Strand, pos: int, copyMode: bool)
    requires IsSearch(a) && |top| == |bottom| && Indexable(top) && Indexable(bottom)
    ensures var (b, q) := Scan(a, top, bottom, pos, copyMode);
            forall i :: 0 <= i < |bottom| ==>
              b[i] == if copyMode && Visited(a, top, pos, q, Mirror(i, |top|)) && IsBase(top[Mirror(i, |top|)])
                      then Complement(top[Mirror(i, |top|)]) else bottom[i]
    decreases if Moves(a) > 0 then |top| - pos else pos + 1
  {
    var n := |top|;
    var (b, q) := Scan(a, top, bottom, pos, copyMode);
    if OnStrand(top, pos) && !Matches(a, top[pos]) {
      var b1 := if copyMode then CopyOpposite(bottom, top, pos) else bottom;
      ScanCopies(a, top, b1, pos + Moves(a), copyMode);
      ScanFinds(a, top, b1, pos + Moves(a), copyMode);
      assert (b, q) == Scan(a, top, b1, pos + Moves(a), copyMode);
      forall i | 0 <= i < n
        ensures b[i] == if copyMode && Visited(a, top, pos, q, Mirror(i, n)) && IsBase(top[Mirror(i, n)])
                        then Complement(top[Mirror(i, n)]) else bottom[i]
      {
        var j := Mirror(i, n);
        assert Visited(a, top, pos, q, j) <==> j == pos || Visited(a, top, pos + Moves(a), q, j);
        if j == pos {
          assert !Visited(a, top, pos + Moves(a), q, j);
        }
      }
    }
  }

  /** Switching strands twice brings the enzyme back where it was. */
  lemma SwitchTwice(st: State)
    requires Ready(st)
    ensures Ready(Act(Swi, st)) && Act(Swi, Act(Swi, st)) == st
  {
    MirrorInvolutive(st.pos, |st.c.top|);
  }

  /** Cut inserts a gap under the enzyme's next position, so the enzyme falls
      off the strand there and nothing after Cut runs. */
  lemma CutHalts(e: Enzyme, st: State)
    requires Runnable(e) && Ready(st) && e != [] && e[0] == Cut
    ensures var r := Run(e, st);
            r.halted && r.executed == 1 && r.final.pos == st.pos + 1
    ensures var r := Run(e, st);
            r.final.c.top[r.final.pos] == Gap && r.final.c.bottom[Mirror(r.final.pos, |r.final.c.top|)] == Gap
  {
  }

  /** The number of insertion amino acids in e. */
  function Insertions(e: Enzyme): (n: nat)
    ensures n <= |e|
  {
    if e == [] then 0 else (if IsInsertion(e[0]) then 1 else 0) + Insertions(e[1..])
  }

  /** Each insertion amino acid that runs lengthens both strands by one cell;
      nothing else changes their length. */
  lemma {:induction false} RunGrowth(e: Enzyme, st: State)
    requires Runnable(e) && Ready(st)
    ensures var r := Run(e, st);
            |r.final.c.top| == |r.final.c.bottom| == |st.c.top| + Insertions(e[..r.executed])
    decreases |e|
  {
    if e != [] {
      var next := Act(e[0], st);
      if !OnStrand(next.c.top, next.pos) {
        assert e[..1][1..] == [];
      } else {
        var r := Run(e[1..], CopyAfter(next));
        RunGrowth(e[1..], CopyAfter(next));
        assert e[..r.executed + 1][1..] == e[1..][..r.executed];
      }
    }
  }

  /** Running e1 ++ e2 runs e1 and, unless the enzyme fell off the strand,
      then runs e2 from where e1 left off. */
  lemma {:induction false} RunAppend(e1: Enzyme, e2: Enzyme, st: State)
    requires Runnable(e1) && Runnable(e2) && Ready(st)
    ensures Runnable(e1 + e2)
    ensures var r1 := Run(e1, st);
            Run(e1 + e2, st) ==
              if r1.halted then r1
              else
                var r2 := Run(e2, r1.final);
                Outcome(r2.final, r1.executed + r2.executed, r2.halted)
    decreases |e1|
  {
    if e1 == [] {
      assert e1 + e2 == e2;
    } else {
      assert (e1 + e2)[0] == e1[0];
      assert (e1 + e2)[1..] == e1[1..] + e2;
      var next := Act(e1[0], st);
      if OnStrand(next.c.top, next.pos) {
        RunAppend(e1[1..], e2, CopyAfter(next));
      }
    }
  }

  /** Moving along and switching copy mode off change nothing in the complex
      itself. */
  lemma {:induction false} MovesOnly(e: Enzyme, st: State)
    requires Runnable(e) && Ready(st) && !st.copyMode
    requires forall i :: 0 <= i < |e| ==> e[i] in {Mvr, Mvl, Off}
    ensures Run(e, st).final.c == st.c
    decreases |e|
  {
    if e != [] {
      var next := Act(e[0], st);
      if OnStrand(next.c.top, next.pos) {
        MovesOnly(e[1..], CopyAfter(next));
      }
    }
  }
}
