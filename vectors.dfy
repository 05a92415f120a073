// Concrete cases of the engine, taken from the repository's own tests
// (typo_test.go) and its worked example (typo_example_test.go), each proved
// of the model by evaluating it step by step.

module Vectors {
  import opened Tables
  import opened Segments
  import opened Strands
  import opened Complexes
  import opened Folding
  import opened Engine

  const Space: byte := ' ' as int
  const Ex: byte := 'x' as int

  /** The enzyme of the worked example and its strand. */
  const Book: Enzyme := [Rpu, Inc, Cop, Mvr, Mvl, Swi, Lpu, Int]
  const BookStrand: Strand := [T, A, G, A, T, C, C, A, G, T, C, C, A, T, C, G, A]
  /** The other enzymes of the tests, and the strands that code for them. */
  const Short: Enzyme := [Ina, Rpu, Cop, Inc, Swi]
  const ShortStrand: Strand := [G, A, T, C, C, G, G, C, A, T]
  const Long: Enzyme := [Rpy, Ina, Rpu, Mvr, Int, Mvl, Cut, Swi, Cop]
  const LongStrand: Strand := [T, A, G, A, T, C, C, A, G, T, C, C, A, C, A, T, C, G, A]

  /** typo_test.go:17: the sum of the kinks of Long. */
  lemma KinkSumLong()
    ensures KinkSum(Long) == 1
  {
    assert KinkSum(Long[8..]) == 1;
    assert KinkSum(Long[7..]) == 2;
    assert KinkSum(Long[6..]) == 2;
    assert KinkSum(Long[5..]) == 2;
    assert KinkSum(Long[4..]) == 1;
    assert KinkSum(Long[3..]) == 1;
    assert KinkSum(Long[2..]) == 0;
    assert KinkSum(Long[1..]) == 0;
    assert KinkSum(Long[0..]) == 1;
    assert Long[0..] == Long;
  }

  lemma FoldLong()
    ensures FoldOf(Long) == (East, East)
  {
    KinkSumLong();
  }

  lemma PreferenceLong()
    ensures Preference(Long) == A
  {
    FoldLong();
  }

  /** typo_test.go:18 and typo_example_test.go:42-44: the sum of the kinks of Book. */
  lemma KinkSumBook()
    ensures KinkSum(Book) == 0
  {
    assert KinkSum(Book[7..]) == -1;
    assert KinkSum(Book[6..]) == -2;
    assert KinkSum(Book[5..]) == -1;
    assert KinkSum(Book[4..]) == -1;
    assert KinkSum(Book[3..]) == -1;
    assert KinkSum(Book[2..]) == 0;
    assert KinkSum(Book[1..]) == 1;
    assert KinkSum(Book[0..]) == 0;
    assert Book[0..] == Book;
  }

  lemma FoldBook()
    ensures FoldOf(Book) == (West, North)
  {
    KinkSumBook();
  }

  lemma PreferenceBook()
    ensures Preference(Book) == G
  {
    FoldBook();
  }

  /** typo_test.go:19: the sum of the kinks of Short. */
  lemma KinkSumShort()
    ensures KinkSum(Short) == 2
  {
    assert KinkSum(Short[4..]) == 1;
    assert KinkSum(Short[3..]) == 2;
    assert KinkSum(Short[2..]) == 3;
    assert KinkSum(Short[1..]) == 2;
    assert KinkSum(Short[0..]) == 2;
    assert Short[0..] == Short;
  }

  lemma FoldShort()
    ensures FoldOf(Short) == (North, South)
  {
    KinkSumShort();
  }

  lemma PreferenceShort()
    ensures Preference(Short) == T
  {
    FoldShort();
  }

  /** The worked example's start positions: the cells of its strand that hold
      the enzyme's preferred base (typo_example_test.go:46 and its output). */
  lemma BookStarts()
    ensures forall i :: 0 <= i < |BookStrand| ==>
              (BookStrand[i] == Preference(Book) <==> i == 2 || i == 8 || i == 15)
  {
    PreferenceBook();
  }

  lemma DecodableLong()
    ensures Decodable(LongStrand)
  {
  }

  lemma CodonsLongPart0()
    requires Decodable(LongStrand)
    ensures forall k :: 0 <= k < 3 ==> Codons(LongStrand)[k] == Long[k]
  {
    assert Codons(LongStrand)[0] == Decode(T, A) == Rpy;
    assert Codons(LongStrand)[1] == Decode(G, A) == Ina;
    assert Codons(LongStrand)[2] == Decode(T, C) == Rpu;
  }

  lemma CodonsLongPart1()
    requires Decodable(LongStrand)
    ensures forall k :: 3 <= k < 6 ==> Codons(LongStrand)[k] == Long[k]
  {
    assert Codons(LongStrand)[3] == Decode(C, A) == Mvr;
    assert Codons(LongStrand)[4] == Decode(G, T) == Int;
    assert Codons(LongStrand)[5] == Decode(C, C) == Mvl;
  }

  lemma CodonsLongPart2()
    requires Decodable(LongStrand)
    ensures forall k :: 6 <= k < 9 ==> Codons(LongStrand)[k] == Long[k]
  {
    assert Codons(LongStrand)[6] == Decode(A, C) == Cut;
    assert Codons(LongStrand)[7] == Decode(A, T) == Swi;
    assert Codons(LongStrand)[8] == Decode(C, G) == Cop;
  }

  lemma CodonsLong()
    requires Decodable(LongStrand)
    ensures Codons(LongStrand) == Long
  {
    CodonsLongPart0();
    CodonsLongPart1();
    CodonsLongPart2();
  }

  /** typo_test.go:53-54: the strand codes for the one enzyme Long. */
  lemma EnzymesLong()
    ensures Decodable(LongStrand) && Split(Codons(LongStrand), Non) == [Long]
  {
    DecodableLong();
    CodonsLong();
    RunAlone(Long, Non);
  }

  lemma DecodableShort()
    ensures Decodable(ShortStrand)
  {
  }

  lemma CodonsShortPart0()
    requires Decodable(ShortStrand)
    ensures forall k :: 0 <= k < 3 ==> Codons(ShortStrand)[k] == Short[k]
  {
    assert Codons(ShortStrand)[0] == Decode(G, A) == Ina;
    assert Codons(ShortStrand)[1] == Decode(T, C) == Rpu;
    assert Codons(ShortStrand)[2] == Decode(C, G) == Cop;
  }

  lemma CodonsShortPart1()
    requires Decodable(ShortStrand)
    ensures forall k :: 3 <= k < 5 ==> Codons(ShortStrand)[k] == Short[k]
  {
    assert Codons(ShortStrand)[3] == Decode(G, C) == Inc;
    assert Codons(ShortStrand)[4] == Decode(A, T) == Swi;
  }

  lemma CodonsShort()
    requires Decodable(ShortStrand)
    ensures Codons(ShortStrand) == Short
  {
    CodonsShortPart0();
    CodonsShortPart1();
  }

  /** typo_test.go:53-54: the strand codes for the one enzyme Short. */
  lemma EnzymesShort()
    ensures Decodable(ShortStrand) && Split(Codons(ShortStrand), Non) == [Short]
  {
    DecodableShort();
    CodonsShort();
    RunAlone(Short, Non);
  }

  /** typo_test.go:55-56: strands of Non codons code for no enzyme. */
  lemma EnzymesNone()
    ensures Decodable([A, A]) && Split(Codons([A, A]), Non) == []
    ensures Decodable([A, A, A, A]) && Split(Codons([A, A, A, A]), Non) == []
  {
    assert Codons([A, A]) == [Non];
    assert Codons([A, A, A, A]) == [Non, Non];
    SplitSepsAt([Non], Non, 0);
    SplitSepsAt([Non, Non], Non, 0);
    assert [Non][0..] == [Non] && [Non, Non][0..] == [Non, Non];
  }

  const Spaces: Strand := [Space, Space, Space, Space, Space, Space, Space, Space, Space, Space, Space, Space, Space, Space, Space, Space, Space, Space, Space]

  /** typo_test.go:73-79: no copy of a cell that is not a base. */
  lemma CopyOppositeCase0()
    ensures CopyOpposite(Spaces, [Ex, A, G, A, T, C, C, A, G, T, C, C, A, C, A, T, C, G, A], 0) == [Space, Space, Space, Space, Space, Space, Space, Space, Space, Space, Space, Space, Space, Space, Space, Space, Space, Space, Space]
  {
  }

  lemma CopyOppositeCase1()
    ensures CopyOpposite(Spaces, LongStrand, 0) == [Space, Space, Space, Space, Space, Space, Space, Space, Space, Space, Space, Space, Space, Space, Space, Space, Space, Space, A]
  {
  }

  lemma CopyOppositeCase2()
    ensures CopyOpposite(Spaces, LongStrand, 1) == [Space, Space, Space, Space, Space, Space, Space, Space, Space, Space, Space, Space, Space, Space, Space, Space, Space, T, Space]
  {
  }

  lemma CopyOppositeCase3()
    ensures CopyOpposite(Spaces, LongStrand, 2) == [Space, Space, Space, Space, Space, Space, Space, Space, Space, Space, Space, Space, Space, Space, Space, Space, C, Space, Space]
  {
  }

  lemma CopyOppositeCase4()
    ensures CopyOpposite(Spaces, LongStrand, 16) == [Space, Space, G, Space, Space, Space, Space, Space, Space, Space, Space, Space, Space, Space, Space, Space, Space, Space, Space]
  {
  }

  lemma CopyOppositeCase5()
    ensures CopyOpposite(Spaces, LongStrand, 17) == [Space, C, Space, Space, Space, Space, Space, Space, Space, Space, Space, Space, Space, Space, Space, Space, Space, Space, Space]
  {
  }

  lemma CopyOppositeCase6()
    ensures CopyOpposite(Spaces, LongStrand, 18) == [T, Space, Space, Space, Space, Space, Space, Space, Space, Space, Space, Space, Space, Space, Space, Space, Space, Space, Space]
  {
  }

  /** typo_test.go:100. */
  lemma PrependCase()
    ensures Prepend(LongStrand, C) == [C, T, A, G, A, T, C, C, A, G, T, C, C, A, C, A, T, C, G, A]
  {
  }

  /** typo_test.go:119-123: appending, prepending from the far end, and
      inserting in the middle of either strand. */
  lemma InsertCase0()
    ensures Insert([A], G, 1, false) == [A, G]
  {
  }

  lemma InsertCase1()
    ensures Insert([A], G, 1, true) == [G, A]
  {
  }

  lemma InsertCase2()
    ensures Insert([A, C, T, G, C], G, 2, false) == [A, C, G, T, G, C]
  {
  }

  lemma InsertCase3()
    ensures Insert([G, C, A, G, T], Space, 2, true) == [G, C, A, Space, G, T]
  {
  }

  lemma InsertCase4()
    ensures Insert(BookStrand, C, 13, false) == [T, A, G, A, T, C, C, A, G, T, C, C, A, C, T, C, G, A]
  {
  }

  /** typo_test.go:139: an empty complex has no products. */
  lemma ProductsEmpty()
    ensures ProductsOf(Complex([], [])) == []
  {
  }

  const GappedTop: Strand := [Gap, Gap, 1, 2, 3, Gap, Gap, 4, Gap, 5]
  const GappedBottom: Strand := [Gap, 6, 7, Gap, 8, Gap, Gap, 9, 10, Gap]
  const ClosedTop: Strand := [1, 2, 3, Gap, Gap, 4, Gap, 5]
  const ClosedBottom: Strand := [6, 7, 8, Gap, Gap, 9, 10, Gap]

  lemma ProductsGappedTopPiece_0()
    ensures Split(GappedTop[0..], Gap) == [GappedTop[2..5]] + Split(GappedTop[5..], Gap)
  {
    SplitPieceAt(GappedTop, Gap, 0, 2, 5);
  }

  lemma ProductsGappedTopPiece_1()
    ensures Split(GappedTop[5..], Gap) == [GappedTop[7..8]] + Split(GappedTop[8..], Gap)
  {
    SplitPieceAt(GappedTop, Gap, 5, 7, 8);
  }

  lemma ProductsGappedTopPiece_2()
    ensures Split(GappedTop[8..], Gap) == [GappedTop[9..10]] + Split(GappedTop[10..], Gap)
  {
    SplitPieceAt(GappedTop, Gap, 8, 9, 10);
  }

  lemma ProductsGappedTopEnd()
    ensures Split(GappedTop[10..], Gap) == []
  {
    SplitSepsAt(GappedTop, Gap, 10);
  }

  lemma ProductsGappedTopRuns()
    ensures GappedTop[2..5] == [1, 2, 3] && GappedTop[7..8] == [4] && GappedTop[9..10] == [5]
  {
  }

  lemma ProductsGappedTop()
    ensures Split(GappedTop, Gap) == [[1, 2, 3], [4], [5]]
  {
    assert GappedTop[0..] == GappedTop;
    ProductsGappedTopPiece_0();
    ProductsGappedTopPiece_1();
    ProductsGappedTopPiece_2();
    ProductsGappedTopEnd();
    ProductsGappedTopRuns();
  }

  lemma ProductsGappedBottomPiece_0()
    ensures Split(GappedBottom[0..], Gap) == [GappedBottom[1..3]] + Split(GappedBottom[3..], Gap)
  {
    SplitPieceAt(GappedBottom, Gap, 0, 1, 3);
  }

  lemma ProductsGappedBottomPiece_1()
    ensures Split(GappedBottom[3..], Gap) == [GappedBottom[4..5]] + Split(GappedBottom[5..], Gap)
  {
    SplitPieceAt(GappedBottom, Gap, 3, 4, 5);
  }

  lemma ProductsGappedBottomPiece_2()
    ensures Split(GappedBottom[5..], Gap) == [GappedBottom[7..9]] + Split(GappedBottom[9..], Gap)
  {
    SplitPieceAt(GappedBottom, Gap, 5, 7, 9);
  }

  lemma ProductsGappedBottomEnd()
    ensures Split(GappedBottom[9..], Gap) == []
  {
    SplitSepsAt(GappedBottom, Gap, 9);
  }

  lemma ProductsGappedBottomRuns()
    ensures GappedBottom[1..3] == [6, 7] && GappedBottom[4..5] == [8] && GappedBottom[7..9] == [9, 10]
  {
  }

  lemma ProductsGappedBottom()
    ensures Split(GappedBottom, Gap) == [[6, 7], [8], [9, 10]]
  {
    assert GappedBottom[0..] == GappedBottom;
    ProductsGappedBottomPiece_0();
    ProductsGappedBottomPiece_1();
    ProductsGappedBottomPiece_2();
    ProductsGappedBottomEnd();
    ProductsGappedBottomRuns();
  }

  /** typo_test.go:140-152. */
  lemma ProductsGapped()
    ensures ProductsOf(Complex(GappedTop, GappedBottom)) == [[1, 2, 3], [4], [5], [6, 7], [8], [9, 10]]
  {
    ProductsGappedTop();
    ProductsGappedBottom();
  }

  lemma ProductsClosedTopPiece_0()
    ensures Split(ClosedTop[0..], Gap) == [ClosedTop[0..3]] + Split(ClosedTop[3..], Gap)
  {
    SplitPieceAt(ClosedTop, Gap, 0, 0, 3);
  }

  lemma ProductsClosedTopPiece_1()
    ensures Split(ClosedTop[3..], Gap) == [ClosedTop[5..6]] + Split(ClosedTop[6..], Gap)
  {
    SplitPieceAt(ClosedTop, Gap, 3, 5, 6);
  }

  lemma ProductsClosedTopPiece_2()
    ensures Split(ClosedTop[6..], Gap) == [ClosedTop[7..8]] + Split(ClosedTop[8..], Gap)
  {
    SplitPieceAt(ClosedTop, Gap, 6, 7, 8);
  }

  lemma ProductsClosedTopEnd()
    ensures Split(ClosedTop[8..], Gap) == []
  {
    SplitSepsAt(ClosedTop, Gap, 8);
  }

  lemma ProductsClosedTopRuns()
    ensures ClosedTop[0..3] == [1, 2, 3] && ClosedTop[5..6] == [4] && ClosedTop[7..8] == [5]
  {
  }

  lemma ProductsClosedTop()
    ensures Split(ClosedTop, Gap) == [[1, 2, 3], [4], [5]]
  {
    assert ClosedTop[0..] == ClosedTop;
    ProductsClosedTopPiece_0();
    ProductsClosedTopPiece_1();
    ProductsClosedTopPiece_2();
    ProductsClosedTopEnd();
    ProductsClosedTopRuns();
  }

  lemma ProductsClosedBottomPiece_0()
    ensures Split(ClosedBottom[0..], Gap) == [ClosedBottom[0..3]] + Split(ClosedBottom[3..], Gap)
  {
    SplitPieceAt(ClosedBottom, Gap, 0, 0, 3);
  }

  lemma ProductsClosedBottomPiece_1()
    ensures Split(ClosedBottom[3..], Gap) == [ClosedBottom[5..7]] + Split(ClosedBottom[7..], Gap)
  {
    SplitPieceAt(ClosedBottom, Gap, 3, 5, 7);
  }

  lemma ProductsClosedBottomEnd()
    ensures Split(ClosedBottom[7..], Gap) == []
  {
    SplitSepsAt(ClosedBottom, Gap, 7);
  }

  lemma ProductsClosedBottomRuns()
    ensures ClosedBottom[0..3] == [6, 7, 8] && ClosedBottom[5..7] == [9, 10]
  {
  }

  lemma ProductsClosedBottom()
    ensures Split(ClosedBottom, Gap) == [[6, 7, 8], [9, 10]]
  {
    assert ClosedBottom[0..] == ClosedBottom;
    ProductsClosedBottomPiece_0();
    ProductsClosedBottomPiece_1();
    ProductsClosedBottomEnd();
    ProductsClosedBottomRuns();
  }

  /** typo_test.go:153-165. */
  lemma ProductsClosed()
    ensures ProductsOf(Complex(ClosedTop, ClosedBottom)) == [[1, 2, 3], [4], [5], [6, 7, 8], [9, 10]]
  {
    ProductsClosedTop();
    ProductsClosedBottom();
  }

  // Each run below is proved one amino acid at a time. Name_i is the state
  // before amino acid i and NameActed_i the state right after it; for each i
  // a lemma evaluates Act (searches one cell at a time, insertions through
  // the slices of the two strands), a lemma evaluates the copy that follows,
  // and NameStep_i moves Run from one state to the next.

  /** One amino acid that leaves the position on the strand: the run goes on
      from the state after it. */
  lemma RunThrough(e: Enzyme, st: State, next: State)
    requires Runnable(e) && Ready(st) && e != []
    requires OnStrand(Act(e[0], st).c.top, Act(e[0], st).pos) && CopyAfter(Act(e[0], st)) == next
    ensures Run(e, st).final == Run(e[1..], next).final
  {
  }

  /** One amino acid that moves the position off the strand: the run ends. */
  lemma RunHalts(e: Enzyme, st: State)
    requires Runnable(e) && Ready(st) && e != []
    requires !OnStrand(Act(e[0], st).c.top, Act(e[0], st).pos)
    ensures Run(e, st).final == Act(e[0], st)
  {
  }

  const BookFrom2_0 := State(Complex([T, A, G, A, T, C, C, A, G, T, C, C, A, T, C, G, A], [Gap, Gap, Gap, Gap, Gap, Gap, Gap, Gap, Gap, Gap, Gap, Gap, Gap, Gap, Gap, Gap, Gap]), 2, false)
  const BookFrom2_1 := State(Complex([T, A, G, A, T, C, C, A, G, T, C, C, A, T, C, G, A], [Gap, Gap, Gap, Gap, Gap, Gap, Gap, Gap, Gap, Gap, Gap, Gap, Gap, Gap, Gap, Gap, Gap]), 3, false)
  const BookFrom2_2 := State(Complex([T, A, G, A, C, T, C, C, A, G, T, C, C, A, T, C, G, A], [Gap, Gap, Gap, Gap, Gap, Gap, Gap, Gap, Gap, Gap, Gap, Gap, Gap, Gap, Gap, Gap, Gap, Gap]), 4, false)
  const BookFrom2_3 := State(Complex([T, A, G, A, C, T, C, C, A, G, T, C, C, A, T, C, G, A], [Gap, Gap, Gap, Gap, Gap, Gap, Gap, Gap, Gap, Gap, Gap, Gap, Gap, G, Gap, Gap, Gap, Gap]), 4, true)
  const BookFrom2_4 := State(Complex([T, A, G, A, C, T, C, C, A, G, T, C, C, A, T, C, G, A], [Gap, Gap, Gap, Gap, Gap, Gap, Gap, Gap, Gap, Gap, Gap, Gap, A, G, Gap, Gap, Gap, Gap]), 5, true)
  const BookFrom2_5 := State(Complex([T, A, G, A, C, T, C, C, A, G, T, C, C, A, T, C, G, A], [Gap, Gap, Gap, Gap, Gap, Gap, Gap, Gap, Gap, Gap, Gap, Gap, A, G, Gap, Gap, Gap, Gap]), 4, true)
  const BookFrom2_6 := State(Complex([Gap, Gap, Gap, Gap, Gap, Gap, Gap, Gap, Gap, Gap, Gap, Gap, A, G, Gap, Gap, Gap, Gap], [T, A, G, A, C, T, C, C, A, G, T, C, C, A, T, C, G, A]), 13, true)
  const BookFrom2_7 := State(Complex([Gap, Gap, Gap, Gap, Gap, Gap, Gap, Gap, Gap, Gap, Gap, Gap, A, G, Gap, Gap, Gap, Gap], [T, A, G, A, C, T, C, C, A, G, T, C, C, A, T, C, G, A]), 12, true)
  const BookFrom2_8 := State(Complex([Gap, Gap, Gap, Gap, Gap, Gap, Gap, Gap, Gap, Gap, Gap, Gap, A, T, G, Gap, Gap, Gap, Gap], [T, A, G, A, C, A, T, C, C, A, G, T, C, C, A, T, C, G, A]), 13, true)
  const BookFrom2Acted_0 := State(Complex([T, A, G, A, T, C, C, A, G, T, C, C, A, T, C, G, A], [Gap, Gap, Gap, Gap, Gap, Gap, Gap, Gap, Gap, Gap, Gap, Gap, Gap, Gap, Gap, Gap, Gap]), 3, false)
  const BookFrom2Acted_1 := State(Complex([T, A, G, A, C, T, C, C, A, G, T, C, C, A, T, C, G, A], [Gap, Gap, Gap, Gap, Gap, Gap, Gap, Gap, Gap, Gap, Gap, Gap, Gap, Gap, Gap, Gap, Gap, Gap]), 4, false)
  const BookFrom2Acted_2 := State(Complex([T, A, G, A, C, T, C, C, A, G, T, C, C, A, T, C, G, A], [Gap, Gap, Gap, Gap, Gap, Gap, Gap, Gap, Gap, Gap, Gap, Gap, Gap, Gap, Gap, Gap, Gap, Gap]), 4, true)
  const BookFrom2Acted_3 := State(Complex([T, A, G, A, C, T, C, C, A, G, T, C, C, A, T, C, G, A], [Gap, Gap, Gap, Gap, Gap, Gap, Gap, Gap, Gap, Gap, Gap, Gap, Gap, G, Gap, Gap, Gap, Gap]), 5, true)
  const BookFrom2Acted_4 := State(Complex([T, A, G, A, C, T, C, C, A, G, T, C, C, A, T, C, G, A], [Gap, Gap, Gap, Gap, Gap, Gap, Gap, Gap, Gap, Gap, Gap, Gap, A, G, Gap, Gap, Gap, Gap]), 4, true)
  const BookFrom2Acted_5 := State(Complex([Gap, Gap, Gap, Gap, Gap, Gap, Gap, Gap, Gap, Gap, Gap, Gap, A, G, Gap, Gap, Gap, Gap], [T, A, G, A, C, T, C, C, A, G, T, C, C, A, T, C, G, A]), 13, true)
  const BookFrom2Acted_6 := State(Complex([Gap, Gap, Gap, Gap, Gap, Gap, Gap, Gap, Gap, Gap, Gap, Gap, A, G, Gap, Gap, Gap, Gap], [T, A, G, A, C, T, C, C, A, G, T, C, C, A, T, C, G, A]), 12, true)
  const BookFrom2Acted_7 := State(Complex([Gap, Gap, Gap, Gap, Gap, Gap, Gap, Gap, Gap, Gap, Gap, Gap, A, T, G, Gap, Gap, Gap, Gap], [T, A, G, A, C, Gap, T, C, C, A, G, T, C, C, A, T, C, G, A]), 13, true)

  lemma BookFrom2Ready_0()
    ensures Ready(BookFrom2_0) && Runnable(Book[0..])
  {
  }

  lemma BookFrom2Ready_1()
    ensures Ready(BookFrom2_1) && Runnable(Book[1..])
  {
  }

  lemma BookFrom2Ready_2()
    ensures Ready(BookFrom2_2) && Runnable(Book[2..])
  {
  }

  lemma BookFrom2Ready_3()
    ensures Ready(BookFrom2_3) && Runnable(Book[3..])
  {
  }

  lemma BookFrom2Ready_4()
    ensures Ready(BookFrom2_4) && Runnable(Book[4..])
  {
  }

  lemma BookFrom2Ready_5()
    ensures Ready(BookFrom2_5) && Runnable(Book[5..])
  {
  }

  lemma BookFrom2Ready_6()
    ensures Ready(BookFrom2_6) && Runnable(Book[6..])
  {
  }

  lemma BookFrom2Ready_7()
    ensures Ready(BookFrom2_7) && Runnable(Book[7..])
  {
  }

  lemma BookFrom2Ready_8()
    ensures Ready(BookFrom2_8) && Runnable(Book[8..])
  {
  }

  lemma BookFrom2Scan_0_0()
    ensures Scan(Rpu, [T, A, G, A, T, C, C, A, G, T, C, C, A, T, C, G, A], [Gap, Gap, Gap, Gap, Gap, Gap, Gap, Gap, Gap, Gap, Gap, Gap, Gap, Gap, Gap, Gap, Gap], 3, false) == ([Gap, Gap, Gap, Gap, Gap, Gap, Gap, Gap, Gap, Gap, Gap, Gap, Gap, Gap, Gap, Gap, Gap], 3)
  {
  }

  lemma BookFrom2Act_0()
    requires Ready(BookFrom2_0)
    ensures Act(Rpu, BookFrom2_0) == BookFrom2Acted_0
  {
    BookFrom2Scan_0_0();
  }

  lemma BookFrom2Next_0()
    ensures OnStrand(BookFrom2Acted_0.c.top, BookFrom2Acted_0.pos)
    ensures Ready(BookFrom2Acted_0) && CopyAfter(BookFrom2Acted_0) == BookFrom2_1
  {
  }

  lemma BookFrom2Step_0()
    requires Ready(BookFrom2_0) && Runnable(Book[0..])
    requires Ready(BookFrom2_1) && Runnable(Book[1..])
    ensures Run(Book[0..], BookFrom2_0).final == Run(Book[1..], BookFrom2_1).final
  {
    BookFrom2Act_0();
    BookFrom2Next_0();
    assert Book[0..][0] == Rpu && Book[0..][1..] == Book[1..];
    RunThrough(Book[0..], BookFrom2_0, BookFrom2_1);
  }

  lemma BookFrom2Slices_1()
    ensures BookFrom2_1.c.top[..4] == [T, A, G, A] && BookFrom2_1.c.top[4..] == [T, C, C, A, G, T, C, C, A, T, C, G, A]
    ensures BookFrom2_1.c.bottom[..13] == [Gap, Gap, Gap, Gap, Gap, Gap, Gap, Gap, Gap, Gap, Gap, Gap, Gap] && BookFrom2_1.c.bottom[13..] == [Gap, Gap, Gap, Gap]
  {
  }

  lemma BookFrom2Top_1()
    ensures [T, A, G, A] + [C] + [T, C, C, A, G, T, C, C, A, T, C, G, A] == BookFrom2Acted_1.c.top
  {
  }

  lemma BookFrom2Bottom_1()
    ensures [Gap, Gap, Gap, Gap, Gap, Gap, Gap, Gap, Gap, Gap, Gap, Gap, Gap] + [Gap] + [Gap, Gap, Gap, Gap] == BookFrom2Acted_1.c.bottom
  {
  }

  lemma BookFrom2Act_1()
    requires Ready(BookFrom2_1)
    ensures Act(Inc, BookFrom2_1) == BookFrom2Acted_1
  {
    BookFrom2Slices_1();
    BookFrom2Top_1();
    BookFrom2Bottom_1();
  }

  lemma BookFrom2Next_1()
    ensures OnStrand(BookFrom2Acted_1.c.top, BookFrom2Acted_1.pos)
    ensures Ready(BookFrom2Acted_1) && CopyAfter(BookFrom2Acted_1) == BookFrom2_2
  {
  }

  lemma BookFrom2Step_1()
    requires Ready(BookFrom2_1) && Runnable(Book[1..])
    requires Ready(BookFrom2_2) && Runnable(Book[2..])
    ensures Run(Book[1..], BookFrom2_1).final == Run(Book[2..], BookFrom2_2).final
  {
    BookFrom2Act_1();
    BookFrom2Next_1();
    assert Book[1..][0] == Inc && Book[1..][1..] == Book[2..];
    RunThrough(Book[1..], BookFrom2_1, BookFrom2_2);
  }

  lemma BookFrom2Act_2()
    requires Ready(BookFrom2_2)
    ensures Act(Cop, BookFrom2_2) == BookFrom2Acted_2
  {
  }

  lemma BookFrom2Next_2()
    ensures OnStrand(BookFrom2Acted_2.c.top, BookFrom2Acted_2.pos)
    ensures Ready(BookFrom2Acted_2) && CopyAfter(BookFrom2Acted_2) == BookFrom2_3
  {
  }

  lemma BookFrom2Step_2()
    requires Ready(BookFrom2_2) && Runnable(Book[2..])
    requires Ready(BookFrom2_3) && Runnable(Book[3..])
    ensures Run(Book[2..], BookFrom2_2).final == Run(Book[3..], BookFrom2_3).final
  {
    BookFrom2Act_2();
    BookFrom2Next_2();
    assert Book[2..][0] == Cop && Book[2..][1..] == Book[3..];
    RunThrough(Book[2..], BookFrom2_2, BookFrom2_3);
  }

  lemma BookFrom2Act_3()
    requires Ready(BookFrom2_3)
    ensures Act(Mvr, BookFrom2_3) == BookFrom2Acted_3
  {
  }

  lemma BookFrom2CopyAfter_3()
    ensures CopyOpposite([Gap, Gap, Gap, Gap, Gap, Gap, Gap, Gap, Gap, Gap, Gap, Gap, Gap, G, Gap, Gap, Gap, Gap], [T, A, G, A, C, T, C, C, A, G, T, C, C, A, T, C, G, A], 5) == [Gap, Gap, Gap, Gap, Gap, Gap, Gap, Gap, Gap, Gap, Gap, Gap, A, G, Gap, Gap, Gap, Gap]
  {
  }

  lemma BookFrom2Next_3()
    ensures OnStrand(BookFrom2Acted_3.c.top, BookFrom2Acted_3.pos)
    ensures Ready(BookFrom2Acted_3) && CopyAfter(BookFrom2Acted_3) == BookFrom2_4
  {
    BookFrom2CopyAfter_3();
  }

  lemma BookFrom2Step_3()
    requires Ready(BookFrom2_3) && Runnable(Book[3..])
    requires Ready(BookFrom2_4) && Runnable(Book[4..])
    ensures Run(Book[3..], BookFrom2_3).final == Run(Book[4..], BookFrom2_4).final
  {
    BookFrom2Act_3();
    BookFrom2Next_3();
    assert Book[3..][0] == Mvr && Book[3..][1..] == Book[4..];
    RunThrough(Book[3..], BookFrom2_3, BookFrom2_4);
  }

  lemma BookFrom2Act_4()
    requires Ready(BookFrom2_4)
    ensures Act(Mvl, BookFrom2_4) == BookFrom2Acted_4
  {
  }

  lemma BookFrom2CopyAfter_4()
    ensures CopyOpposite([Gap, Gap, Gap, Gap, Gap, Gap, Gap, Gap, Gap, Gap, Gap, Gap, A, G, Gap, Gap, Gap, Gap], [T, A, G, A, C, T, C, C, A, G, T, C, C, A, T, C, G, A], 4) == [Gap, Gap, Gap, Gap, Gap, Gap, Gap, Gap, Gap, Gap, Gap, Gap, A, G, Gap, Gap, Gap, Gap]
  {
  }

  lemma BookFrom2Next_4()
    ensures OnStrand(BookFrom2Acted_4.c.top, BookFrom2Acted_4.pos)
    ensures Ready(BookFrom2Acted_4) && CopyAfter(BookFrom2Acted_4) == BookFrom2_5
  {
    BookFrom2CopyAfter_4();
  }

  lemma BookFrom2Step_4()
    requires Ready(BookFrom2_4) && Runnable(Book[4..])
    requires Ready(BookFrom2_5) && Runnable(Book[5..])
    ensures Run(Book[4..], BookFrom2_4).final == Run(Book[5..], BookFrom2_5).final
  {
    BookFrom2Act_4();
    BookFrom2Next_4();
    assert Book[4..][0] == Mvl && Book[4..][1..] == Book[5..];
    RunThrough(Book[4..], BookFrom2_4, BookFrom2_5);
  }

  lemma BookFrom2Act_5()
    requires Ready(BookFrom2_5)
    ensures Act(Swi, BookFrom2_5) == BookFrom2Acted_5
  {
  }

  lemma BookFrom2CopyAfter_5()
    ensures CopyOpposite([T, A, G, A, C, T, C, C, A, G, T, C, C, A, T, C, G, A], [Gap, Gap, Gap, Gap, Gap, Gap, Gap, Gap, Gap, Gap, Gap, Gap, A, G, Gap, Gap, Gap, Gap], 13) == [T, A, G, A, C, T, C, C, A, G, T, C, C, A, T, C, G, A]
  {
  }

  lemma BookFrom2Next_5()
    ensures OnStrand(BookFrom2Acted_5.c.top, BookFrom2Acted_5.pos)
    ensures Ready(BookFrom2Acted_5) && CopyAfter(BookFrom2Acted_5) == BookFrom2_6
  {
    BookFrom2CopyAfter_5();
  }

  lemma BookFrom2Step_5()
    requires Ready(BookFrom2_5) && Runnable(Book[5..])
    requires Ready(BookFrom2_6) && Runnable(Book[6..])
    ensures Run(Book[5..], BookFrom2_5).final == Run(Book[6..], BookFrom2_6).final
  {
    BookFrom2Act_5();
    BookFrom2Next_5();
    assert Book[5..][0] == Swi && Book[5..][1..] == Book[6..];
    RunThrough(Book[5..], BookFrom2_5, BookFrom2_6);
  }

  lemma BookFrom2Copy_6_0()
    ensures CopyOpposite([T, A, G, A, C, T, C, C, A, G, T, C, C, A, T, C, G, A], [Gap, Gap, Gap, Gap, Gap, Gap, Gap, Gap, Gap, Gap, Gap, Gap, A, G, Gap, Gap, Gap, Gap], 12) == [T, A, G, A, C, T, C, C, A, G, T, C, C, A, T, C, G, A]
  {
  }

  lemma BookFrom2Scan_6_0()
    ensures Scan(Lpu, [Gap, Gap, Gap, Gap, Gap, Gap, Gap, Gap, Gap, Gap, Gap, Gap, A, G, Gap, Gap, Gap, Gap], [T, A, G, A, C, T, C, C, A, G, T, C, C, A, T, C, G, A], 12, true) == ([T, A, G, A, C, T, C, C, A, G, T, C, C, A, T, C, G, A], 12)
  {
    BookFrom2Copy_6_0();
  }

  lemma BookFrom2Act_6()
    requires Ready(BookFrom2_6)
    ensures Act(Lpu, BookFrom2_6) == BookFrom2Acted_6
  {
    BookFrom2Scan_6_0();
  }

  lemma BookFrom2CopyAfter_6()
    ensures CopyOpposite([T, A, G, A, C, T, C, C, A, G, T, C, C, A, T, C, G, A], [Gap, Gap, Gap, Gap, Gap, Gap, Gap, Gap, Gap, Gap, Gap, Gap, A, G, Gap, Gap, Gap, Gap], 12) == [T, A, G, A, C, T, C, C, A, G, T, C, C, A, T, C, G, A]
  {
  }

  lemma BookFrom2Next_6()
    ensures OnStrand(BookFrom2Acted_6.c.top, BookFrom2Acted_6.pos)
    ensures Ready(BookFrom2Acted_6) && CopyAfter(BookFrom2Acted_6) == BookFrom2_7
  {
    BookFrom2CopyAfter_6();
  }

  lemma BookFrom2Step_6()
    requires Ready(BookFrom2_6) && Runnable(Book[6..])
    requires Ready(BookFrom2_7) && Runnable(Book[7..])
    ensures Run(Book[6..], BookFrom2_6).final == Run(Book[7..], BookFrom2_7).final
  {
    BookFrom2Act_6();
    BookFrom2Next_6();
    assert Book[6..][0] == Lpu && Book[6..][1..] == Book[7..];
    RunThrough(Book[6..], BookFrom2_6, BookFrom2_7);
  }

  lemma BookFrom2Slices_7()
    ensures BookFrom2_7.c.top[..13] == [Gap, Gap, Gap, Gap, Gap, Gap, Gap, Gap, Gap, Gap, Gap, Gap, A] && BookFrom2_7.c.top[13..] == [G, Gap, Gap, Gap, Gap]
    ensures BookFrom2_7.c.bottom[..5] == [T, A, G, A, C] && BookFrom2_7.c.bottom[5..] == [T, C, C, A, G, T, C, C, A, T, C, G, A]
  {
  }

  lemma BookFrom2Top_7()
    ensures [Gap, Gap, Gap, Gap, Gap, Gap, Gap, Gap, Gap, Gap, Gap, Gap, A] + [T] + [G, Gap, Gap, Gap, Gap] == BookFrom2Acted_7.c.top
  {
  }

  lemma BookFrom2Bottom_7()
    ensures [T, A, G, A, C] + [Gap] + [T, C, C, A, G, T, C, C, A, T, C, G, A] == BookFrom2Acted_7.c.bottom
  {
  }

  lemma BookFrom2Act_7()
    requires Ready(BookFrom2_7)
    ensures Act(Int, BookFrom2_7) == BookFrom2Acted_7
  {
    BookFrom2Slices_7();
    BookFrom2Top_7();
    BookFrom2Bottom_7();
  }

  lemma BookFrom2CopyAfter_7()
    ensures CopyOpposite([T, A, G, A, C, Gap, T, C, C, A, G, T, C, C, A, T, C, G, A], [Gap, Gap, Gap, Gap, Gap, Gap, Gap, Gap, Gap, Gap, Gap, Gap, A, T, G, Gap, Gap, Gap, Gap], 13) == [T, A, G, A, C, A, T, C, C, A, G, T, C, C, A, T, C, G, A]
  {
  }

  lemma BookFrom2Next_7()
    ensures OnStrand(BookFrom2Acted_7.c.top, BookFrom2Acted_7.pos)
    ensures Ready(BookFrom2Acted_7) && CopyAfter(BookFrom2Acted_7) == BookFrom2_8
  {
    BookFrom2CopyAfter_7();
  }

  lemma BookFrom2Step_7()
    requires Ready(BookFrom2_7) && Runnable(Book[7..])
    requires Ready(BookFrom2_8) && Runnable(Book[8..])
    ensures Run(Book[7..], BookFrom2_7).final == Run(Book[8..], BookFrom2_8).final
  {
    BookFrom2Act_7();
    BookFrom2Next_7();
    assert Book[7..][0] == Int && Book[7..][1..] == Book[8..];
    RunThrough(Book[7..], BookFrom2_7, BookFrom2_8);
  }

  /** typo_example_test.go:50-57 and the trace of its output. */
  lemma BookFrom2()
    ensures Run(Book, State(NewComplex(BookStrand), 2, false)).final == BookFrom2_8
  {
    assert NewComplex(BookStrand) == BookFrom2_0.c;
    assert Book[0..] == Book;
    BookFrom2Ready_0();
    BookFrom2Ready_1();
    BookFrom2Ready_2();
    BookFrom2Ready_3();
    BookFrom2Ready_4();
    BookFrom2Ready_5();
    BookFrom2Ready_6();
    BookFrom2Ready_7();
    BookFrom2Ready_8();
    BookFrom2Step_0();
    BookFrom2Step_1();
    BookFrom2Step_2();
    BookFrom2Step_3();
    BookFrom2Step_4();
    BookFrom2Step_5();
    BookFrom2Step_6();
    BookFrom2Step_7();
    assert Book[8..] == [];
  }

  lemma BookFrom2ProductsTopPiece_0()
    ensures Split(BookFrom2_8.c.top[0..], Gap) == [BookFrom2_8.c.top[12..15]] + Split(BookFrom2_8.c.top[15..], Gap)
  {
    SplitPieceAt(BookFrom2_8.c.top, Gap, 0, 12, 15);
  }

  lemma BookFrom2ProductsTopEnd()
    ensures Split(BookFrom2_8.c.top[15..], Gap) == []
  {
    SplitSepsAt(BookFrom2_8.c.top, Gap, 15);
  }

  lemma BookFrom2ProductsTopRuns()
    ensures BookFrom2_8.c.top[12..15] == [A, T, G]
  {
  }

  lemma BookFrom2ProductsTop()
    ensures Split(BookFrom2_8.c.top, Gap) == [[A, T, G]]
  {
    assert BookFrom2_8.c.top[0..] == BookFrom2_8.c.top;
    BookFrom2ProductsTopPiece_0();
    BookFrom2ProductsTopEnd();
    BookFrom2ProductsTopRuns();
  }

  lemma BookFrom2ProductsBottomPiece_0()
    ensures Split(BookFrom2_8.c.bottom[0..], Gap) == [BookFrom2_8.c.bottom[0..19]] + Split(BookFrom2_8.c.bottom[19..], Gap)
  {
    SplitPieceAt(BookFrom2_8.c.bottom, Gap, 0, 0, 19);
  }

  lemma BookFrom2ProductsBottomEnd()
    ensures Split(BookFrom2_8.c.bottom[19..], Gap) == []
  {
    SplitSepsAt(BookFrom2_8.c.bottom, Gap, 19);
  }

  lemma BookFrom2ProductsBottomRuns()
    ensures BookFrom2_8.c.bottom[0..19] == [T, A, G, A, C, A, T, C, C, A, G, T, C, C, A, T, C, G, A]
  {
  }

  lemma BookFrom2ProductsBottom()
    ensures Split(BookFrom2_8.c.bottom, Gap) == [[T, A, G, A, C, A, T, C, C, A, G, T, C, C, A, T, C, G, A]]
  {
    assert BookFrom2_8.c.bottom[0..] == BookFrom2_8.c.bottom;
    BookFrom2ProductsBottomPiece_0();
    BookFrom2ProductsBottomEnd();
    BookFrom2ProductsBottomRuns();
  }

  /** The products of that run. */
  lemma BookFrom2Products()
    ensures ProductsOf(Run(Book, State(NewComplex(BookStrand), 2, false)).final.c) == [[A, T, G], [T, A, G, A, C, A, T, C, C, A, G, T, C, C, A, T, C, G, A]]
  {
    BookFrom2();
    BookFrom2ProductsTop();
    BookFrom2ProductsBottom();
  }

  const BookFrom8_0 := State(Complex([T, A, G, A, T, C, C, A, G, T, C, C, A, T, C, G, A], [Gap, Gap, Gap, Gap, Gap, Gap, Gap, Gap, Gap, Gap, Gap, Gap, Gap, Gap, Gap, Gap, Gap]), 8, false)
  const BookFrom8_1 := State(Complex([T, A, G, A, T, C, C, A, G, T, C, C, A, T, C, G, A], [Gap, Gap, Gap, Gap, Gap, Gap, Gap, Gap, Gap, Gap, Gap, Gap, Gap, Gap, Gap, Gap, Gap]), 12, false)
  const BookFrom8_2 := State(Complex([T, A, G, A, T, C, C, A, G, T, C, C, A, C, T, C, G, A], [Gap, Gap, Gap, Gap, Gap, Gap, Gap, Gap, Gap, Gap, Gap, Gap, Gap, Gap, Gap, Gap, Gap, Gap]), 13, false)
  const BookFrom8_3 := State(Complex([T, A, G, A, T, C, C, A, G, T, C, C, A, C, T, C, G, A], [Gap, Gap, Gap, Gap, G, Gap, Gap, Gap, Gap, Gap, Gap, Gap, Gap, Gap, Gap, Gap, Gap, Gap]), 13, true)
  const BookFrom8_4 := State(Complex([T, A, G, A, T, C, C, A, G, T, C, C, A, C, T, C, G, A], [Gap, Gap, Gap, A, G, Gap, Gap, Gap, Gap, Gap, Gap, Gap, Gap, Gap, Gap, Gap, Gap, Gap]), 14, true)
  const BookFrom8_5 := State(Complex([T, A, G, A, T, C, C, A, G, T, C, C, A, C, T, C, G, A], [Gap, Gap, Gap, A, G, Gap, Gap, Gap, Gap, Gap, Gap, Gap, Gap, Gap, Gap, Gap, Gap, Gap]), 13, true)
  const BookFrom8_6 := State(Complex([Gap, Gap, Gap, A, G, Gap, Gap, Gap, Gap, Gap, Gap, Gap, Gap, Gap, Gap, Gap, Gap, Gap], [T, A, G, A, T, C, C, A, G, T, C, C, A, C, T, C, G, A]), 4, true)
  const BookFrom8_7 := State(Complex([Gap, Gap, Gap, A, G, Gap, Gap, Gap, Gap, Gap, Gap, Gap, Gap, Gap, Gap, Gap, Gap, Gap], [T, A, G, A, T, C, C, A, G, T, C, C, A, C, T, C, G, A]), 3, true)
  const BookFrom8_8 := State(Complex([Gap, Gap, Gap, A, T, G, Gap, Gap, Gap, Gap, Gap, Gap, Gap, Gap, Gap, Gap, Gap, Gap, Gap], [T, A, G, A, T, C, C, A, G, T, C, C, A, C, A, T, C, G, A]), 4, true)
  const BookFrom8Acted_0 := State(Complex([T, A, G, A, T, C, C, A, G, T, C, C, A, T, C, G, A], [Gap, Gap, Gap, Gap, Gap, Gap, Gap, Gap, Gap, Gap, Gap, Gap, Gap, Gap, Gap, Gap, Gap]), 12, false)
  const BookFrom8Acted_1 := State(Complex([T, A, G, A, T, C, C, A, G, T, C, C, A, C, T, C, G, A], [Gap, Gap, Gap, Gap, Gap, Gap, Gap, Gap, Gap, Gap, Gap, Gap, Gap, Gap, Gap, Gap, Gap, Gap]), 13, false)
  const BookFrom8Acted_2 := State(Complex([T, A, G, A, T, C, C, A, G, T, C, C, A, C, T, C, G, A], [Gap, Gap, Gap, Gap, Gap, Gap, Gap, Gap, Gap, Gap, Gap, Gap, Gap, Gap, Gap, Gap, Gap, Gap]), 13, true)
  const BookFrom8Acted_3 := State(Complex([T, A, G, A, T, C, C, A, G, T, C, C, A, C, T, C, G, A], [Gap, Gap, Gap, Gap, G, Gap, Gap, Gap, Gap, Gap, Gap, Gap, Gap, Gap, Gap, Gap, Gap, Gap]), 14, true)
  const BookFrom8Acted_4 := State(Complex([T, A, G, A, T, C, C, A, G, T, C, C, A, C, T, C, G, A], [Gap, Gap, Gap, A, G, Gap, Gap, Gap, Gap, Gap, Gap, Gap, Gap, Gap, Gap, Gap, Gap, Gap]), 13, true)
  const BookFrom8Acted_5 := State(Complex([Gap, Gap, Gap, A, G, Gap, Gap, Gap, Gap, Gap, Gap, Gap, Gap, Gap, Gap, Gap, Gap, Gap], [T, A, G, A, T, C, C, A, G, T, C, C, A, C, T, C, G, A]), 4, true)
  const BookFrom8Acted_6 := State(Complex([Gap, Gap, Gap, A, G, Gap, Gap, Gap, Gap, Gap, Gap, Gap, Gap, Gap, Gap, Gap, Gap, Gap], [T, A, G, A, T, C, C, A, G, T, C, C, A, C, T, C, G, A]), 3, true)
  const BookFrom8Acted_7 := State(Complex([Gap, Gap, Gap, A, T, G, Gap, Gap, Gap, Gap, Gap, Gap, Gap, Gap, Gap, Gap, Gap, Gap, Gap], [T, A, G, A, T, C, C, A, G, T, C, C, A, C, Gap, T, C, G, A]), 4, true)

  lemma BookFrom8Ready_0()
    ensures Ready(BookFrom8_0) && Runnable(Book[0..])
  {
  }

  lemma BookFrom8Ready_1()
    ensures Ready(BookFrom8_1) && Runnable(Book[1..])
  {
  }

  lemma BookFrom8Ready_2()
    ensures Ready(BookFrom8_2) && Runnable(Book[2..])
  {
  }

  lemma BookFrom8Ready_3()
    ensures Ready(BookFrom8_3) && Runnable(Book[3..])
  {
  }

  lemma BookFrom8Ready_4()
    ensures Ready(BookFrom8_4) && Runnable(Book[4..])
  {
  }

  lemma BookFrom8Ready_5()
    ensures Ready(BookFrom8_5) && Runnable(Book[5..])
  {
  }

  lemma BookFrom8Ready_6()
    ensures Ready(BookFrom8_6) && Runnable(Book[6..])
  {
  }

  lemma BookFrom8Ready_7()
    ensures Ready(BookFrom8_7) && Runnable(Book[7..])
  {
  }

  lemma BookFrom8Ready_8()
    ensures Ready(BookFrom8_8) && Runnable(Book[8..])
  {
  }

  lemma BookFrom8Scan_0_3()
    ensures Scan(Rpu, [T, A, G, A, T, C, C, A, G, T, C, C, A, T, C, G, A], [Gap, Gap, Gap, Gap, Gap, Gap, Gap, Gap, Gap, Gap, Gap, Gap, Gap, Gap, Gap, Gap, Gap], 12, false) == ([Gap, Gap, Gap, Gap, Gap, Gap, Gap, Gap, Gap, Gap, Gap, Gap, Gap, Gap, Gap, Gap, Gap], 12)
  {
  }

  lemma BookFrom8Scan_0_2()
    ensures Scan(Rpu, [T, A, G, A, T, C, C, A, G, T, C, C, A, T, C, G, A], [Gap, Gap, Gap, Gap, Gap, Gap, Gap, Gap, Gap, Gap, Gap, Gap, Gap, Gap, Gap, Gap, Gap], 11, false) == ([Gap, Gap, Gap, Gap, Gap, Gap, Gap, Gap, Gap, Gap, Gap, Gap, Gap, Gap, Gap, Gap, Gap], 12)
  {
    BookFrom8Scan_0_3();
  }

  lemma BookFrom8Scan_0_1()
    ensures Scan(Rpu, [T, A, G, A, T, C, C, A, G, T, C, C, A, T, C, G, A], [Gap, Gap, Gap, Gap, Gap, Gap, Gap, Gap, Gap, Gap, Gap, Gap, Gap, Gap, Gap, Gap, Gap], 10, false) == ([Gap, Gap, Gap, Gap, Gap, Gap, Gap, Gap, Gap, Gap, Gap, Gap, Gap, Gap, Gap, Gap, Gap], 12)
  {
    BookFrom8Scan_0_2();
  }

  lemma BookFrom8Scan_0_0()
    ensures Scan(Rpu, [T, A, G, A, T, C, C, A, G, T, C, C, A, T, C, G, A], [Gap, Gap, Gap, Gap, Gap, Gap, Gap, Gap, Gap, Gap, Gap, Gap, Gap, Gap, Gap, Gap, Gap], 9, false) == ([Gap, Gap, Gap, Gap, Gap, Gap, Gap, Gap, Gap, Gap, Gap, Gap, Gap, Gap, Gap, Gap, Gap], 12)
  {
    BookFrom8Scan_0_1();
  }

  lemma BookFrom8Act_0()
    requires Ready(BookFrom8_0)
    ensures Act(Rpu, BookFrom8_0) == BookFrom8Acted_0
  {
    BookFrom8Scan_0_0();
  }

  lemma BookFrom8Next_0()
    ensures OnStrand(BookFrom8Acted_0.c.top, BookFrom8Acted_0.pos)
    ensures Ready(BookFrom8Acted_0) && CopyAfter(BookFrom8Acted_0) == BookFrom8_1
  {
  }

  lemma BookFrom8Step_0()
    requires Ready(BookFrom8_0) && Runnable(Book[0..])
    requires Ready(BookFrom8_1) && Runnable(Book[1..])
    ensures Run(Book[0..], BookFrom8_0).final == Run(Book[1..], BookFrom8_1).final
  {
    BookFrom8Act_0();
    BookFrom8Next_0();
    assert Book[0..][0] == Rpu && Book[0..][1..] == Book[1..];
    RunThrough(Book[0..], BookFrom8_0, BookFrom8_1);
  }

  lemma BookFrom8Slices_1()
    ensures BookFrom8_1.c.top[..13] == [T, A, G, A, T, C, C, A, G, T, C, C, A] && BookFrom8_1.c.top[13..] == [T, C, G, A]
    ensures BookFrom8_1.c.bottom[..4] == [Gap, Gap, Gap, Gap] && BookFrom8_1.c.bottom[4..] == [Gap, Gap, Gap, Gap, Gap, Gap, Gap, Gap, Gap, Gap, Gap, Gap, Gap]
  {
  }

  lemma BookFrom8Top_1()
    ensures [T, A, G, A, T, C, C, A, G, T, C, C, A] + [C] + [T, C, G, A] == BookFrom8Acted_1.c.top
  {
  }

  lemma BookFrom8Bottom_1()
    ensures [Gap, Gap, Gap, Gap] + [Gap] + [Gap, Gap, Gap, Gap, Gap, Gap, Gap, Gap, Gap, Gap, Gap, Gap, Gap] == BookFrom8Acted_1.c.bottom
  {
  }

  lemma BookFrom8Act_1()
    requires Ready(BookFrom8_1)
    ensures Act(Inc, BookFrom8_1) == BookFrom8Acted_1
  {
    BookFrom8Slices_1();
    BookFrom8Top_1();
    BookFrom8Bottom_1();
  }

  lemma BookFrom8Next_1()
    ensures OnStrand(BookFrom8Acted_1.c.top, BookFrom8Acted_1.pos)
    ensures Ready(BookFrom8Acted_1) && CopyAfter(BookFrom8Acted_1) == BookFrom8_2
  {
  }

  lemma BookFrom8Step_1()
    requires Ready(BookFrom8_1) && Runnable(Book[1..])
    requires Ready(BookFrom8_2) && Runnable(Book[2..])
    ensures Run(Book[1..], BookFrom8_1).final == Run(Book[2..], BookFrom8_2).final
  {
    BookFrom8Act_1();
    BookFrom8Next_1();
    assert Book[1..][0] == Inc && Book[1..][1..] == Book[2..];
    RunThrough(Book[1..], BookFrom8_1, BookFrom8_2);
  }

  lemma BookFrom8Act_2()
    requires Ready(BookFrom8_2)
    ensures Act(Cop, BookFrom8_2) == BookFrom8Acted_2
  {
  }

  lemma BookFrom8Next_2()
    ensures OnStrand(BookFrom8Acted_2.c.top, BookFrom8Acted_2.pos)
    ensures Ready(BookFrom8Acted_2) && CopyAfter(BookFrom8Acted_2) == BookFrom8_3
  {
  }

  lemma BookFrom8Step_2()
    requires Ready(BookFrom8_2) && Runnable(Book[2..])
    requires Ready(BookFrom8_3) && Runnable(Book[3..])
    ensures Run(Book[2..], BookFrom8_2).final == Run(Book[3..], BookFrom8_3).final
  {
    BookFrom8Act_2();
    BookFrom8Next_2();
    assert Book[2..][0] == Cop && Book[2..][1..] == Book[3..];
    RunThrough(Book[2..], BookFrom8_2, BookFrom8_3);
  }

  lemma BookFrom8Act_3()
    requires Ready(BookFrom8_3)
    ensures Act(Mvr, BookFrom8_3) == BookFrom8Acted_3
  {
  }

  lemma BookFrom8CopyAfter_3()
    ensures CopyOpposite([Gap, Gap, Gap, Gap, G, Gap, Gap, Gap, Gap, Gap, Gap, Gap, Gap, Gap, Gap, Gap, Gap, Gap], [T, A, G, A, T, C, C, A, G, T, C, C, A, C, T, C, G, A], 14) == [Gap, Gap, Gap, A, G, Gap, Gap, Gap, Gap, Gap, Gap, Gap, Gap, Gap, Gap, Gap, Gap, Gap]
  {
  }

  lemma BookFrom8Next_3()
    ensures OnStrand(BookFrom8Acted_3.c.top, BookFrom8Acted_3.pos)
    ensures Ready(BookFrom8Acted_3) && CopyAfter(BookFrom8Acted_3) == BookFrom8_4
  {
    BookFrom8CopyAfter_3();
  }

  lemma BookFrom8Step_3()
    requires Ready(BookFrom8_3) && Runnable(Book[3..])
    requires Ready(BookFrom8_4) && Runnable(Book[4..])
    ensures Run(Book[3..], BookFrom8_3).final == Run(Book[4..], BookFrom8_4).final
  {
    BookFrom8Act_3();
    BookFrom8Next_3();
    assert Book[3..][0] == Mvr && Book[3..][1..] == Book[4..];
    RunThrough(Book[3..], BookFrom8_3, BookFrom8_4);
  }

  lemma BookFrom8Act_4()
    requires Ready(BookFrom8_4)
    ensures Act(Mvl, BookFrom8_4) == BookFrom8Acted_4
  {
  }

  lemma BookFrom8CopyAfter_4()
    ensures CopyOpposite([Gap, Gap, Gap, A, G, Gap, Gap, Gap, Gap, Gap, Gap, Gap, Gap, Gap, Gap, Gap, Gap, Gap], [T, A, G, A, T, C, C, A, G, T, C, C, A, C, T, C, G, A], 13) == [Gap, Gap, Gap, A, G, Gap, Gap, Gap, Gap, Gap, Gap, Gap, Gap, Gap, Gap, Gap, Gap, Gap]
  {
  }

  lemma BookFrom8Next_4()
    ensures OnStrand(BookFrom8Acted_4.c.top, BookFrom8Acted_4.pos)
    ensures Ready(BookFrom8Acted_4) && CopyAfter(BookFrom8Acted_4) == BookFrom8_5
  {
    BookFrom8CopyAfter_4();
  }

  lemma BookFrom8Step_4()
    requires Ready(BookFrom8_4) && Runnable(Book[4..])
    requires Ready(BookFrom8_5) && Runnable(Book[5..])
    ensures Run(Book[4..], BookFrom8_4).final == Run(Book[5..], BookFrom8_5).final
  {
    BookFrom8Act_4();
    BookFrom8Next_4();
    assert Book[4..][0] == Mvl && Book[4..][1..] == Book[5..];
    RunThrough(Book[4..], BookFrom8_4, BookFrom8_5);
  }

  lemma BookFrom8Act_5()
    requires Ready(BookFrom8_5)
    ensures Act(Swi, BookFrom8_5) == BookFrom8Acted_5
  {
  }

  lemma BookFrom8CopyAfter_5()
    ensures CopyOpposite([T, A, G, A, T, C, C, A, G, T, C, C, A, C, T, C, G, A], [Gap, Gap, Gap, A, G, Gap, Gap, Gap, Gap, Gap, Gap, Gap, Gap, Gap, Gap, Gap, Gap, Gap], 4) == [T, A, G, A, T, C, C, A, G, T, C, C, A, C, T, C, G, A]
  {
  }

  lemma BookFrom8Next_5()
    ensures OnStrand(BookFrom8Acted_5.c.top, BookFrom8Acted_5.pos)
    ensures Ready(BookFrom8Acted_5) && CopyAfter(BookFrom8Acted_5) == BookFrom8_6
  {
    BookFrom8CopyAfter_5();
  }

  lemma BookFrom8Step_5()
    requires Ready(BookFrom8_5) && Runnable(Book[5..])
    requires Ready(BookFrom8_6) && Runnable(Book[6..])
    ensures Run(Book[5..], BookFrom8_5).final == Run(Book[6..], BookFrom8_6).final
  {
    BookFrom8Act_5();
    BookFrom8Next_5();
    assert Book[5..][0] == Swi && Book[5..][1..] == Book[6..];
    RunThrough(Book[5..], BookFrom8_5, BookFrom8_6);
  }

  lemma BookFrom8Copy_6_0()
    ensures CopyOpposite([T, A, G, A, T, C, C, A, G, T, C, C, A, C, T, C, G, A], [Gap, Gap, Gap, A, G, Gap, Gap, Gap, Gap, Gap, Gap, Gap, Gap, Gap, Gap, Gap, Gap, Gap], 3) == [T, A, G, A, T, C, C, A, G, T, C, C, A, C, T, C, G, A]
  {
  }

  lemma BookFrom8Scan_6_0()
    ensures Scan(Lpu, [Gap, Gap, Gap, A, G, Gap, Gap, Gap, Gap, Gap, Gap, Gap, Gap, Gap, Gap, Gap, Gap, Gap], [T, A, G, A, T, C, C, A, G, T, C, C, A, C, T, C, G, A], 3, true) == ([T, A, G, A, T, C, C, A, G, T, C, C, A, C, T, C, G, A], 3)
  {
    BookFrom8Copy_6_0();
  }

  lemma BookFrom8Act_6()
    requires Ready(BookFrom8_6)
    ensures Act(Lpu, BookFrom8_6) == BookFrom8Acted_6
  {
    BookFrom8Scan_6_0();
  }

  lemma BookFrom8CopyAfter_6()
    ensures CopyOpposite([T, A, G, A, T, C, C, A, G, T, C, C, A, C, T, C, G, A], [Gap, Gap, Gap, A, G, Gap, Gap, Gap, Gap, Gap, Gap, Gap, Gap, Gap, Gap, Gap, Gap, Gap], 3) == [T, A, G, A, T, C, C, A, G, T, C, C, A, C, T, C, G, A]
  {
  }

  lemma BookFrom8Next_6()
    ensures OnStrand(BookFrom8Acted_6.c.top, BookFrom8Acted_6.pos)
    ensures Ready(BookFrom8Acted_6) && CopyAfter(BookFrom8Acted_6) == BookFrom8_7
  {
    BookFrom8CopyAfter_6();
  }

  lemma BookFrom8Step_6()
    requires Ready(BookFrom8_6) && Runnable(Book[6..])
    requires Ready(BookFrom8_7) && Runnable(Book[7..])
    ensures Run(Book[6..], BookFrom8_6).final == Run(Book[7..], BookFrom8_7).final
  {
    BookFrom8Act_6();
    BookFrom8Next_6();
    assert Book[6..][0] == Lpu && Book[6..][1..] == Book[7..];
    RunThrough(Book[6..], BookFrom8_6, BookFrom8_7);
  }

  lemma BookFrom8Slices_7()
    ensures BookFrom8_7.c.top[..4] == [Gap, Gap, Gap, A] && BookFrom8_7.c.top[4..] == [G, Gap, Gap, Gap, Gap, Gap, Gap, Gap, Gap, Gap, Gap, Gap, Gap, Gap]
    ensures BookFrom8_7.c.bottom[..14] == [T, A, G, A, T, C, C, A, G, T, C, C, A, C] && BookFrom8_7.c.bottom[14..] == [T, C, G, A]
  {
  }

  lemma BookFrom8Top_7()
    ensures [Gap, Gap, Gap, A] + [T] + [G, Gap, Gap, Gap, Gap, Gap, Gap, Gap, Gap, Gap, Gap, Gap, Gap, Gap] == BookFrom8Acted_7.c.top
  {
  }

  lemma BookFrom8Bottom_7()
    ensures [T, A, G, A, T, C, C, A, G, T, C, C, A, C] + [Gap] + [T, C, G, A] == BookFrom8Acted_7.c.bottom
  {
  }

  lemma BookFrom8Act_7()
    requires Ready(BookFrom8_7)
    ensures Act(Int, BookFrom8_7) == BookFrom8Acted_7
  {
    BookFrom8Slices_7();
    BookFrom8Top_7();
    BookFrom8Bottom_7();
  }

  lemma BookFrom8CopyAfter_7()
    ensures CopyOpposite([T, A, G, A, T, C, C, A, G, T, C, C, A, C, Gap, T, C, G, A], [Gap, Gap, Gap, A, T, G, Gap, Gap, Gap, Gap, Gap, Gap, Gap, Gap, Gap, Gap, Gap, Gap, Gap], 4) == [T, A, G, A, T, C, C, A, G, T, C, C, A, C, A, T, C, G, A]
  {
  }

  lemma BookFrom8Next_7()
    ensures OnStrand(BookFrom8Acted_7.c.top, BookFrom8Acted_7.pos)
    ensures Ready(BookFrom8Acted_7) && CopyAfter(BookFrom8Acted_7) == BookFrom8_8
  {
    BookFrom8CopyAfter_7();
  }

  lemma BookFrom8Step_7()
    requires Ready(BookFrom8_7) && Runnable(Book[7..])
    requires Ready(BookFrom8_8) && Runnable(Book[8..])
    ensures Run(Book[7..], BookFrom8_7).final == Run(Book[8..], BookFrom8_8).final
  {
    BookFrom8Act_7();
    BookFrom8Next_7();
    assert Book[7..][0] == Int && Book[7..][1..] == Book[8..];
    RunThrough(Book[7..], BookFrom8_7, BookFrom8_8);
  }

  /** typo_test.go:184-192. */
  lemma BookFrom8()
    ensures Run(Book, State(NewComplex(BookStrand), 8, false)).final == BookFrom8_8
  {
    assert NewComplex(BookStrand) == BookFrom8_0.c;
    assert Book[0..] == Book;
    BookFrom8Ready_0();
    BookFrom8Ready_1();
    BookFrom8Ready_2();
    BookFrom8Ready_3();
    BookFrom8Ready_4();
    BookFrom8Ready_5();
    BookFrom8Ready_6();
    BookFrom8Ready_7();
    BookFrom8Ready_8();
    BookFrom8Step_0();
    BookFrom8Step_1();
    BookFrom8Step_2();
    BookFrom8Step_3();
    BookFrom8Step_4();
    BookFrom8Step_5();
    BookFrom8Step_6();
    BookFrom8Step_7();
    assert Book[8..] == [];
  }

  lemma BookFrom8ProductsTopPiece_0()
    ensures Split(BookFrom8_8.c.top[0..], Gap) == [BookFrom8_8.c.top[3..6]] + Split(BookFrom8_8.c.top[6..], Gap)
  {
    SplitPieceAt(BookFrom8_8.c.top, Gap, 0, 3, 6);
  }

  lemma BookFrom8ProductsTopEnd()
    ensures Split(BookFrom8_8.c.top[6..], Gap) == []
  {
    SplitSepsAt(BookFrom8_8.c.top, Gap, 6);
  }

  lemma BookFrom8ProductsTopRuns()
    ensures BookFrom8_8.c.top[3..6] == [A, T, G]
  {
  }

  lemma BookFrom8ProductsTop()
    ensures Split(BookFrom8_8.c.top, Gap) == [[A, T, G]]
  {
    assert BookFrom8_8.c.top[0..] == BookFrom8_8.c.top;
    BookFrom8ProductsTopPiece_0();
    BookFrom8ProductsTopEnd();
    BookFrom8ProductsTopRuns();
  }

  lemma BookFrom8ProductsBottomPiece_0()
    ensures Split(BookFrom8_8.c.bottom[0..], Gap) == [BookFrom8_8.c.bottom[0..19]] + Split(BookFrom8_8.c.bottom[19..], Gap)
  {
    SplitPieceAt(BookFrom8_8.c.bottom, Gap, 0, 0, 19);
  }

  lemma BookFrom8ProductsBottomEnd()
    ensures Split(BookFrom8_8.c.bottom[19..], Gap) == []
  {
    SplitSepsAt(BookFrom8_8.c.bottom, Gap, 19);
  }

  lemma BookFrom8ProductsBottomRuns()
    ensures BookFrom8_8.c.bottom[0..19] == [T, A, G, A, T, C, C, A, G, T, C, C, A, C, A, T, C, G, A]
  {
  }

  lemma BookFrom8ProductsBottom()
    ensures Split(BookFrom8_8.c.bottom, Gap) == [[T, A, G, A, T, C, C, A, G, T, C, C, A, C, A, T, C, G, A]]
  {
    assert BookFrom8_8.c.bottom[0..] == BookFrom8_8.c.bottom;
    BookFrom8ProductsBottomPiece_0();
    BookFrom8ProductsBottomEnd();
    BookFrom8ProductsBottomRuns();
  }

  /** The products of that run. */
  lemma BookFrom8Products()
    ensures ProductsOf(Run(Book, State(NewComplex(BookStrand), 8, false)).final.c) == [[A, T, G], [T, A, G, A, T, C, C, A, G, T, C, C, A, C, A, T, C, G, A]]
  {
    BookFrom8();
    BookFrom8ProductsTop();
    BookFrom8ProductsBottom();
  }

  const BookFrom15_0 := State(Complex([T, A, G, A, T, C, C, A, G, T, C, C, A, T, C, G, A], [Gap, Gap, Gap, Gap, Gap, Gap, Gap, Gap, Gap, Gap, Gap, Gap, Gap, Gap, Gap, Gap, Gap]), 15, false)
  const BookFrom15_1 := State(Complex([T, A, G, A, T, C, C, A, G, T, C, C, A, T, C, G, A], [Gap, Gap, Gap, Gap, Gap, Gap, Gap, Gap, Gap, Gap, Gap, Gap, Gap, Gap, Gap, Gap, Gap]), 16, false)
  const BookFrom15_2 := State(Complex([T, A, G, A, T, C, C, A, G, T, C, C, A, T, C, G, A, C], [Gap, Gap, Gap, Gap, Gap, Gap, Gap, Gap, Gap, Gap, Gap, Gap, Gap, Gap, Gap, Gap, Gap, Gap]), 17, false)
  const BookFrom15_3 := State(Complex([T, A, G, A, T, C, C, A, G, T, C, C, A, T, C, G, A, C], [G, Gap, Gap, Gap, Gap, Gap, Gap, Gap, Gap, Gap, Gap, Gap, Gap, Gap, Gap, Gap, Gap, Gap]), 17, true)
  const BookFrom15Acted_0 := State(Complex([T, A, G, A, T, C, C, A, G, T, C, C, A, T, C, G, A], [Gap, Gap, Gap, Gap, Gap, Gap, Gap, Gap, Gap, Gap, Gap, Gap, Gap, Gap, Gap, Gap, Gap]), 16, false)
  const BookFrom15Acted_1 := State(Complex([T, A, G, A, T, C, C, A, G, T, C, C, A, T, C, G, A, C], [Gap, Gap, Gap, Gap, Gap, Gap, Gap, Gap, Gap, Gap, Gap, Gap, Gap, Gap, Gap, Gap, Gap, Gap]), 17, false)
  const BookFrom15Acted_2 := State(Complex([T, A, G, A, T, C, C, A, G, T, C, C, A, T, C, G, A, C], [Gap, Gap, Gap, Gap, Gap, Gap, Gap, Gap, Gap, Gap, Gap, Gap, Gap, Gap, Gap, Gap, Gap, Gap]), 17, true)
  const BookFrom15Acted_3 := State(Complex([T, A, G, A, T, C, C, A, G, T, C, C, A, T, C, G, A, C], [G, Gap, Gap, Gap, Gap, Gap, Gap, Gap, Gap, Gap, Gap, Gap, Gap, Gap, Gap, Gap, Gap, Gap]), 18, true)

  lemma BookFrom15Ready_0()
    ensures Ready(BookFrom15_0) && Runnable(Book[0..])
  {
  }

  lemma BookFrom15Ready_1()
    ensures Ready(BookFrom15_1) && Runnable(Book[1..])
  {
  }

  lemma BookFrom15Ready_2()
    ensures Ready(BookFrom15_2) && Runnable(Book[2..])
  {
  }

  lemma BookFrom15Ready_3()
    ensures Ready(BookFrom15_3) && Runnable(Book[3..])
  {
  }

  lemma BookFrom15Scan_0_0()
    ensures Scan(Rpu, [T, A, G, A, T, C, C, A, G, T, C, C, A, T, C, G, A], [Gap, Gap, Gap, Gap, Gap, Gap, Gap, Gap, Gap, Gap, Gap, Gap, Gap, Gap, Gap, Gap, Gap], 16, false) == ([Gap, Gap, Gap, Gap, Gap, Gap, Gap, Gap, Gap, Gap, Gap, Gap, Gap, Gap, Gap, Gap, Gap], 16)
  {
  }

  lemma BookFrom15Act_0()
    requires Ready(BookFrom15_0)
    ensures Act(Rpu, BookFrom15_0) == BookFrom15Acted_0
  {
    BookFrom15Scan_0_0();
  }

  lemma BookFrom15Next_0()
    ensures OnStrand(BookFrom15Acted_0.c.top, BookFrom15Acted_0.pos)
    ensures Ready(BookFrom15Acted_0) && CopyAfter(BookFrom15Acted_0) == BookFrom15_1
  {
  }

  lemma BookFrom15Step_0()
    requires Ready(BookFrom15_0) && Runnable(Book[0..])
    requires Ready(BookFrom15_1) && Runnable(Book[1..])
    ensures Run(Book[0..], BookFrom15_0).final == Run(Book[1..], BookFrom15_1).final
  {
    BookFrom15Act_0();
    BookFrom15Next_0();
    assert Book[0..][0] == Rpu && Book[0..][1..] == Book[1..];
    RunThrough(Book[0..], BookFrom15_0, BookFrom15_1);
  }

  lemma BookFrom15Slices_1()
    ensures BookFrom15_1.c.top[..17] == [T, A, G, A, T, C, C, A, G, T, C, C, A, T, C, G, A] && BookFrom15_1.c.top[17..] == []
    ensures BookFrom15_1.c.bottom[..0] == [] && BookFrom15_1.c.bottom[0..] == [Gap, Gap, Gap, Gap, Gap, Gap, Gap, Gap, Gap, Gap, Gap, Gap, Gap, Gap, Gap, Gap, Gap]
  {
  }

  lemma BookFrom15Top_1()
    ensures [T, A, G, A, T, C, C, A, G, T, C, C, A, T, C, G, A] + [C] + [] == BookFrom15Acted_1.c.top
  {
  }

  lemma BookFrom15Bottom_1()
    ensures [] + [Gap] + [Gap, Gap, Gap, Gap, Gap, Gap, Gap, Gap, Gap, Gap, Gap, Gap, Gap, Gap, Gap, Gap, Gap] == BookFrom15Acted_1.c.bottom
  {
  }

  lemma BookFrom15Act_1()
    requires Ready(BookFrom15_1)
    ensures Act(Inc, BookFrom15_1) == BookFrom15Acted_1
  {
    BookFrom15Slices_1();
    BookFrom15Top_1();
    BookFrom15Bottom_1();
  }

  lemma BookFrom15Next_1()
    ensures OnStrand(BookFrom15Acted_1.c.top, BookFrom15Acted_1.pos)
    ensures Ready(BookFrom15Acted_1) && CopyAfter(BookFrom15Acted_1) == BookFrom15_2
  {
  }

  lemma BookFrom15Step_1()
    requires Ready(BookFrom15_1) && Runnable(Book[1..])
    requires Ready(BookFrom15_2) && Runnable(Book[2..])
    ensures Run(Book[1..], BookFrom15_1).final == Run(Book[2..], BookFrom15_2).final
  {
    BookFrom15Act_1();
    BookFrom15Next_1();
    assert Book[1..][0] == Inc && Book[1..][1..] == Book[2..];
    RunThrough(Book[1..], BookFrom15_1, BookFrom15_2);
  }

  lemma BookFrom15Act_2()
    requires Ready(BookFrom15_2)
    ensures Act(Cop, BookFrom15_2) == BookFrom15Acted_2
  {
  }

  lemma BookFrom15Next_2()
    ensures OnStrand(BookFrom15Acted_2.c.top, BookFrom15Acted_2.pos)
    ensures Ready(BookFrom15Acted_2) && CopyAfter(BookFrom15Acted_2) == BookFrom15_3
  {
  }

  lemma BookFrom15Step_2()
    requires Ready(BookFrom15_2) && Runnable(Book[2..])
    requires Ready(BookFrom15_3) && Runnable(Book[3..])
    ensures Run(Book[2..], BookFrom15_2).final == Run(Book[3..], BookFrom15_3).final
  {
    BookFrom15Act_2();
    BookFrom15Next_2();
    assert Book[2..][0] == Cop && Book[2..][1..] == Book[3..];
    RunThrough(Book[2..], BookFrom15_2, BookFrom15_3);
  }

  lemma BookFrom15Act_3()
    requires Ready(BookFrom15_3)
    ensures Act(Mvr, BookFrom15_3) == BookFrom15Acted_3
  {
  }

  lemma BookFrom15Step_3()
    requires Ready(BookFrom15_3) && Runnable(Book[3..])
    ensures Run(Book[3..], BookFrom15_3).final == BookFrom15Acted_3
  {
    BookFrom15Act_3();
    assert !OnStrand(BookFrom15Acted_3.c.top, BookFrom15Acted_3.pos);
    assert Book[3..][0] == Mvr;
    RunHalts(Book[3..], BookFrom15_3);
  }

  /** typo_test.go:193-201: the run ends when Mvr steps off the end. */
  lemma BookFrom15()
    ensures Run(Book, State(NewComplex(BookStrand), 15, false)).final == BookFrom15Acted_3
  {
    assert NewComplex(BookStrand) == BookFrom15_0.c;
    assert Book[0..] == Book;
    BookFrom15Ready_0();
    BookFrom15Ready_1();
    BookFrom15Ready_2();
    BookFrom15Ready_3();
    BookFrom15Step_0();
    BookFrom15Step_1();
    BookFrom15Step_2();
    BookFrom15Step_3();
  }

  lemma BookFrom15ProductsTopPiece_0()
    ensures Split(BookFrom15Acted_3.c.top[0..], Gap) == [BookFrom15Acted_3.c.top[0..18]] + Split(BookFrom15Acted_3.c.top[18..], Gap)
  {
    SplitPieceAt(BookFrom15Acted_3.c.top, Gap, 0, 0, 18);
  }

  lemma BookFrom15ProductsTopEnd()
    ensures Split(BookFrom15Acted_3.c.top[18..], Gap) == []
  {
    SplitSepsAt(BookFrom15Acted_3.c.top, Gap, 18);
  }

  lemma BookFrom15ProductsTopRuns()
    ensures BookFrom15Acted_3.c.top[0..18] == [T, A, G, A, T, C, C, A, G, T, C, C, A, T, C, G, A, C]
  {
  }

  lemma BookFrom15ProductsTop()
    ensures Split(BookFrom15Acted_3.c.top, Gap) == [[T, A, G, A, T, C, C, A, G, T, C, C, A, T, C, G, A, C]]
  {
    assert BookFrom15Acted_3.c.top[0..] == BookFrom15Acted_3.c.top;
    BookFrom15ProductsTopPiece_0();
    BookFrom15ProductsTopEnd();
    BookFrom15ProductsTopRuns();
  }

  lemma BookFrom15ProductsBottomPiece_0()
    ensures Split(BookFrom15Acted_3.c.bottom[0..], Gap) == [BookFrom15Acted_3.c.bottom[0..1]] + Split(BookFrom15Acted_3.c.bottom[1..], Gap)
  {
    SplitPieceAt(BookFrom15Acted_3.c.bottom, Gap, 0, 0, 1);
  }

  lemma BookFrom15ProductsBottomEnd()
    ensures Split(BookFrom15Acted_3.c.bottom[1..], Gap) == []
  {
    SplitSepsAt(BookFrom15Acted_3.c.bottom, Gap, 1);
  }

  lemma BookFrom15ProductsBottomRuns()
    ensures BookFrom15Acted_3.c.bottom[0..1] == [G]
  {
  }

  lemma BookFrom15ProductsBottom()
    ensures Split(BookFrom15Acted_3.c.bottom, Gap) == [[G]]
  {
    assert BookFrom15Acted_3.c.bottom[0..] == BookFrom15Acted_3.c.bottom;
    BookFrom15ProductsBottomPiece_0();
    BookFrom15ProductsBottomEnd();
    BookFrom15ProductsBottomRuns();
  }

  /** The products of that run. */
  lemma BookFrom15Products()
    ensures ProductsOf(Run(Book, State(NewComplex(BookStrand), 15, false)).final.c) == [[T, A, G, A, T, C, C, A, G, T, C, C, A, T, C, G, A, C], [G]]
  {
    BookFrom15();
    BookFrom15ProductsTop();
    BookFrom15ProductsBottom();
  }

  const ShortFrom2_0 := State(Complex([G, A, T, C, C, G, G, C, A, T], [Gap, Gap, Gap, Gap, Gap, Gap, Gap, Gap, Gap, Gap]), 2, false)
  const ShortFrom2_1 := State(Complex([G, A, T, A, C, C, G, G, C, A, T], [Gap, Gap, Gap, Gap, Gap, Gap, Gap, Gap, Gap, Gap, Gap]), 3, false)
  const ShortFrom2_2 := State(Complex([G, A, T, A, C, C, G, G, C, A, T], [Gap, Gap, Gap, Gap, Gap, Gap, Gap, Gap, Gap, Gap, Gap]), 6, false)
  const ShortFrom2_3 := State(Complex([G, A, T, A, C, C, G, G, C, A, T], [Gap, Gap, Gap, Gap, C, Gap, Gap, Gap, Gap, Gap, Gap]), 6, true)
  const ShortFrom2_4 := State(Complex([G, A, T, A, C, C, G, C, G, C, A, T], [Gap, Gap, Gap, Gap, G, C, Gap, Gap, Gap, Gap, Gap, Gap]), 7, true)
  const ShortFrom2_5 := State(Complex([Gap, Gap, Gap, Gap, G, C, Gap, Gap, Gap, Gap, Gap, Gap], [G, A, T, A, C, C, G, C, G, C, A, T]), 4, true)
  const ShortFrom2Acted_0 := State(Complex([G, A, T, A, C, C, G, G, C, A, T], [Gap, Gap, Gap, Gap, Gap, Gap, Gap, Gap, Gap, Gap, Gap]), 3, false)
  const ShortFrom2Acted_1 := State(Complex([G, A, T, A, C, C, G, G, C, A, T], [Gap, Gap, Gap, Gap, Gap, Gap, Gap, Gap, Gap, Gap, Gap]), 6, false)
  const ShortFrom2Acted_2 := State(Complex([G, A, T, A, C, C, G, G, C, A, T], [Gap, Gap, Gap, Gap, Gap, Gap, Gap, Gap, Gap, Gap, Gap]), 6, true)
  const ShortFrom2Acted_3 := State(Complex([G, A, T, A, C, C, G, C, G, C, A, T], [Gap, Gap, Gap, Gap, Gap, C, Gap, Gap, Gap, Gap, Gap, Gap]), 7, true)
  const ShortFrom2Acted_4 := State(Complex([Gap, Gap, Gap, Gap, G, C, Gap, Gap, Gap, Gap, Gap, Gap], [G, A, T, A, C, C, G, C, G, C, A, T]), 4, true)

  lemma ShortFrom2Ready_0()
    ensures Ready(ShortFrom2_0) && Runnable(Short[0..])
  {
  }

  lemma ShortFrom2Ready_1()
    ensures Ready(ShortFrom2_1) && Runnable(Short[1..])
  {
  }

  lemma ShortFrom2Ready_2()
    ensures Ready(ShortFrom2_2) && Runnable(Short[2..])
  {
  }

  lemma ShortFrom2Ready_3()
    ensures Ready(ShortFrom2_3) && Runnable(Short[3..])
  {
  }

  lemma ShortFrom2Ready_4()
    ensures Ready(ShortFrom2_4) && Runnable(Short[4..])
  {
  }

  lemma ShortFrom2Ready_5()
    ensures Ready(ShortFrom2_5) && Runnable(Short[5..])
  {
  }

  lemma ShortFrom2Slices_0()
    ensures ShortFrom2_0.c.top[..3] == [G, A, T] && ShortFrom2_0.c.top[3..] == [C, C, G, G, C, A, T]
    ensures ShortFrom2_0.c.bottom[..7] == [Gap, Gap, Gap, Gap, Gap, Gap, Gap] && ShortFrom2_0.c.bottom[7..] == [Gap, Gap, Gap]
  {
  }

  lemma ShortFrom2Top_0()
    ensures [G, A, T] + [A] + [C, C, G, G, C, A, T] == ShortFrom2Acted_0.c.top
  {
  }

  lemma ShortFrom2Bottom_0()
    ensures [Gap, Gap, Gap, Gap, Gap, Gap, Gap] + [Gap] + [Gap, Gap, Gap] == ShortFrom2Acted_0.c.bottom
  {
  }

  lemma ShortFrom2Act_0()
    requires Ready(ShortFrom2_0)
    ensures Act(Ina, ShortFrom2_0) == ShortFrom2Acted_0
  {
    ShortFrom2Slices_0();
    ShortFrom2Top_0();
    ShortFrom2Bottom_0();
  }

  lemma ShortFrom2Next_0()
    ensures OnStrand(ShortFrom2Acted_0.c.top, ShortFrom2Acted_0.pos)
    ensures Ready(ShortFrom2Acted_0) && CopyAfter(ShortFrom2Acted_0) == ShortFrom2_1
  {
  }

  lemma ShortFrom2Step_0()
    requires Ready(ShortFrom2_0) && Runnable(Short[0..])
    requires Ready(ShortFrom2_1) && Runnable(Short[1..])
    ensures Run(Short[0..], ShortFrom2_0).final == Run(Short[1..], ShortFrom2_1).final
  {
    ShortFrom2Act_0();
    ShortFrom2Next_0();
    assert Short[0..][0] == Ina && Short[0..][1..] == Short[1..];
    RunThrough(Short[0..], ShortFrom2_0, ShortFrom2_1);
  }

  lemma ShortFrom2Scan_1_2()
    ensures Scan(Rpu, [G, A, T, A, C, C, G, G, C, A, T], [Gap, Gap, Gap, Gap, Gap, Gap, Gap, Gap, Gap, Gap, Gap], 6, false) == ([Gap, Gap, Gap, Gap, Gap, Gap, Gap, Gap, Gap, Gap, Gap], 6)
  {
  }

  lemma ShortFrom2Scan_1_1()
    ensures Scan(Rpu, [G, A, T, A, C, C, G, G, C, A, T], [Gap, Gap, Gap, Gap, Gap, Gap, Gap, Gap, Gap, Gap, Gap], 5, false) == ([Gap, Gap, Gap, Gap, Gap, Gap, Gap, Gap, Gap, Gap, Gap], 6)
  {
    ShortFrom2Scan_1_2();
  }

  lemma ShortFrom2Scan_1_0()
    ensures Scan(Rpu, [G, A, T, A, C, C, G, G, C, A, T], [Gap, Gap, Gap, Gap, Gap, Gap, Gap, Gap, Gap, Gap, Gap], 4, false) == ([Gap, Gap, Gap, Gap, Gap, Gap, Gap, Gap, Gap, Gap, Gap], 6)
  {
    ShortFrom2Scan_1_1();
  }

  lemma ShortFrom2Act_1()
    requires Ready(ShortFrom2_1)
    ensures Act(Rpu, ShortFrom2_1) == ShortFrom2Acted_1
  {
    ShortFrom2Scan_1_0();
  }

  lemma ShortFrom2Next_1()
    ensures OnStrand(ShortFrom2Acted_1.c.top, ShortFrom2Acted_1.pos)
    ensures Ready(ShortFrom2Acted_1) && CopyAfter(ShortFrom2Acted_1) == ShortFrom2_2
  {
  }

  lemma ShortFrom2Step_1()
    requires Ready(ShortFrom2_1) && Runnable(Short[1..])
    requires Ready(ShortFrom2_2) && Runnable(Short[2..])
    ensures Run(Short[1..], ShortFrom2_1).final == Run(Short[2..], ShortFrom2_2).final
  {
    ShortFrom2Act_1();
    ShortFrom2Next_1();
    assert Short[1..][0] == Rpu && Short[1..][1..] == Short[2..];
    RunThrough(Short[1..], ShortFrom2_1, ShortFrom2_2);
  }

  lemma ShortFrom2Act_2()
    requires Ready(ShortFrom2_2)
    ensures Act(Cop, ShortFrom2_2) == ShortFrom2Acted_2
  {
  }

  lemma ShortFrom2Next_2()
    ensures OnStrand(ShortFrom2Acted_2.c.top, ShortFrom2Acted_2.pos)
    ensures Ready(ShortFrom2Acted_2) && CopyAfter(ShortFrom2Acted_2) == ShortFrom2_3
  {
  }

  lemma ShortFrom2Step_2()
    requires Ready(ShortFrom2_2) && Runnable(Short[2..])
    requires Ready(ShortFrom2_3) && Runnable(Short[3..])
    ensures Run(Short[2..], ShortFrom2_2).final == Run(Short[3..], ShortFrom2_3).final
  {
    ShortFrom2Act_2();
    ShortFrom2Next_2();
    assert Short[2..][0] == Cop && Short[2..][1..] == Short[3..];
    RunThrough(Short[2..], ShortFrom2_2, ShortFrom2_3);
  }

  lemma ShortFrom2Slices_3()
    ensures ShortFrom2_3.c.top[..7] == [G, A, T, A, C, C, G] && ShortFrom2_3.c.top[7..] == [G, C, A, T]
    ensures ShortFrom2_3.c.bottom[..4] == [Gap, Gap, Gap, Gap] && ShortFrom2_3.c.bottom[4..] == [C, Gap, Gap, Gap, Gap, Gap, Gap]
  {
  }

  lemma ShortFrom2Top_3()
    ensures [G, A, T, A, C, C, G] + [C] + [G, C, A, T] == ShortFrom2Acted_3.c.top
  {
  }

  lemma ShortFrom2Bottom_3()
    ensures [Gap, Gap, Gap, Gap] + [Gap] + [C, Gap, Gap, Gap, Gap, Gap, Gap] == ShortFrom2Acted_3.c.bottom
  {
  }

  lemma ShortFrom2Act_3()
    requires Ready(ShortFrom2_3)
    ensures Act(Inc, ShortFrom2_3) == ShortFrom2Acted_3
  {
    ShortFrom2Slices_3();
    ShortFrom2Top_3();
    ShortFrom2Bottom_3();
  }

  lemma ShortFrom2CopyAfter_3()
    ensures CopyOpposite([Gap, Gap, Gap, Gap, Gap, C, Gap, Gap, Gap, Gap, Gap, Gap], [G, A, T, A, C, C, G, C, G, C, A, T], 7) == [Gap, Gap, Gap, Gap, G, C, Gap, Gap, Gap, Gap, Gap, Gap]
  {
  }

  lemma ShortFrom2Next_3()
    ensures OnStrand(ShortFrom2Acted_3.c.top, ShortFrom2Acted_3.pos)
    ensures Ready(ShortFrom2Acted_3) && CopyAfter(ShortFrom2Acted_3) == ShortFrom2_4
  {
    ShortFrom2CopyAfter_3();
  }

  lemma ShortFrom2Step_3()
    requires Ready(ShortFrom2_3) && Runnable(Short[3..])
    requires Ready(ShortFrom2_4) && Runnable(Short[4..])
    ensures Run(Short[3..], ShortFrom2_3).final == Run(Short[4..], ShortFrom2_4).final
  {
    ShortFrom2Act_3();
    ShortFrom2Next_3();
    assert Short[3..][0] == Inc && Short[3..][1..] == Short[4..];
    RunThrough(Short[3..], ShortFrom2_3, ShortFrom2_4);
  }

  lemma ShortFrom2Act_4()
    requires Ready(ShortFrom2_4)
    ensures Act(Swi, ShortFrom2_4) == ShortFrom2Acted_4
  {
  }

  lemma ShortFrom2CopyAfter_4()
    ensures CopyOpposite([G, A, T, A, C, C, G, C, G, C, A, T], [Gap, Gap, Gap, Gap, G, C, Gap, Gap, Gap, Gap, Gap, Gap], 4) == [G, A, T, A, C, C, G, C, G, C, A, T]
  {
  }

  lemma ShortFrom2Next_4()
    ensures OnStrand(ShortFrom2Acted_4.c.top, ShortFrom2Acted_4.pos)
    ensures Ready(ShortFrom2Acted_4) && CopyAfter(ShortFrom2Acted_4) == ShortFrom2_5
  {
    ShortFrom2CopyAfter_4();
  }

  lemma ShortFrom2Step_4()
    requires Ready(ShortFrom2_4) && Runnable(Short[4..])
    requires Ready(ShortFrom2_5) && Runnable(Short[5..])
    ensures Run(Short[4..], ShortFrom2_4).final == Run(Short[5..], ShortFrom2_5).final
  {
    ShortFrom2Act_4();
    ShortFrom2Next_4();
    assert Short[4..][0] == Swi && Short[4..][1..] == Short[5..];
    RunThrough(Short[4..], ShortFrom2_4, ShortFrom2_5);
  }

  /** typo_test.go:202-209. */
  lemma ShortFrom2()
    ensures Run(Short, State(NewComplex(ShortStrand), 2, false)).final == ShortFrom2_5
  {
    assert NewComplex(ShortStrand) == ShortFrom2_0.c;
    assert Short[0..] == Short;
    ShortFrom2Ready_0();
    ShortFrom2Ready_1();
    ShortFrom2Ready_2();
    ShortFrom2Ready_3();
    ShortFrom2Ready_4();
    ShortFrom2Ready_5();
    ShortFrom2Step_0();
    ShortFrom2Step_1();
    ShortFrom2Step_2();
    ShortFrom2Step_3();
    ShortFrom2Step_4();
    assert Short[5..] == [];
  }

  lemma ShortFrom2ProductsTopPiece_0()
    ensures Split(ShortFrom2_5.c.top[0..], Gap) == [ShortFrom2_5.c.top[4..6]] + Split(ShortFrom2_5.c.top[6..], Gap)
  {
    SplitPieceAt(ShortFrom2_5.c.top, Gap, 0, 4, 6);
  }

  lemma ShortFrom2ProductsTopEnd()
    ensures Split(ShortFrom2_5.c.top[6..], Gap) == []
  {
    SplitSepsAt(ShortFrom2_5.c.top, Gap, 6);
  }

  lemma ShortFrom2ProductsTopRuns()
    ensures ShortFrom2_5.c.top[4..6] == [G, C]
  {
  }

  lemma ShortFrom2ProductsTop()
    ensures Split(ShortFrom2_5.c.top, Gap) == [[G, C]]
  {
    assert ShortFrom2_5.c.top[0..] == ShortFrom2_5.c.top;
    ShortFrom2ProductsTopPiece_0();
    ShortFrom2ProductsTopEnd();
    ShortFrom2ProductsTopRuns();
  }

  lemma ShortFrom2ProductsBottomPiece_0()
    ensures Split(ShortFrom2_5.c.bottom[0..], Gap) == [ShortFrom2_5.c.bottom[0..12]] + Split(ShortFrom2_5.c.bottom[12..], Gap)
  {
    SplitPieceAt(ShortFrom2_5.c.bottom, Gap, 0, 0, 12);
  }

  lemma ShortFrom2ProductsBottomEnd()
    ensures Split(ShortFrom2_5.c.bottom[12..], Gap) == []
  {
    SplitSepsAt(ShortFrom2_5.c.bottom, Gap, 12);
  }

  lemma ShortFrom2ProductsBottomRuns()
    ensures ShortFrom2_5.c.bottom[0..12] == [G, A, T, A, C, C, G, C, G, C, A, T]
  {
  }

  lemma ShortFrom2ProductsBottom()
    ensures Split(ShortFrom2_5.c.bottom, Gap) == [[G, A, T, A, C, C, G, C, G, C, A, T]]
  {
    assert ShortFrom2_5.c.bottom[0..] == ShortFrom2_5.c.bottom;
    ShortFrom2ProductsBottomPiece_0();
    ShortFrom2ProductsBottomEnd();
    ShortFrom2ProductsBottomRuns();
  }

  /** The products of that run. */
  lemma ShortFrom2Products()
    ensures ProductsOf(Run(Short, State(NewComplex(ShortStrand), 2, false)).final.c) == [[G, C], [G, A, T, A, C, C, G, C, G, C, A, T]]
  {
    ShortFrom2();
    ShortFrom2ProductsTop();
    ShortFrom2ProductsBottom();
  }
}
