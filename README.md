# Typogenetics in Dafny

A model of `typo.go`, a Go implementation of Hofstadter's Typogenetics game, with proofs about it.

The game works on strands of bases (A, C, G, T), where a cell can also be a gap:
- A strand is read two bases at a time. Each pair is a codon for one of 16 amino acids.
- The codon `Non` splits the strand into enzymes.
- An enzyme folds according to the kinks of its amino acids. The fold gives the base the enzyme binds to: its preference.
- Bound at a position of a complex (two strands lying opposite each other), the enzyme runs its amino acids in order. It cuts, deletes, inserts, switches strands, moves, searches for purines or pyrimidines, and in copy mode writes complementary bases onto the opposite strand.
- When the run ends, the complex dissociates into its products: the maximal runs of non-gap cells of each strand.

The modules follow `typo.go` part by part:

- `Tables` (tables.dfy) holds the fixed tables:
  - bases, complement pairing, purines and pyrimidines;
  - the pseudo-codon code;
  - what each amino acid inserts, matches, moves and kinks;
  - the compass-to-base preference table.

  Cells are Go bytes, 0 to 255, and 0 is the gap.
- `Folding` (folding.dfy) covers `Enzyme.Fold`, which is a loop proved against the function `FoldOf`, and `Enzyme.Preference`.
- `Segments` (segments.dfy) defines `Split`, the maximal runs of a sequence between separators, and its laws. Both parsing and product extraction are specified by it.
- `Strands` (strands.dfy) covers `onStrand`, `copyOpposite`, `prepend`, `insert` and `Strand.Enzymes`. `Enzymes` is a loop proved equal to splitting the strand's codons at `Non`.
- `Complexes` (complexes.dfy) covers `NewComplex` and `Complex.Products`. `Products` runs the appending pass (`AppendRuns`) over both strands and is proved equal to the runs of the top strand followed by those of the bottom strand. The counting pass, whose result Go uses only as a capacity, is the separate `CountProducts`, proved to count exactly the products.
- `Engine` (engine.dfy) covers `Enzyme.OperateOn`:
  - a recursive specification: `Act` for one amino acid, `Scan` for the search loop, `Run` for the whole enzyme;
  - the methods `Search`, `Step` and `OperateOn`, which mirror the Go loops and are proved equal to that specification;
  - lemmas about the engine: equal strand lengths, pairing preserved, where a search stops and what it copies, halting, growth, sequencing.
- `Vectors` (vectors.dfy) proves the concrete cases of `typo_test.go` and the worked example of `typo_example_test.go` against the model, one amino acid at a time.

Go's `Complex` is a value type (`[2]Strand`), so it is modelled as a datatype with two sequences. `OperateOn` returns the new complex.

Two points about what `OperateOn` accepts:
- The doc comment of `OperateOn` (typo.go:219-220) says it panics on an enzyme that holds `Non`. The code panics only on reaching one. `Runnable` requires an enzyme free of `Non`, as documented, and `EnzymesRunnable` shows that every parsed enzyme meets it.
- Strands of different lengths make Go panic at once (typo.go:223-225); `OperateOn` requires equal lengths instead.
- The code never checks that the start position holds a base, and neither does the model: any position on the top strand, gap or not, is accepted.

## Model

| member | source | states |
|---|---|---|
| Tables.Index | typo.go:142-150 | the index table gives exactly the four bases an entry other than 0xff, each below 4 |
| Tables.IsPurine | typo.go:166-167 | the predicate itself (A or G); no contract of its own, its laws are in BaseClasses |
| Tables.IsPyrimidine | typo.go:169-170 | the predicate itself (C or T); no contract of its own, its laws are in BaseClasses |
| Tables.Complement | typo.go:72 | a base's partner is a different base, and purines pair with pyrimidines |
| Tables.ComplementInvolutive | typo.go:72 | pairing is symmetric: the partner of the partner is the base itself |
| Tables.BaseClasses | typo.go:166-170 | a byte is a base exactly when it is a purine or a pyrimidine, and never both |
| Tables.Codon | typo.go:75-80 | every amino acid has a pair of bases that decodes to it in the code table |
| Tables.CodonOfDecode | typo.go:75-82 | decoding a pair of bases is one-to-one: the pair is recovered from its amino acid |
| Tables.Decode | typo.go:75-82 | the code table entry at index(x)*4+index(y); only the pair AA decodes to Non |
| Tables.Inserts | typo.go:86-92 | Cut inserts a gap; every other insertion amino acid inserts a base |
| Tables.Moves | typo.go:96-101 | exactly the four search amino acids move, by +1 or -1; every other entry is 0 |
| Tables.Matches | typo.go:103-110 | Rpy and Lpy stop at pyrimidines, Rpu and Lpu at purines; a matching cell is always a base |
| Tables.Kinks | typo.go:112-130 | the table itself, Non having the zero value Straight; no contract |
| Tables.WrapAdd | typo.go:199-202 | reducing the heading mod 4 after each turn equals reducing the total once |
| Tables.BasePreference | typo.go:134-139 | every compass direction prefers a base |
| Folding.KinkSumAppend | typo.go:199-201 | one more amino acid adds its kink to the running sum |
| Folding.Fold | typo.go:187-204 | the loop returns the first segment's direction (the first kink, mod 4) and the last (North plus every kink, the first one included, mod 4) |
| Folding.Preference | typo.go:207-211 | an enzyme's preference is always a base |
| Folding.PreferenceAfterFirst | typo.go:207-211 | the preference is the table entry at East plus the kinks after the first amino acid |
| Folding.FoldAppend | typo.go:199-203 | appending an amino acid keeps the first direction and turns the last by its kink |
| Segments.Split | typo.go:350-368 | every piece is non-empty and free of the separator |
| Segments.ConcatSplit | typo.go:350-368 | joined together, the pieces are the input with every separator taken out, in order |
| Segments.SplitEmpty | typo.go:377-410 | there are no pieces exactly when every element is the separator |
| Segments.SplitMaximal | typo.go:391-407 | every piece is a maximal run of the input: cut off by separators or the ends on both sides |
| Segments.SplitAppend | typo.go:391-407 | a prefix ending in a separator splits independently of what follows it |
| Segments.ScannedStep | typo.go:355-362 | reading one more element either extends the open run or, on a separator, closes it (kept only if non-empty) |
| Segments.ScannedEnd | typo.go:364-366 | at the end of the input the open run, if non-empty, is the last piece |
| Strands.OnStrand | typo.go:305-307 | the predicate itself: pos indexes a cell of s that is not a gap; no contract |
| Strands.MirrorInvolutive | typo.go:246 | the mirror position is an involution that keeps positions in range |
| Strands.Prepend | typo.go:330-332 | the result is the cell followed by the whole strand |
| Strands.Insert | typo.go:334-347 | the result is s[..p] + [b] + s[p..], where p is pos, or len(s)-pos for the opposite strand; p = -1 acts like p = 0 |
| Strands.InsertIndexable | typo.go:334-347 | an insertion lengthens the strand by exactly one cell and introduces no unindexable byte |
| Strands.CopyOpposite | typo.go:324-328 | only the cell opposite pos changes, and only when src[pos] is a base; it gets that base's complement |
| Strands.CopyOppositeInto | typo.go:324-328 | the in-place write leaves the array holding exactly CopyOpposite of its old contents |
| Strands.CopyOppositePairs | typo.go:324-328 | after a copy the two opposite cells pair up |
| Strands.CodonsIgnoreOdd | typo.go:353 | a trailing odd cell is never read, whatever it holds |
| Strands.Enzymes | typo.go:350-368 | the enzymes are the codons split at every Non; each is non-empty and holds no Non |
| Strands.EnzymesConcat | typo.go:350-368 | joined together, the enzymes are the strand's codons with every Non removed, in order |
| Complexes.NewComplex | typo.go:374 | the top strand is the given one, the bottom an all-gap strand of the same length |
| Complexes.CountRuns | typo.go:380-387 | the first pass over a strand counts exactly its maximal non-gap runs |
| Complexes.CountProducts | typo.go:378-388 | the first pass counts exactly the products |
| Complexes.AppendRuns | typo.go:392-406 | the second pass over a strand appends exactly its maximal non-gap runs, in order |
| Complexes.Products | typo.go:377-410 | the products are the runs of the top strand followed by the runs of the bottom strand |
| Complexes.ProductsAreRuns | typo.go:377-410 | every product is non-empty, gap-free, and a maximal run of the strand it came from |
| Complexes.ProductsCells | typo.go:377-410 | joined together, the products are the top strand's non-gap cells followed by the bottom's |
| Complexes.NoProducts | typo.go:377-410 | a complex has no products exactly when every cell of both strands is a gap |
| Complexes.NewComplexProducts | typo.go:374-410 | a fresh complex dissociates into the runs of its strand alone |
| Engine.EnzymesRunnable | typo.go:239-240 | every enzyme a strand codes for is non-empty and holds no Non, so OperateOn runs it |
| Engine.Scan | typo.go:259-270 | a search leaves the bottom strand's length alone and writes no unindexable byte |
| Engine.ActInsert | typo.go:255-258 | an insertion lengthens both strands by one and steps right; the new cell goes under the enzyme and a gap goes at its mirror on the bottom strand |
| Engine.ActSearch | typo.go:259-270 | a search leaves the top strand and copy mode alone |
| Engine.ActSimple | typo.go:241-254 | Del, Swi, Mvr, Mvl, Cop and Off keep both lengths; Cop sets copy mode and Off clears it |
| Engine.Act | typo.go:236-270 | only insertion amino acids change the length, by exactly one cell on each strand |
| Engine.CopyAfter | typo.go:282-284 | the copy after an amino acid changes only the bottom strand and leaves a runnable state |
| Engine.Run | typo.go:231-285 | at most the enzyme's amino acids run; the strands stay equal in length; the run halts exactly when the enzyme has left the strand, and otherwise runs every amino acid |
| Engine.Search | typo.go:260-269 | the search loop computes exactly Scan |
| Engine.Step | typo.go:236-270 | one pass of the switch computes exactly Act |
| Engine.OperateOn | typo.go:221-303 | the loop's result is the final complex of Run, with strands of equal length |
| Engine.NewComplexPaired | typo.go:374 | a fresh complex is paired |
| Engine.PairedCopy | typo.go:324-328 | copying across keeps a complex paired |
| Engine.PairedSwap | typo.go:244-246 | switching strands keeps a complex paired |
| Engine.PairedDelete | typo.go:241-243 | deleting a cell keeps a complex paired |
| Engine.PairedInsert | typo.go:255-258 | an insertion keeps a complex paired: every old pair stays opposite |
| Engine.PairedScan | typo.go:259-270 | a search with or without copying keeps a complex paired |
| Engine.PairedAct | typo.go:236-270 | every amino acid keeps a complex paired |
| Engine.PairedRun | typo.go:231-285 | running an enzyme on a paired complex leaves it paired |
| Engine.ScanFinds | typo.go:259-270 | a search stops at the nearest matching cell in its direction, or at the first gap or end before one; every cell passed is a non-matching base |
| Engine.ScanCopies | typo.go:262-265 | in copy mode each visited base has its complement written opposite; nothing else of the bottom strand changes, and without copy mode nothing does |
| Engine.SwitchTwice | typo.go:244-246 | switching twice restores both strands and the position |
| Engine.CutHalts | typo.go:255-258 | Cut puts a gap under the enzyme's new position and on both strands, so the run halts after it |
| Engine.RunGrowth | typo.go:255-258 | each insertion amino acid that runs adds one cell to each strand; nothing else changes the length |
| Engine.RunAppend | typo.go:231-285 | running e1 followed by e2 runs e1 and, unless it halted, e2 from where e1 left off |
| Engine.MovesOnly | typo.go:247-254 | with copy mode off, moving and clearing copy mode never change the complex |
| Vectors.FoldLong | typo_test.go:17 | the first enzyme of the fold test folds East to East |
| Vectors.FoldBook | typo_test.go:18 | the worked example's enzyme folds West to North |
| Vectors.FoldShort | typo_test.go:19 | the third enzyme of the fold test folds North to South |
| Vectors.PreferenceLong | typo_test.go:35 | that enzyme prefers A |
| Vectors.PreferenceBook | typo_test.go:36 | the worked example's enzyme prefers G |
| Vectors.PreferenceShort | typo_test.go:37 | the third enzyme prefers T |
| Vectors.BookStarts | typo_example_test.go:20-27 | the worked example's strand holds G exactly at cells 2, 8 and 15 |
| Vectors.EnzymesLong | typo_test.go:53 | the first test strand codes for exactly its one enzyme |
| Vectors.EnzymesShort | typo_test.go:54 | the second test strand codes for exactly its one enzyme |
| Vectors.EnzymesNone | typo_test.go:55-56 | "AA" and "AAAA" code for no enzyme |
| Vectors.CopyOppositeCase0 | typo_test.go:73 | copying from a cell holding 'x' changes nothing |
| Vectors.CopyOppositeCase1 | typo_test.go:74 | copying from cell 0 writes A into cell 18, the last |
| Vectors.CopyOppositeCase2 | typo_test.go:75 | copying from cell 1 writes T into cell 17 |
| Vectors.CopyOppositeCase3 | typo_test.go:76 | copying from cell 2 writes C into cell 16 |
| Vectors.CopyOppositeCase4 | typo_test.go:77 | copying from cell 16 writes G into cell 2 |
| Vectors.CopyOppositeCase5 | typo_test.go:78 | copying from cell 17 writes C into cell 1 |
| Vectors.CopyOppositeCase6 | typo_test.go:79 | copying from cell 18 writes T into cell 0 |
| Vectors.PrependCase | typo_test.go:100 | the prepend test vector |
| Vectors.InsertCase0 | typo_test.go:119 | inserting at the end appends |
| Vectors.InsertCase1 | typo_test.go:120 | inserting opposite at the end prepends |
| Vectors.InsertCase2 | typo_test.go:121 | an insertion in the middle |
| Vectors.InsertCase3 | typo_test.go:122 | an opposite insertion in the middle |
| Vectors.InsertCase4 | typo_test.go:123 | the insertion of the worked example's run from cell 8 |
| Vectors.ProductsEmpty | typo_test.go:139 | an empty complex has no products |
| Vectors.ProductsGapped | typo_test.go:140-152 | the products of a complex with gaps at both ends |
| Vectors.ProductsClosed | typo_test.go:154-165 | the products of a complex whose runs touch the strand ends |
| Vectors.BookFrom2 | typo_example_test.go:48-58 | the worked example from cell 2 reaches the final state of its trace |
| Vectors.BookFrom2Products | typo_example_test.go:60 | its products are ATG and TAGACATCCAGTCCATCGA |
| Vectors.BookFrom8 | typo_test.go:184-192 | the worked example from cell 8 runs all eight amino acids and ends in the final state of its trace (typo_example_test.go:62-72) |
| Vectors.BookFrom8Products | typo_test.go:188-191 | its products are ATG and TAGATCCAGTCCACATCGA |
| Vectors.BookFrom15 | typo_test.go:193-196 | the worked example from cell 15 halts after Mvr steps off the end of the strand |
| Vectors.BookFrom15Products | typo_test.go:197-200 | its products are TAGATCCAGTCCATCGAC and G |
| Vectors.ShortFrom2 | typo_test.go:202-205 | the short enzyme from cell 2 runs to the end |
| Vectors.ShortFrom2Products | typo_test.go:206-209 | its products are GC and GATACCGCGCAT |

## Left out

- The debug trace of `OperateOn` (typo.go:226-233, 272-277, 286-300) and every `String` method (typo.go:175-184, 312-322): they format output and do not affect the result.
- Go slice aliasing: `Del`, `copyOpposite` and `insert` can write into the caller's backing arrays, so a strand passed to `OperateOn` is consumed (typo_example_test.go:31-34). The model is value-based: `OperateOn` returns the new complex, and the caller's strands are untouched. `CopyOppositeInto` shows the in-place write itself on an array.
- Slice capacities: the capacity hints of `make` in `Enzymes` and `Products`. `CountProducts` models the first pass of `Products`, whose result is only that capacity.
- `Products` leaving the complex unchanged needs no proof: the complex is a value.
- The function-valued tables and the `init` loop that fills the index table become plain functions over the closed `AminoAcid` datatype. The panic on an unknown amino acid (typo.go:237-238) cannot happen and is not modelled.
- `Example_quine` (typo_example_test.go:87-128): a driver that strings the public operations together, with no logic of its own.
- Strands.Enzymes: requires every codon position to hold a base (`Decodable`). Go computes `index[x]*4+index[y]` in byte arithmetic, so a non-base wraps around to some table entry or panics; this behaviour is not modelled.
- Engine.OperateOn: requires the start position to lie on the top strand (`0 <= pos < len`). Go (with a nil debug buffer) tolerates some out-of-range starts, for instance when the first amino acid moves the position back onto the strand or off it without reading a cell.
- Engine.OperateOn: requires an enzyme with no `Non` (`Runnable`). Go panics only when it reaches a `Non`, so the amino acids before it would still run.
- Engine.OperateOn: requires no cell of either strand to hold 0xff. The 255-entry tables cannot index that byte, and Go would panic only if a copy read it.
- Folding.Fold: requires a non-empty enzyme; Go panics on an empty one (it reads `e[0]`).
- Folding.Preference: requires a non-empty enzyme, because Go's `Preference` calls `Fold` and panics with it on an empty one.
- Engine.OperateOn: requires strands of equal length. Go panics when they differ (typo.go:223-225); the panic itself is not modelled.
- Strands.Insert: requires the insertion index to lie in -1..len(s); outside it Go's slice expressions panic, which is not modelled.
- Strands.CopyOpposite: requires pos to index both strands; outside that Go's indexing panics, which is not modelled.
