# KenKen ⇄ SMT-LIB translators, modelled in Dafny

The repository solves 7×7 KenKen puzzles with an external SMT solver through two
text translators:

* `kenken2smt.py` reads a puzzle file and writes `puzzle.smt`, an SMT-LIB script
  (SMT-LIB Standard v2.6, section 3.9, Scripts). `read_puzzle` turns the lines of
  the puzzle into *records*:
  * a line containing `#` is a comment;
  * every other line is split at `,` into fragments, and each fragment is split at
    `.` into fields;
  * the record of the k-th fragment of the file is its fields followed by the
    variable name `V<k>`.

  `write_smt` writes the script in this order:
  1. the header;
  2. 49 `Int` declarations and the bounds `0 < Vi < 8`;
  3. an equality per singleton cage;
  4. 7 row and 7 column `distinct` assertions;
  5. the cage assertions written by `operator_function`: a folded equality per
     `+`/`*` cage, and a disjunction over the orderings of the region per `-`/`/`
     cage;
  6. `(check-sat)`, `(get-value (V0 … V48 ))` and `(exit)`.
* `smt2kenken.py` reads the solver's response and writes `solution.txt`:
  * `read_from_smt` stores each line, split at `)`, up to and including the first
    line containing `unsat`;
  * `get_from_smt` takes one token from each of lines 1..49;
  * `write_solution` writes the tokens joined, or `Puzzle is not satisfiable.`.

The model has six modules.

* `Text` holds the Python string operations the code uses: `split`, `join`,
  `strip` and `rstrip` of one character, `re.sub` of one character, `in` on
  strings, and `str(n)`. `strip` is built from two halves, `LStrip` and `RStrip`,
  and `Count` is a helper that gives the number of separators, one less than
  the number of pieces `split` returns.
* `Permutations` holds `itertools.permutations(s, len(s))` as a recursive
  enumeration in the library's order.
* `Output` holds a file opened for writing, as a class whose `text` field `write`
  extends.
* `PuzzleParser` holds `read_puzzle`.
* `Compiler` holds `operator_function` and `write_smt`.
* `Decoder` holds `read_from_smt`, `get_from_smt` and `write_solution`.

The procedures that loop and write are methods with loop invariants. Each is proved
against a function that describes its whole output, and the lemmas state what the
source promises about those functions.

An exception the code can raise is modelled as an explicit outcome rather than a
precondition:
* `Compiler.Emitted` records the text written before an `IndexError` and that the
  program stopped there;
* `Decoder.Extraction` records the line on which `get_from_smt` raises its
  `IndexError`.

What the code does, and what it does not do:
* The decoder does not check that it found 49 values. A response with fewer value
  lines yields fewer values, and a satisfiable response with no value lines is
  reported as "not satisfiable".
* The decoder reads values at fixed token positions, 2 on the first value line and
  3 after it. It does not look for the variable name.
* A `-` or `/` cage of three or more cells makes `write_smt` stop with an
  `IndexError`. The disjunction over all orderings of the region that the loop
  evidently means to write is described under Findings.

## Model

| member | source | states |
|---|---|---|
| Text.Split | kenken2smt.py:23 | `split(sep)` yields one more piece than there are separators |
| Text.SplitPiecesLackSeparator | kenken2smt.py:25 | no piece of a split contains the separator |
| Text.JoinOfSplit | kenken2smt.py:23 | joining the pieces of a split with the separator gives back the string |
| Text.SplitOfJoin | kenken2smt.py:23 | splitting a join of separator-free pieces gives back the pieces |
| Text.SplitAtSeparator | kenken2smt.py:23 | a split distributes over an occurrence of the separator |
| Text.SplitTerminated | kenken2smt.py:100-104 | the items written by a loop, each followed by a separator, split back into those items and a final empty piece |
| Text.LStrip | kenken2smt.py:50 | the left half of `strip(c)` leaves a suffix of the string that does not start with c |
| Text.LStripRemovesOnly | kenken2smt.py:50 | everything the left half of `strip(c)` removes is c |
| Text.RStrip | kenken2smt.py:23 | `rstrip(c)` leaves a prefix of the string that does not end with c |
| Text.RStripRemovesOnly | kenken2smt.py:23 | everything `rstrip(c)` removes is c |
| Text.Strip | kenken2smt.py:50 | the result of `strip(c)` neither starts nor ends with c |
| Text.StripKeepsCharacters | kenken2smt.py:50-53 | `strip(c)` keeps every character other than c, adds none, and changes nothing when c is absent |
| Text.RemoveChar | smt2kenken.py:33 | after `re.sub(c, '', s)` no c is left, the length drops by the number of c's, and a string without c is unchanged |
| Text.RemoveCharSubset | smt2kenken.py:33 | `re.sub(c, '', s)` adds no character |
| Text.RemoveCharAppend | smt2kenken.py:33 | removing a character distributes over concatenation |
| Text.NoInfixWithoutFirstChar | smt2kenken.py:35 | a pattern whose first character never occurs is not `in` the string |
| Text.NatToString | kenken2smt.py:26 | `str(n)` is a non-empty string of digits without a leading zero |
| Text.DecimalValueOfNatToString | kenken2smt.py:26 | reading back the digits of `str(n)` gives n |
| Text.NatToStringInjective | kenken2smt.py:26 | different numbers have different renderings |
| Permutations.OrderingsCount | kenken2smt.py:60 | a region of n members has n! orderings |
| Permutations.OrderingsSound | kenken2smt.py:60 | every ordering is a rearrangement of the region |
| Permutations.OrderingsComplete | kenken2smt.py:60 | every rearrangement of the region is among its orderings |
| Permutations.FirstOrderingIsIdentity | kenken2smt.py:60 | the first ordering is the region in its own order |
| PuzzleParser.ReadPuzzle | kenken2smt.py:17-29 | `read_puzzle` returns the records of the file's fragments, numbered in document order |
| PuzzleParser.TagFragments | kenken2smt.py:24-27 | the inner loop appends one record per fragment of the line, numbered on from the records so far |
| PuzzleParser.Records | kenken2smt.py:24-27 | there is one record per fragment |
| PuzzleParser.LineContribution | kenken2smt.py:20-24 | a line containing `#` contributes no fragment; any other line contributes its comma-separated pieces, in order, wherever it stands |
| PuzzleParser.FragmentsAppend | kenken2smt.py:20-24 | the fragments of consecutive blocks of lines are concatenated |
| PuzzleParser.LineFragmentsRejoin | kenken2smt.py:23 | a data line has one more fragment than commas, and its fragments rejoined with commas give the line without its trailing newlines |
| PuzzleParser.RecordShape | kenken2smt.py:25-27 | record k is the fragment's period-free fields, which rejoin to the fragment, followed by `V<k>`; it has two entries exactly when the fragment has no period |
| PuzzleParser.RecordNamesDistinct | kenken2smt.py:26 | different records carry different names |
| PuzzleParser.NameInjective | kenken2smt.py:26 | `V<j>` and `V<k>` are equal only when j = k |
| PuzzleParser.NameCharacters | kenken2smt.py:26 | a name starts with `V` and holds no space, `)`, newline or `u` |
| PuzzleParser.RecordsWellFormed | kenken2smt.py:25-27 | every record has at least two entries, so each has the first field the compiler reads |
| Compiler.DeclarationLines | kenken2smt.py:100-101 | the declarations are one line per index 0..n-1, in increasing order |
| Compiler.BoundLines | kenken2smt.py:103-104 | the bounds are one line per index 0..n-1, in increasing order |
| Compiler.RecordAssertionKind | kenken2smt.py:106-118 | a record writes a singleton equality exactly when it has three entries and its second field names no operator; it writes a cage assertion exactly when it has three entries and the field names one |
| Compiler.GridCoverage | kenken2smt.py:120-124 | cell k lies in row k/7 and column k%7 and in no other row or column; cells increase along a row and a column |
| Compiler.DistinctLineNames | kenken2smt.py:121 | the names in a `distinct` assertion split back at spaces into the names of its cells |
| Compiler.DistinctLineOneLine | kenken2smt.py:121-124 | a `distinct` assertion fits on one line |
| Compiler.RowAndColumnLines | kenken2smt.py:120-124 | the row assertions are one line per row, in order, and likewise the column assertions |
| Compiler.ValueRequestNames | kenken2smt.py:131-132 | the value request lists V0..Vn-1 in increasing order, each followed by a space |
| Compiler.SiblingIndicesExact | kenken2smt.py:56-58 | the records collected for a cage are exactly the two-entry records with its tag |
| Compiler.SiblingIndicesIncreasing | kenken2smt.py:56-58 | they are collected in document order |
| Compiler.SiblingsAtIndices | kenken2smt.py:56-58 | the t-th collected member is the second entry of the t-th such record |
| Compiler.SiblingsInDocumentOrder | kenken2smt.py:55-58 | a cage's members are exactly the two-entry records with its tag, in document order |
| Compiler.Region | kenken2smt.py:55 | the region starts with the cage's own cell |
| Compiler.CageOperator | kenken2smt.py:47-76 | the operator chosen occurs in the field and is the first of `/`, `-`, `*`, `+` that does |
| Compiler.FoldAssertionParts | kenken2smt.py:77-81 | the folded equality is the opening with the own cell, the members each after a space, and the closing |
| Compiler.OrAssertionBranches | kenken2smt.py:60-67 | for a region of n members the corrected disjunction has n! branches, one for every rearrangement of the region and no other |
| Compiler.ConcatIsJoin | kenken2smt.py:62-66 | the branches written one after another by the loop are their `"".join` |
| Compiler.FactorialVersusN | kenken2smt.py:62-64 | n! equals n for n = 1, 2 and exceeds n from 3 on |
| Compiler.OrderingsLength | kenken2smt.py:60-64 | every ordering has as many members as the region |
| Compiler.BranchesAsWrittenComplete | kenken2smt.py:62-66 | when every ordering has as many members as there are orderings, the branches as written are the full branches |
| Compiler.OrAsWrittenSmallRegion | kenken2smt.py:60-67 | for a region of one or two members the disjunction as written is the intended one |
| Compiler.OrAsWrittenLargeRegion | kenken2smt.py:62-65 | for three or more members the first branch lists the region and then indexes past it, and the program stops |
| Compiler.CageAsWritten | kenken2smt.py:43-81 | a record's cage assertion fails exactly for a `-`/`/` cage of three or more cells, and otherwise is the intended assertion |
| Compiler.CagesFailure | kenken2smt.py:43-84 | `operator_function` fails exactly when some record is such a cage |
| Compiler.CagesAsIntended | kenken2smt.py:43-84 | when it does not fail it writes the intended cage assertions |
| Compiler.ProgramAsWritten | kenken2smt.py:86-137 | `write_smt` fails exactly when some `-`/`/` cage has three or more cells, and otherwise writes the intended script |
| Compiler.WriteEach | kenken2smt.py:100-104 | a `for i in range(n)` loop appends line i for each i, in order |
| Compiler.WriteSingleton | kenken2smt.py:107-118 | the operator test appends the singleton equality of one record, or nothing |
| Compiler.WriteSingletons | kenken2smt.py:106-118 | the singleton loop appends the equalities of all records, in order |
| Compiler.WriteBranch | kenken2smt.py:63-66 | one branch runs its member loop to the count it is given and reports whether it indexed past the ordering |
| Compiler.WriteDisjunction | kenken2smt.py:60-67 | the disjunction writes the branches up to the first failure and reports the failure |
| Compiler.CollectRegion | kenken2smt.py:55-58 | the region is the own cell followed by the cage's members in document order |
| Compiler.WriteMembers | kenken2smt.py:78-80 | the member loop of a `+`/`*` cage appends each member after a space |
| Compiler.WriteDisjunctionCage | kenken2smt.py:47-67 | a `-`/`/` cage strips the operator from the target and writes the disjunction over its region |
| Compiler.WriteFoldCage | kenken2smt.py:70-81 | a `+`/`*` cage writes one folded equality over its own cell and members |
| Compiler.WriteCage | kenken2smt.py:44-84 | one pass of `operator_function` tests `/` and `-` before `*` and `+` |
| Compiler.OperatorFunction | kenken2smt.py:31-84 | `operator_function` appends the cage assertions of all records up to the first failure |
| Compiler.WritePreamble | kenken2smt.py:97-124 | the header, declarations, bounds, singletons, rows and columns, in that order |
| Compiler.WriteTrailer | kenken2smt.py:128-135 | `(check-sat)`, the value request for V0..V48 and `(exit)` |
| Compiler.WriteSmt | kenken2smt.py:86-137 | `write_smt` writes the whole script as written, and reports whether it stopped with an exception |
| Decoder.FieldsRejoin | smt2kenken.py:33-34 | a stored line rejoined with `)` gives the input line without newlines, and no field holds a `)` |
| Decoder.FirstUnsatExact | smt2kenken.py:32-38 | the search finds the first line containing `unsat`, and no earlier line contains it |
| Decoder.ReadLine | smt2kenken.py:33-35 | one pass stores one more field than the line has `)`, none holding `)`, rejoining to the line without newlines, and reports whether `unsat` occurs in it |
| Decoder.ReadFromSmt | smt2kenken.py:18-39 | `read_from_smt` stores the lines up to the first `unsat` line, and reports sat exactly when no line contains `unsat` |
| Decoder.SatisfiableIff | smt2kenken.py:35-38 | the flag stays true exactly when no `unsat` line is found |
| Decoder.StoredLines | smt2kenken.py:32-38 | the stored lines are the input lines' fields in order: all of them when none contains `unsat`, otherwise up to and including the first that does |
| Decoder.GetFromSmt | smt2kenken.py:41-57 | `get_from_smt` yields the loop's values, or the IndexError of the loop |
| Decoder.ValuesFromSolved | smt2kenken.py:54-56 | the loop succeeds exactly when every visited line has its token |
| Decoder.ValuesFromValues | smt2kenken.py:54-56 | a successful loop yields one value per visited line, in line order |
| Decoder.ValuesFromError | smt2kenken.py:54-56 | a failing loop fails on the first visited line that lacks its token |
| Decoder.ExtractOutcome | smt2kenken.py:52-57 | nothing for an unsatisfiable response; otherwise min(49, n-1) values from lines 1.., each at token 2 on line 1 and 3 after, or the first line lacking its token |
| Decoder.WriteSolution | smt2kenken.py:59-74 | `write_solution` writes the chosen text to a fresh file |
| Decoder.SolutionOfDigits | smt2kenken.py:69-74 | one-digit values are written as their digits and a newline; these read back as the values and never equal the message |
| Decoder.JoinOfDigits | smt2kenken.py:71 | joining the renderings of one-digit values gives their digits |
| Decoder.Decode | smt2kenken.py:83-85 | an unsatisfiable response, or one with at most one line, is decoded to the "not satisfiable" message |
| Decoder.ValueTokens | smt2kenken.py:55-56 | a value line's tokens put the value at the position read on that line |
| Decoder.ClosedLineFields | smt2kenken.py:33-34 | a line ending in `)` and a newline is stored as its text before the `)` and an empty field |
| Decoder.ValueLineFields | smt2kenken.py:33-34 | a value line holds no `u` and is stored as its tokens joined, then an empty field |
| Decoder.ResponseLineValue | smt2kenken.py:55-56 | the value is read back from a value line |
| Decoder.ResponseLinesRead | smt2kenken.py:32-56 | no line of a response contains `unsat`, and each value line yields its value |
| Decoder.ExtractExpected | smt2kenken.py:52-57 | when every visited line yields the expected value, the result is exactly the expected values |
| Decoder.StoredValues | smt2kenken.py:30-57 | reading and extracting a satisfiable response whose value lines yield the expected values gives those values |
| Decoder.ResponseExtract | smt2kenken.py:30-57 | a response with 1 to 49 value lines decodes to the rendered values |
| Decoder.RoundTrip | smt2kenken.py:82-85 | a satisfiable response with one value line per cell, in variable order, decodes to the values' digits and a newline |

## Left out

- File and stream plumbing is not modelled. The puzzle file and standard input are
  given as sequences of lines, each with its newline. `puzzle.smt` and
  `solution.txt` are `Output.OutputFile` objects. Opening, closing and flushing are
  not modelled.
- After an exception, the model takes the file's content to be everything written
  before it. Whether buffered text reaches the disk is not modelled.
- CLI glue is not modelled: both `main` functions, `check_argument`, the
  `sys.argv` checks and the `print("UNSAT")` side effect. `Decoder.Decode` composes
  the three decoder steps the way `main` does.
- The SMT solver and the logical meaning of the script are not modelled. The model
  is about the text written and read.
- `re.split(r'\.')` and `re.sub('\n', '', line)` are modelled as a split at `.` and
  the removal of every newline. The `re` engine is not modelled.
- Compiler.WriteSmt: requires that every record has a first field. The code raises an IndexError on an empty record, but `read_puzzle` never produces one (PuzzleParser.RecordsWellFormed).
- Compiler.OperatorFunction: same requirement as Compiler.WriteSmt, for the same reason.
- Compiler.WriteCage: same requirement as Compiler.WriteSmt, for the same reason.
- Compiler.WriteDisjunctionCage: same requirement as Compiler.WriteSmt, for the same reason.
- Compiler.WriteFoldCage: same requirement as Compiler.WriteSmt, for the same reason.
- Compiler.CollectRegion: same requirement as Compiler.WriteSmt, for the same reason.
- Compiler.WriteMembers: same requirement as Compiler.WriteSmt, for the same reason.
- Decoder.RoundTrip: is stated for responses in the `Decoder.ResponseLine` layout with 1 to 49 value lines, because that layout puts each value at the token the decoder reads. Other layouts are covered only by the general lemmas on `Decoder.ValuesFrom` and `Decoder.ExtractOutcome`.
- The output of a real solver is not modelled. The decoder's fixed token positions
  fit a layout in which the value follows two tokens on the first value line
  (`( (V0 v`) and three on the others (`  (Vk v`); this is `Decoder.ResponseLine`.

## Findings

| source | as written | input that shows it | evidently intended | confidence | as-written member | corrected member |
|---|---|---|---|---|---|---|
| kenken2smt.py:64 | The member loop of each branch runs `range(len(permut))`, the number of orderings, not the number of members. For a region of n ≥ 3 members n! > n, so `permut[i][j]` indexes past the ordering and `write_smt` stops with an IndexError after writing a partial branch. | The puzzle line `a.2-,a,a` gives the records `[a, 2-, V0]`, `[a, V1]` and `[a, V2]`. The region has 3 members and 6 orderings, and `permut[0][3]` does not exist. | Each branch lists all members of its ordering (`range(len(region))`), so the disjunction has one full branch per rearrangement of the region. | not executed | Compiler.OrAsWrittenLargeRegion | Compiler.OrAssertionBranches |

The methods model the code as written, including the stop. `Compiler.OrAssertion`,
`Compiler.CorrectedCage` and `Compiler.CorrectedProgram` define the intended
script. `Compiler.ProgramAsWritten` proves two facts about it:
* `write_smt` fails exactly when some `-` or `/` cage has three or more cells;
* in every other case, the script it writes is the intended one.

For regions of one or two members the loop bound is harmless, because n! = n
(`Compiler.OrAsWrittenSmallRegion`).
