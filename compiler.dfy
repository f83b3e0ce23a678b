/** `operator_function` and `write_smt` of kenken2smt.py: the SMT-LIB script
    (SMT-LIB Standard v2.6, section 3.9, Scripts) written for a list of records.

    The script is, in this order: a header, 49 `Int` declarations V0..V48, the bounds
    0 < Vi < 8, an equality per singleton cage, 7 row and 7 column `distinct`
    assertions, the cage assertions, and `(check-sat)`, `(get-value (V0 ... V48 ))`,
    `(exit)`.

    A `-` or `/` cage is written as a disjunction over the orderings of its region,
    and the loop that writes one ordering runs to the number of orderings instead of
    the region size (kenken2smt.py:64). For a region of three or more members that
    index runs past the ordering and the program stops with an IndexError. The
    functions here therefore return an `Emitted` value: the text written so far and
    whether the program stopped there. */
module Compiler {
  import opened Text
  import opened Permutations
  import opened PuzzleParser
  import opened Output

  /** The text written to the output file, and whether the program raised an
      exception (after which nothing more is written). */
  datatype Emitted = Emitted(text: string, crashed: bool)

  /** The number of cells of the 7x7 grid, and its side. */
  const Cells: nat := 49
  const Side: nat := 7

  /** The header: the logic and the two options, one command per line. */
  const Header: string :=
    SetLogic + ProduceModels + ProduceAssignments
  const SetLogic: string := "(set-logic UFNIA)\n"
  const ProduceModels: string := "(set-option :produce-models true)\n"
  const ProduceAssignments: string := "(set-option :produce-assignments true)\n"

  function DeclarationLine(i: nat): string
  {
    "(declare-const " + Name(i) + " Int)"
  }

  function BoundLine(i: nat): string
  {
    "(assert (and (> " + Name(i) + " 0) (< " + Name(i) + " 8)))"
  }

  /** The cells of row i of the 7x7 grid, left to right. */
  function RowCells(i: nat): (cells: seq<nat>)
    ensures |cells| == 7
  {
    seq(7, j requires 0 <= j < 7 => 7 * i + j)
  }

  /** The cells of column i of the 7x7 grid, top to bottom. */
  function ColumnCells(i: nat): (cells: seq<nat>)
    ensures |cells| == 7
  {
    seq(7, j requires 0 <= j < 7 => j * 7 + i)
  }

  function Names(cells: seq<nat>): (names: seq<string>)
    ensures |names| == |cells|
  {
    seq(|cells|, k requires 0 <= k < |cells| => Name(cells[k]))
  }

  /** `(assert (distinct ...))` over the names of the given cells, space-separated. */
  function DistinctLine(cells: seq<nat>): string
  {
    "(assert (distinct " + Join(Names(cells), " ") + "))"
  }

  function RowLine(i: nat): string
  {
    DistinctLine(RowCells(i))
  }

  function ColumnLine(i: nat): string
  {
    DistinctLine(ColumnCells(i))
  }

  /** The field names one of the four operators. */
  predicate HasOperator(field: string)
  {
    '+' in field || '*' in field || '/' in field || '-' in field
  }

  /** The equality `write_smt` writes for a singleton cage: a three-entry record
      whose second field names no operator. Every other record writes nothing here. */
  function SingletonText(c: Record): string
  {
    if |c| == 3 && !HasOperator(c[1]) then "(assert (= " + c[2] + " " + c[1] + "))\n" else ""
  }

  /** The singleton equalities of records i, i + 1, ..., in order. */
  function Singletons(cs: seq<Record>, i: nat): string
    requires i <= |cs|
    decreases |cs| - i
  {
    if i == |cs| then "" else SingletonText(cs[i]) + Singletons(cs, i + 1)
  }

  /** " " + p[0] + " " + p[1] + ...: the members, each written after a space. */
  function Words(p: seq<string>): string
  {
    if |p| == 0 then "" else " " + p[0] + Words(p[1..])
  }

  lemma WordsCons(x: string, p: seq<string>)
    ensures Words([x] + p) == " " + x + Words(p)
  {
    assert ([x] + p)[1..] == p;
  }

  lemma {:induction false} WordsSnoc(a: seq<string>, x: string)
    ensures Words(a + [x]) == Words(a) + " " + x
  {
    if |a| > 0 {
      assert (a + [x])[1..] == a[1..] + [x];
      WordsSnoc(a[1..], x);
    }
  }

  /** A two-entry record with the given tag: one member cell of that cage. */
  predicate IsSibling(c: Record, tag: string)
  {
    |c| == 2 && c[0] == tag
  }

  /** The member names of the records j, j + 1, ... that belong to `tag`. */
  function Siblings(cs: seq<Record>, tag: string, j: nat): seq<string>
    requires j <= |cs|
    decreases |cs| - j
  {
    if j == |cs| then []
    else if IsSibling(cs[j], tag) then [cs[j][1]] + Siblings(cs, tag, j + 1)
    else Siblings(cs, tag, j + 1)
  }

  /** The positions of those records. */
  function SiblingIndices(cs: seq<Record>, tag: string, j: nat): seq<nat>
    requires j <= |cs|
    decreases |cs| - j
  {
    if j == |cs| then []
    else if IsSibling(cs[j], tag) then [j] + SiblingIndices(cs, tag, j + 1)
    else SiblingIndices(cs, tag, j + 1)
  }

  /** The sibling positions are exactly the two-entry records with the tag. */
  lemma {:induction false} SiblingIndicesExact(cs: seq<Record>, tag: string, j: nat)
    requires j <= |cs|
    ensures forall k :: k in SiblingIndices(cs, tag, j) <==> j <= k < |cs| && IsSibling(cs[k], tag)
    decreases |cs| - j
  {
    if j < |cs| {
      SiblingIndicesExact(cs, tag, j + 1);
    }
  }

  predicate Increasing(s: seq<nat>)
  {
    forall a, b :: 0 <= a < b < |s| ==> s[a] < s[b]
  }

  /** The sibling positions increase: they are in document order. */
  lemma {:induction false} SiblingIndicesIncreasing(cs: seq<Record>, tag: string, j: nat)
    requires j <= |cs|
    ensures Increasing(SiblingIndices(cs, tag, j))
    decreases |cs| - j
  {
    if j < |cs| {
      SiblingIndicesIncreasing(cs, tag, j + 1);
      SiblingIndicesExact(cs, tag, j + 1);
      var rest := SiblingIndices(cs, tag, j + 1);
      if IsSibling(cs[j], tag) {
        var idx := [j] + rest;
        forall a, b | 0 <= a < b < |idx| ensures idx[a] < idx[b] {
          assert idx[b] == rest[b - 1] && rest[b - 1] in rest;
          if a > 0 {
            assert idx[a] == rest[a - 1];
          }
        }
      }
    }
  }

  /** Sibling t is the member name of the record at sibling position t. */
  lemma {:induction false} SiblingsAtIndices(cs: seq<Record>, tag: string, j: nat)
    requires j <= |cs|
    ensures var idx := SiblingIndices(cs, tag, j);
      && |Siblings(cs, tag, j)| == |idx|
      && (forall t :: 0 <= t < |idx| ==>
            idx[t] < |cs| && IsSibling(cs[idx[t]], tag) && Siblings(cs, tag, j)[t] == cs[idx[t]][1])
    decreases |cs| - j
  {
    if j < |cs| {
      SiblingsAtIndices(cs, tag, j + 1);
    }
  }

  /** The siblings are exactly the two-entry records with the tag, taken in
      document order. */
  lemma SiblingsInDocumentOrder(cs: seq<Record>, tag: string)
    ensures var idx := SiblingIndices(cs, tag, 0);
      && (forall k :: k in idx <==> 0 <= k < |cs| && IsSibling(cs[k], tag))
      && Increasing(idx)
      && |Siblings(cs, tag, 0)| == |idx|
      && (forall t :: 0 <= t < |idx| ==>
            idx[t] < |cs| && IsSibling(cs[idx[t]], tag) && Siblings(cs, tag, 0)[t] == cs[idx[t]][1])
  {
    SiblingIndicesExact(cs, tag, 0);
    SiblingIndicesIncreasing(cs, tag, 0);
    SiblingsAtIndices(cs, tag, 0);
  }

  /** The region of a cage: its own cell, then its siblings in document order. */
  function Region(cs: seq<Record>, c: Record): (region: seq<string>)
    requires |c| == 3
    ensures |region| >= 1 && region[0] == c[2]
  {
    [c[2]] + Siblings(cs, c[0], 0)
  }

  /** The operator `operator_function` picks: the first of '/', '-', '*', '+' that
      occurs in the field. */
  function CageOperator(field: string): (op: char)
    requires HasOperator(field)
    ensures op in field
    ensures exists i :: 0 <= i < 4 && op == "/-*+"[i] && forall j :: 0 <= j < i ==> "/-*+"[j] !in field
  {
    var priority := "/-*+";
    if '/' in field || '-' in field then
      if '/' in field then assert priority[0] == '/'; '/'
      else assert priority[1] == '-'; '-'
    else
      if '*' in field then assert priority[2] == '*'; '*'
      else assert priority[3] == '+'; '+'
  }

  /** One branch ` (= result (op m1 m2 ...))` with the first n members of the
      ordering p, as written by kenken2smt.py:63-66: the member loop runs n times,
      so it stops with an IndexError when p has fewer than n members. */
  function BranchAsWritten(result: string, op: string, p: seq<string>, n: nat): Emitted
  {
    if n <= |p| then Emitted(" (= " + result + " (" + op + Words(p[..n]) + "))", false)
    else Emitted(" (= " + result + " (" + op + Words(p), true)
  }

  /** The branches for orderings i, i + 1, ... of `perms`, each written with
      n = |perms| members, up to the first exception. */
  function BranchesAsWritten(result: string, op: string, perms: seq<seq<string>>, i: nat): Emitted
    requires i <= |perms|
    decreases |perms| - i
  {
    if i == |perms| then Emitted("", false)
    else
      var b := BranchAsWritten(result, op, perms[i], |perms|);
      if b.crashed then b
      else
        var rest := BranchesAsWritten(result, op, perms, i + 1);
        Emitted(b.text + rest.text, rest.crashed)
  }

  /** The disjunction of kenken2smt.py:60-67 as written. */
  function OrAsWritten(result: string, op: string, region: seq<string>): Emitted
  {
    var b := BranchesAsWritten(result, op, Orderings(region), 0);
    if b.crashed then Emitted("(assert (or " + b.text, true)
    else Emitted("(assert (or " + b.text + "))\n", false)
  }

  /** The folded equality of a `+` or `*` cage: `(= result (op own siblings...))`. */
  function FoldAssertion(result: string, op: string, region: seq<string>): string
  {
    "(assert (= " + result + " (" + op + Words(region) + "))) \n"
  }

  /** The folded equality, in the pieces `operator_function` writes it. */
  lemma FoldAssertionParts(result: string, op: string, x: string, siblings: seq<string>)
    ensures FoldAssertion(result, op, [x] + siblings)
      == "(assert (= " + result + " (" + op + " " + x + Words(siblings) + "))) \n"
  {
    WordsCons(x, siblings);
  }

  /** What `operator_function` writes for one record. */
  function CageEmission(cs: seq<Record>, c: Record): Emitted
  {
    if |c| != 3 || !HasOperator(c[1]) then Emitted("", false)
    else
      var op := CageOperator(c[1]);
      if op == '/' || op == '-' then OrAsWritten(Strip(c[1], op), [op], Region(cs, c))
      else Emitted(FoldAssertion(Strip(c[1], op), [op], Region(cs, c)), false)
  }

  /** The cage assertions of records i, i + 1, ..., up to the first exception. */
  function CagesFrom(cs: seq<Record>, i: nat): Emitted
    requires i <= |cs|
    decreases |cs| - i
  {
    if i == |cs| then Emitted("", false)
    else
      var e := CageEmission(cs, cs[i]);
      if e.crashed then e
      else
        var rest := CagesFrom(cs, i + 1);
        Emitted(e.text + rest.text, rest.crashed)
  }

  /** Everything `write_smt` writes before calling `operator_function`. */
  function Preamble(cs: seq<Record>): string
  {
    Header
    + Terminated(DeclarationLine, '\n', 0, Cells)
    + Terminated(BoundLine, '\n', 0, Cells)
    + Singletons(cs, 0)
    + Terminated(RowLine, '\n', 0, Side)
    + Terminated(ColumnLine, '\n', 0, Side)
  }

  /** `(check-sat)`, the request for the values of V0..V48, and `(exit)`. */
  function Trailer(): string
  {
    "(check-sat)\n" + "(get-value (" + Terminated(Name, ' ', 0, Cells) + "))\n" + "(exit)\n"
  }

  /** The whole output of `write_smt` as written. */
  function SmtProgram(cs: seq<Record>): Emitted
  {
    var cages := CagesFrom(cs, 0);
    if cages.crashed then Emitted(Preamble(cs) + cages.text, true)
    else Emitted(Preamble(cs) + cages.text + Trailer(), false)
  }

  // ---------------------------------------------------------------------------
  // The disjunction as evidently intended: every branch lists all members.

  /** The branch for one ordering, with all of its members. */
  function Branch(result: string, op: string, p: seq<string>): string
  {
    " (= " + result + " (" + op + Words(p) + "))"
  }

  function Branches(result: string, op: string, perms: seq<seq<string>>): (bs: seq<string>)
    ensures |bs| == |perms|
  {
    seq(|perms|, k requires 0 <= k < |perms| => Branch(result, op, perms[k]))
  }

  /** The branches written one after another; a recursion that unfolds one branch
      at a time, equal to `"".join(parts)` by `ConcatIsJoin`. */
  function Concat(parts: seq<string>): string
  {
    if |parts| == 0 then "" else parts[0] + Concat(parts[1..])
  }

  /** Writing the parts one after another is joining them with the empty separator. */
  lemma {:induction false} ConcatIsJoin(parts: seq<string>)
    ensures Concat(parts) == Join(parts, "")
  {
    if |parts| >= 2 {
      ConcatIsJoin(parts[1..]);
    }
  }

  /** `(assert (or ...))` with one full branch per ordering of the region. */
  function OrAssertion(result: string, op: string, region: seq<string>): string
  {
    "(assert (or " + Concat(Branches(result, op, Orderings(region))) + "))\n"
  }

  /** The corrected disjunction has |region|! branches: one for every rearrangement
      of the region, and nothing else. */
  lemma OrAssertionBranches(result: string, op: string, region: seq<string>)
    ensures var bs := Branches(result, op, Orderings(region));
      && |bs| == Factorial(|region|)
      && (forall p :: multiset(p) == multiset(region) ==> Branch(result, op, p) in bs)
      && (forall b :: b in bs ==> exists p :: multiset(p) == multiset(region) && b == Branch(result, op, p))
  {
    var perms := Orderings(region);
    var bs := Branches(result, op, perms);
    OrderingsCount(region);
    forall p | multiset(p) == multiset(region) ensures Branch(result, op, p) in bs {
      OrderingsComplete(region, p);
      var k :| 0 <= k < |perms| && perms[k] == p;
      assert bs[k] == Branch(result, op, p);
    }
    forall b | b in bs ensures exists p :: multiset(p) == multiset(region) && b == Branch(result, op, p) {
      var k :| 0 <= k < |bs| && bs[k] == b;
      OrderingsSound(region, perms[k]);
    }
  }

  /** The cage assertion with the corrected disjunction. */
  function CorrectedCage(cs: seq<Record>, c: Record): string
  {
    if |c| != 3 || !HasOperator(c[1]) then ""
    else
      var op := CageOperator(c[1]);
      if op == '/' || op == '-' then OrAssertion(Strip(c[1], op), [op], Region(cs, c))
      else FoldAssertion(Strip(c[1], op), [op], Region(cs, c))
  }

  function CorrectedCages(cs: seq<Record>, i: nat): string
    requires i <= |cs|
    decreases |cs| - i
  {
    if i == |cs| then "" else CorrectedCage(cs, cs[i]) + CorrectedCages(cs, i + 1)
  }

  /** The script `write_smt` evidently means to write. */
  function CorrectedProgram(cs: seq<Record>): string
  {
    Preamble(cs) + CorrectedCages(cs, 0) + Trailer()
  }

  // ---------------------------------------------------------------------------
  // The script as written against the script as intended.

  /** n! exceeds n from n = 3 on; for n = 1 and n = 2 they are equal. */
  lemma {:induction false} FactorialVersusN(n: nat)
    ensures (n == 1 || n == 2) ==> Factorial(n) == n
    ensures n >= 3 ==> Factorial(n) > n
  {
    if n >= 3 {
      FactorialVersusN(n - 1);
      assert Factorial(n) == n * Factorial(n - 1);
    } else if n == 2 {
      assert Factorial(1) == 1 * Factorial(0);
    }
  }

  /** When every ordering has exactly |perms| members, the as-written branches are
      the full branches and nothing fails. */
  lemma {:induction false} BranchesAsWrittenComplete(result: string, op: string, perms: seq<seq<string>>, i: nat)
    requires i <= |perms|
    requires forall k :: 0 <= k < |perms| ==> |perms[k]| == |perms|
    ensures BranchesAsWritten(result, op, perms, i) == Emitted(Concat(Branches(result, op, perms)[i..]), false)
    decreases |perms| - i
  {
    if i < |perms| {
      var bs := Branches(result, op, perms);
      BranchesAsWrittenComplete(result, op, perms, i + 1);
      assert perms[i][..|perms|] == perms[i];
      assert bs[i..][0] == bs[i] && bs[i..][1..] == bs[i + 1..];
    }
  }

  /** Every ordering of the region has as many members as the region. */
  lemma OrderingsLength(region: seq<string>, k: nat)
    requires k < |Orderings(region)|
    ensures |Orderings(region)[k]| == |region|
  {
    var p := Orderings(region)[k];
    OrderingsSound(region, p);
    assert |multiset(p)| == |multiset(region)|;
  }

  /** For a region of one or two members the disjunction as written is the
      intended one, and the program goes on. */
  lemma OrAsWrittenSmallRegion(result: string, op: string, region: seq<string>)
    requires 1 <= |region| <= 2
    ensures OrAsWritten(result, op, region) == Emitted(OrAssertion(result, op, region), false)
  {
    var perms := Orderings(region);
    OrderingsCount(region);
    FactorialVersusN(|region|);
    forall k | 0 <= k < |perms| ensures |perms[k]| == |perms| {
      OrderingsLength(region, k);
    }
    BranchesAsWrittenComplete(result, op, perms, 0);
    assert Branches(result, op, perms)[0..] == Branches(result, op, perms);
  }

  /** For a region of three or more members the first branch lists the region and
      then indexes past it: the program stops with that partial line written. */
  lemma OrAsWrittenLargeRegion(result: string, op: string, region: seq<string>)
    requires |region| >= 3
    ensures OrAsWritten(result, op, region) ==
      Emitted("(assert (or " + (" (= " + result + " (" + op + Words(region)), true)
  {
    var perms := Orderings(region);
    OrderingsCount(region);
    FactorialVersusN(|region|);
    FirstOrderingIsIdentity(region);
    assert BranchesAsWritten(result, op, perms, 0) == BranchAsWritten(result, op, perms[0], |perms|);
  }

  /** The records whose cage assertion fails: `-` and `/` cages of three or more cells. */
  predicate FailingCage(cs: seq<Record>, c: Record)
  {
    |c| == 3 && ('/' in c[1] || '-' in c[1]) && |Region(cs, c)| >= 3
  }

  /** One record's cage assertion fails exactly for a failing cage, and otherwise
      is the intended assertion. */
  lemma CageAsWritten(cs: seq<Record>, c: Record)
    ensures CageEmission(cs, c).crashed <==> FailingCage(cs, c)
    ensures !CageEmission(cs, c).crashed ==> CageEmission(cs, c).text == CorrectedCage(cs, c)
  {
    if |c| == 3 && HasOperator(c[1]) {
      var op := CageOperator(c[1]);
      if op == '/' || op == '-' {
        var region := Region(cs, c);
        if |region| <= 2 {
          OrAsWrittenSmallRegion(Strip(c[1], op), [op], region);
        } else {
          OrAsWrittenLargeRegion(Strip(c[1], op), [op], region);
        }
      }
    }
  }

  lemma {:induction false} CagesFailure(cs: seq<Record>, i: nat)
    requires i <= |cs|
    ensures CagesFrom(cs, i).crashed <==> exists k :: i <= k < |cs| && FailingCage(cs, cs[k])
    decreases |cs| - i
  {
    if i < |cs| {
      CageAsWritten(cs, cs[i]);
      CagesFailure(cs, i + 1);
    }
  }

  lemma {:induction false} CagesAsIntended(cs: seq<Record>, i: nat)
    requires i <= |cs|
    ensures !CagesFrom(cs, i).crashed ==> CagesFrom(cs, i).text == CorrectedCages(cs, i)
    decreases |cs| - i
  {
    if i < |cs| {
      CageAsWritten(cs, cs[i]);
      CagesAsIntended(cs, i + 1);
    }
  }

  /** `write_smt` fails exactly when some `-` or `/` cage has three or more cells;
      when it does not fail it writes the intended script. */
  lemma ProgramAsWritten(cs: seq<Record>)
    ensures SmtProgram(cs).crashed <==> exists k :: 0 <= k < |cs| && FailingCage(cs, cs[k])
    ensures !SmtProgram(cs).crashed ==> SmtProgram(cs).text == CorrectedProgram(cs)
  {
    CagesFailure(cs, 0);
    CagesAsIntended(cs, 0);
  }

  // ---------------------------------------------------------------------------
  // The parts of the script.

  /** Each three-entry record writes exactly one assertion of its own: a singleton
      equality when its second field names no operator, a cage assertion when it
      does. Records of any other length write neither. */
  lemma RecordAssertionKind(cs: seq<Record>, c: Record)
    ensures SingletonText(c) != "" <==> |c| == 3 && !HasOperator(c[1])
    ensures CageEmission(cs, c).text != "" <==> |c| == 3 && HasOperator(c[1])
  {
    if |c| == 3 && HasOperator(c[1]) {
      var op := CageOperator(c[1]);
      if op == '/' || op == '-' {
        var e := OrAsWritten(Strip(c[1], op), [op], Region(cs, c));
        assert e.text[0] == '(';
      } else {
        assert FoldAssertion(Strip(c[1], op), [op], Region(cs, c))[0] == '(';
      }
    }
  }

  /** Every cell 0..48 lies in row k / 7 and column k % 7, and in no other row or
      column; within a row or a column the cells increase. */
  lemma GridCoverage()
    ensures forall k :: 0 <= k < 49 ==> k in RowCells(k / 7) && k in ColumnCells(k % 7)
    ensures forall i, k :: 0 <= i < 7 && k in RowCells(i) ==> k < 49 && k / 7 == i
    ensures forall i, k :: 0 <= i < 7 && k in ColumnCells(i) ==> k < 49 && k % 7 == i
    ensures forall i, a, b :: 0 <= a < b < 7 ==> RowCells(i)[a] < RowCells(i)[b] && ColumnCells(i)[a] < ColumnCells(i)[b]
  {
    forall k | 0 <= k < 49 ensures k in RowCells(k / 7) && k in ColumnCells(k % 7) {
      assert RowCells(k / 7)[k % 7] == k;
      assert ColumnCells(k % 7)[k / 7] == k;
    }
  }

  /** The names of the cells of a `distinct` line, read back by splitting the list
      at spaces. */
  lemma DistinctLineNames(cells: seq<nat>)
    requires |cells| >= 1
    ensures Split(Join(Names(cells), " "), ' ') == Names(cells)
  {
    var names := Names(cells);
    forall p | p in names ensures ' ' !in p {
      var k :| 0 <= k < |names| && names[k] == p;
      NameCharacters(cells[k]);
    }
    SplitOfJoin(names, ' ');
  }

  /** A `distinct` assertion fits on one line. */
  lemma DistinctLineOneLine(cells: seq<nat>)
    ensures '\n' !in DistinctLine(cells)
  {
    var names := Names(cells);
    forall k | 0 <= k < |names| ensures '\n' !in names[k] {
      NameCharacters(cells[k]);
    }
    JoinLacks(names, " ", '\n');
  }

  /** n declarations are one line per index 0..n-1, in increasing order. */
  lemma DeclarationLines(n: nat)
    ensures var ls := Split(Terminated(DeclarationLine, '\n', 0, n), '\n');
      |ls| == n + 1 && ls[n] == "" && forall i :: 0 <= i < n ==> ls[i] == DeclarationLine(i)
  {
    forall i: nat ensures '\n' !in DeclarationLine(i) {
      NameCharacters(i);
    }
    TerminatedPieces(DeclarationLine, '\n', n);
  }

  /** n bounds are one line per index 0..n-1, in increasing order. */
  lemma BoundLines(n: nat)
    ensures var ls := Split(Terminated(BoundLine, '\n', 0, n), '\n');
      |ls| == n + 1 && ls[n] == "" && forall i :: 0 <= i < n ==> ls[i] == BoundLine(i)
  {
    forall i: nat ensures '\n' !in BoundLine(i) {
      NameCharacters(i);
    }
    TerminatedPieces(BoundLine, '\n', n);
  }

  /** The row assertions are one line per row, in order; likewise the columns. */
  lemma RowAndColumnLines(n: nat)
    ensures var ls := Split(Terminated(RowLine, '\n', 0, n), '\n');
      |ls| == n + 1 && ls[n] == "" && forall i :: 0 <= i < n ==> ls[i] == RowLine(i)
    ensures var ls := Split(Terminated(ColumnLine, '\n', 0, n), '\n');
      |ls| == n + 1 && ls[n] == "" && forall i :: 0 <= i < n ==> ls[i] == ColumnLine(i)
  {
    forall i: nat ensures '\n' !in RowLine(i) && '\n' !in ColumnLine(i) {
      DistinctLineOneLine(RowCells(i));
      DistinctLineOneLine(ColumnCells(i));
    }
    TerminatedPieces(RowLine, '\n', n);
    TerminatedPieces(ColumnLine, '\n', n);
  }

  /** The value request lists V0..Vn-1 in increasing order, each followed by a space. */
  lemma ValueRequestNames(n: nat)
    ensures var ws := Split(Terminated(Name, ' ', 0, n), ' ');
      |ws| == n + 1 && ws[n] == "" && forall i :: 0 <= i < n ==> ws[i] == Name(i)
  {
    forall i: nat ensures ' ' !in Name(i) {
      NameCharacters(i);
    }
    TerminatedPieces(Name, ' ', n);
  }

  // ---------------------------------------------------------------------------
  // The writing procedures.

  /** A `for k in range(n)` loop writing g(k) and then `sep`. */
  method WriteEach(out: OutputFile, g: nat -> string, sep: char, n: nat)
    modifies out
    ensures out.text == old(out.text) + Terminated(g, sep, 0, n)
  {
    ghost var start := out.text;
    for i := 0 to n
      invariant out.text + Terminated(g, sep, i, n) == start + Terminated(g, sep, 0, n)
    {
      ghost var before := out.text;
      out.Write(g(i) + [sep]);
      Regroup(before, g(i) + [sep], Terminated(g, sep, i + 1, n));
    }
  }

  /** One pass of the singleton loop of `write_smt` (kenken2smt.py:107-118): the
      operator test runs '+', '*', '/', '-' in turn, and a three-entry record that
      names none of them is written as an equality. */
  method WriteSingleton(out: OutputFile, c: Record)
    modifies out
    ensures out.text == old(out.text) + SingletonText(c)
  {
    if |c| == 3 {
      var op := "";
      if '+' in c[1] {
        op := "+";
      } else if '*' in c[1] {
        op := "*";
      } else if '/' in c[1] {
        op := "/";
      } else if '-' in c[1] {
        op := "-";
      }
      if op == "" {
        out.Write("(assert (= " + c[2] + " " + c[1] + "))\n");
      }
    }
  }

  /** The singleton loop of `write_smt` (kenken2smt.py:106-118). */
  method WriteSingletons(out: OutputFile, constraints: seq<Record>)
    modifies out
    ensures out.text == old(out.text) + Singletons(constraints, 0)
  {
    ghost var start := out.text;
    for k := 0 to |constraints|
      invariant out.text + Singletons(constraints, k) == start + Singletons(constraints, 0)
    {
      ghost var before := out.text;
      WriteSingleton(out, constraints[k]);
      Regroup(before, SingletonText(constraints[k]), Singletons(constraints, k + 1));
    }
  }

  /** One branch of the disjunction (kenken2smt.py:63-66): the member loop runs n
      times over the ordering p. Returns whether it indexed past p. */
  method WriteBranch(out: OutputFile, result: string, op: string, p: seq<string>, n: nat) returns (crashed: bool)
    modifies out
    ensures out.text == old(out.text) + BranchAsWritten(result, op, p, n).text
    ensures crashed == BranchAsWritten(result, op, p, n).crashed
  {
    ghost var start := out.text;
    out.Write(" (= " + result + " (" + op);
    ghost var begun := out.text;
    for j := 0 to n
      invariant j <= |p|
      invariant out.text == begun + Words(p[..j])
    {
      if j >= |p| {
        assert p[..j] == p;
        crashed := true;
        return;
      }
      out.Write(" " + p[j]);
      WordsSnoc(p[..j], p[j]);
      assert p[..j + 1] == p[..j] + [p[j]];
    }
    out.Write("))");
    crashed := false;
  }

  /** The disjunction of kenken2smt.py:60-67: one branch per ordering, each written
      with the number of orderings as its member count. Returns whether a branch
      indexed past its ordering (an IndexError, which ends the program). */
  method WriteDisjunction(out: OutputFile, result: string, op: string, region: seq<string>) returns (crashed: bool)
    modifies out
    ensures out.text == old(out.text) + OrAsWritten(result, op, region).text
    ensures crashed == OrAsWritten(result, op, region).crashed
  {
    var permut := Orderings(region);
    ghost var start := out.text;
    out.Write("(assert (or ");
    ghost var head := out.text;
    for i := 0 to |permut|
      invariant out.text + BranchesAsWritten(result, op, permut, i).text
        == head + BranchesAsWritten(result, op, permut, 0).text
      invariant BranchesAsWritten(result, op, permut, i).crashed == BranchesAsWritten(result, op, permut, 0).crashed
    {
      ghost var before := out.text;
      crashed := WriteBranch(out, result, op, permut[i], |permut|);
      Regroup(start, "(assert (or ", BranchesAsWritten(result, op, permut, 0).text);
      if crashed {
        return;
      }
      Regroup(before, BranchAsWritten(result, op, permut[i], |permut|).text,
        BranchesAsWritten(result, op, permut, i + 1).text);
    }
    ghost var branches := BranchesAsWritten(result, op, permut, 0).text;
    out.Write("))\n");
    Regroup(start, "(assert (or ", branches);
    Regroup(start, "(assert (or " + branches, "))\n");
    crashed := false;
  }

  /** The region of a `-` or `/` cage (kenken2smt.py:55-58): its own cell, then
      every two-entry record with the same tag, in document order. */
  method CollectRegion(constraints: seq<Record>, current: string, own: string) returns (region: seq<string>)
    requires WellFormed(constraints)
    ensures region == [own] + Siblings(constraints, current, 0)
  {
    region := [own];
    for j := 0 to |constraints|
      invariant region + Siblings(constraints, current, j) == [own] + Siblings(constraints, current, 0)
    {
      if current == constraints[j][0] && |constraints[j]| == 2 {
        Regroup(region, [constraints[j][1]], Siblings(constraints, current, j + 1));
        region := region + [constraints[j][1]];
      }
    }
  }

  /** The member list of a `+` or `*` cage (kenken2smt.py:78-80). */
  method WriteMembers(out: OutputFile, constraints: seq<Record>, current: string)
    requires WellFormed(constraints)
    modifies out
    ensures out.text == old(out.text) + Words(Siblings(constraints, current, 0))
  {
    ghost var start := out.text;
    for i := 0 to |constraints|
      invariant out.text + Words(Siblings(constraints, current, i))
        == start + Words(Siblings(constraints, current, 0))
    {
      if current == constraints[i][0] && |constraints[i]| == 2 {
        ghost var before := out.text;
        out.Write(" " + constraints[i][1]);
        WordsCons(constraints[i][1], Siblings(constraints, current, i + 1));
        Regroup(before, " " + constraints[i][1], Words(Siblings(constraints, current, i + 1)));
      }
    }
  }

  /** A `-` or `/` cage (kenken2smt.py:47-67): the target is the second field with
      the operator stripped from both ends, and the disjunction runs over the
      orderings of the region. Returns whether the disjunction ended the program. */
  method WriteDisjunctionCage(out: OutputFile, constraints: seq<Record>, c: Record, op: char) returns (crashed: bool)
    requires WellFormed(constraints) && |c| == 3
    modifies out
    ensures out.text == old(out.text) + OrAsWritten(Strip(c[1], op), [op], Region(constraints, c)).text
    ensures crashed == OrAsWritten(Strip(c[1], op), [op], Region(constraints, c)).crashed
  {
    var result := Strip(c[1], op);
    var region := CollectRegion(constraints, c[0], c[2]);
    crashed := WriteDisjunction(out, result, [op], region);
  }

  /** A `+` or `*` cage (kenken2smt.py:70-81): one folded equality over the cage's
      own cell and its siblings. */
  method WriteFoldCage(out: OutputFile, constraints: seq<Record>, c: Record, op: char)
    requires WellFormed(constraints) && |c| == 3
    modifies out
    ensures out.text == old(out.text) + FoldAssertion(Strip(c[1], op), [op], Region(constraints, c))
  {
    var result := Strip(c[1], op);
    ghost var before := out.text;
    var opening := "(assert (= " + result + " (" + [op] + " " + c[2];
    out.Write(opening);
    WriteMembers(out, constraints, c[0]);
    out.Write("))) \n");
    ghost var members := Words(Siblings(constraints, c[0], 0));
    FoldAssertionParts(result, [op], c[2], Siblings(constraints, c[0], 0));
    Regroup(before, opening, members);
    Regroup(before, opening + members, "))) \n");
  }

  /** One pass of `operator_function` (kenken2smt.py:44-81): '/' and '-' are
      tested before '*' and '+'. Returns whether the disjunction ended the program. */
  method WriteCage(out: OutputFile, constraints: seq<Record>, c: Record) returns (crashed: bool)
    requires WellFormed(constraints)
    modifies out
    ensures out.text == old(out.text) + CageEmission(constraints, c).text
    ensures crashed == CageEmission(constraints, c).crashed
  {
    crashed := false;
    if |c| == 3 {
      if '/' in c[1] || '-' in c[1] {
        var op := if '/' in c[1] then '/' else '-';
        crashed := WriteDisjunctionCage(out, constraints, c, op);
      } else if '*' in c[1] || '+' in c[1] {
        var op := if '*' in c[1] then '*' else '+';
        WriteFoldCage(out, constraints, c, op);
      }
    }
  }

  /** `operator_function`: the cage assertions, record by record, until one ends
      the program. */
  method OperatorFunction(out: OutputFile, constraints: seq<Record>) returns (crashed: bool)
    requires WellFormed(constraints)
    modifies out
    ensures out.text == old(out.text) + CagesFrom(constraints, 0).text
    ensures crashed == CagesFrom(constraints, 0).crashed
  {
    ghost var start := out.text;
    for k := 0 to |constraints|
      invariant out.text + CagesFrom(constraints, k).text == start + CagesFrom(constraints, 0).text
      invariant CagesFrom(constraints, k).crashed == CagesFrom(constraints, 0).crashed
    {
      ghost var before := out.text;
      crashed := WriteCage(out, constraints, constraints[k]);
      if crashed {
        return;
      }
      Regroup(before, CageEmission(constraints, constraints[k]).text, CagesFrom(constraints, k + 1).text);
    }
    crashed := false;
  }

  /** The part of `write_smt` before `operator_function` (kenken2smt.py:98-124),
      written to an empty file. */
  method WritePreamble(out: OutputFile, constraints: seq<Record>)
    requires out.text == ""
    modifies out
    ensures out.text == Preamble(constraints)
  {
    out.Write(Header);
    assert out.text == Header;
    WriteEach(out, DeclarationLine, '\n', Cells);
    WriteEach(out, BoundLine, '\n', Cells);
    WriteSingletons(out, constraints);
    WriteEach(out, RowLine, '\n', Side);
    WriteEach(out, ColumnLine, '\n', Side);
  }

  /** The part of `write_smt` after `operator_function` (kenken2smt.py:128-135). */
  method WriteTrailer(out: OutputFile)
    modifies out
    ensures out.text == old(out.text) + Trailer()
  {
    ghost var body := out.text;
    out.Write("(check-sat)\n");
    out.Write("(get-value (");
    WriteEach(out, Name, ' ', Cells);
    out.Write("))\n");
    out.Write("(exit)\n");
    ghost var a, b, v, d := "(check-sat)\n", "(get-value (", Terminated(Name, ' ', 0, Cells), "))\n";
    Regroup(body, a, b);
    Regroup(body, a + b, v);
    Regroup(body, a + b + v, d);
    Regroup(body, a + b + v + d, "(exit)\n");
  }

  /** `write_smt`: the whole script, written to a fresh file. Returns the text
      written and whether the program ended with an exception. */
  method WriteSmt(constraints: seq<Record>) returns (text: string, crashed: bool)
    requires WellFormed(constraints)
    ensures Emitted(text, crashed) == SmtProgram(constraints)
  {
    var out := new OutputFile();
    WritePreamble(out, constraints);
    ghost var preamble := out.text;
    crashed := OperatorFunction(out, constraints);
    ghost var cages := CagesFrom(constraints, 0);
    if !crashed {
      WriteTrailer(out);
      text := out.text;
      assert text == preamble + cages.text + Trailer();
    } else {
      text := out.text;
      assert text == preamble + cages.text;
    }
  }
}
