/** `read_puzzle` of kenken2smt.py: turns the lines of a puzzle file into the
    `constraints` list. A line containing '#' is a comment. Every other line is
    split at ',' into fragments; each fragment is split at '.' into fields, and the
    record of the k-th fragment of the file (counting from 0) is its fields followed
    by the variable name "V<k>". */
module PuzzleParser {
  import opened Text

  /** One entry of `constraints`: the fields of a fragment, then its variable name. */
  type Record = seq<string>

  /** The SMT variable of cell k: "V" followed by k in decimal. */
  function Name(k: nat): string
  {
    "V" + NatToString(k)
  }

  /** Different cells have different variable names. */
  lemma NameInjective(j: nat, k: nat)
    requires Name(j) == Name(k)
    ensures j == k
  {
    assert Name(j)[1..] == NatToString(j);
    assert Name(k)[1..] == NatToString(k);
    NatToStringInjective(j, k);
  }

  /** A variable name holds no space, ')' or newline, and starts with 'V'. */
  lemma NameCharacters(k: nat)
    ensures |Name(k)| >= 2 && Name(k)[0] == 'V'
    ensures ' ' !in Name(k) && ')' !in Name(k) && '\n' !in Name(k) && 'u' !in Name(k)
  {
    var digits := NatToString(k);
    assert Name(k) == ['V'] + digits;
    assert forall i :: 1 <= i < |Name(k)| ==> IsDigit(Name(k)[i]);
  }

  /** The fragments one line contributes: none for a comment line, otherwise the
      comma-separated pieces of the line without its trailing newlines. */
  function LineFragments(line: string): seq<string>
  {
    if '#' in line then [] else Split(RStrip(line, '\n'), ',')
  }

  /** All fragments of the file, in document order. */
  function Fragments(lines: seq<string>): seq<string>
  {
    FlatMap(LineFragments, lines, |lines|)
  }

  /** f(xs[0]) + ... + f(xs[n - 1]). */
  function FlatMap<X, Y>(f: X -> seq<Y>, xs: seq<X>, n: nat): seq<Y>
    requires n <= |xs|
  {
    if n == 0 then [] else FlatMap(f, xs, n - 1) + f(xs[n - 1])
  }

  /** The record of the fragment numbered k. */
  function Tag(fragment: string, k: nat): Record
  {
    Split(fragment, '.') + [Name(k)]
  }

  /** The records of a sequence of fragments, numbered from 0. */
  function Records(fragments: seq<string>): (rs: seq<Record>)
    ensures |rs| == |fragments|
  {
    seq(|fragments|, k requires 0 <= k < |fragments| => Tag(fragments[k], k))
  }

  /** What the compiler relies on: every record has a first field, which it reads
      for every record when it collects the members of a cage. */
  predicate WellFormed(cs: seq<Record>)
  {
    forall k :: 0 <= k < |cs| ==> |cs[k]| >= 1
  }

  /** Numbering one more fragment appends its record. */
  lemma RecordsSnoc(fragments: seq<string>, f: string)
    ensures Records(fragments + [f]) == Records(fragments) + [Tag(f, |fragments|)]
  {
  }

  /** Taking one more fragment of a line appends the record numbered after the
      ones already there. */
  lemma RecordsStep(before: seq<string>, unit: seq<string>, u: nat)
    requires u < |unit|
    ensures Records(before + unit[..u + 1])
      == Records(before + unit[..u]) + [Tag(unit[u], |before| + u)]
  {
    assert before + unit[..u + 1] == (before + unit[..u]) + [unit[u]];
    RecordsSnoc(before + unit[..u], unit[u]);
  }

  /** `read_puzzle` (kenken2smt.py:18-28): the records of the file's fragments,
      numbered in document order. */
  method ReadPuzzle(lines: seq<string>) returns (constraints: seq<Record>)
    ensures constraints == Records(Fragments(lines))
  {
    constraints := [];
    for i := 0 to |lines|
      invariant constraints == Records(FlatMap(LineFragments, lines, i))
    {
      var line := lines[i];
      if '#' in line {
        continue;
      }
      var unit := Split(RStrip(line, '\n'), ',');
      constraints := TagFragments(constraints, FlatMap(LineFragments, lines, i), unit);
    }
  }

  /** The inner loop of `read_puzzle` (kenken2smt.py:24-27): one record per
      fragment of a line, numbered on from the records read so far. */
  method TagFragments(constraints: seq<Record>, ghost before: seq<string>, unit: seq<string>)
    returns (result: seq<Record>)
    requires constraints == Records(before)
    ensures result == Records(before + unit)
  {
    result := constraints;
    for u := 0 to |unit|
      invariant result == Records(before + unit[..u])
    {
      var subUnit := Split(unit[u], '.');
      subUnit := subUnit + ["V" + NatToString(|result|)];
      RecordsStep(before, unit, u);
      result := result + [subUnit];
    }
    assert unit[..|unit|] == unit;
  }

  /** The first n elements of a + b are elements of a when n <= |a|. */
  lemma {:induction false} FlatMapPrefix<X, Y>(f: X -> seq<Y>, a: seq<X>, b: seq<X>, n: nat)
    requires n <= |a|
    ensures FlatMap(f, a + b, n) == FlatMap(f, a, n)
  {
    if n > 0 {
      FlatMapPrefix(f, a, b, n - 1);
    }
  }

  /** Past |a|, the elements of a + b are the elements of b. */
  lemma {:induction false} FlatMapAppend<X, Y>(f: X -> seq<Y>, a: seq<X>, b: seq<X>, j: nat)
    requires j <= |b|
    ensures FlatMap(f, a + b, |a| + j) == FlatMap(f, a, |a|) + FlatMap(f, b, j)
  {
    if j == 0 {
      FlatMapPrefix(f, a, b, |a|);
    } else {
      var x, y, z := FlatMap(f, a, |a|), FlatMap(f, b, j - 1), f(b[j - 1]);
      calc {
        FlatMap(f, a + b, |a| + j);
        { assert (a + b)[|a| + j - 1] == b[j - 1]; }
        FlatMap(f, a + b, |a| + j - 1) + z;
        { FlatMapAppend(f, a, b, j - 1); }
        (x + y) + z;
        x + (y + z);
      }
    }
  }

  /** Fragments of consecutive blocks of lines are concatenated. */
  lemma FragmentsAppend(a: seq<string>, b: seq<string>)
    ensures Fragments(a + b) == Fragments(a) + Fragments(b)
  {
    FlatMapAppend(LineFragments, a, b, |b|);
  }

  /** What one line contributes wherever it stands in the file: nothing when it
      contains '#', otherwise its comma-separated pieces, in order. */
  lemma LineContribution(before: seq<string>, line: string, after: seq<string>)
    ensures Fragments(before + [line] + after) ==
      Fragments(before) + (if '#' in line then [] else Split(RStrip(line, '\n'), ',')) + Fragments(after)
  {
    FragmentsAppend(before + [line], after);
    FragmentsAppend(before, [line]);
    calc {
      Fragments([line]);
      FlatMap(LineFragments, [line], 0) + LineFragments([line][0]);
      [] + LineFragments(line);
      LineFragments(line);
    }
  }

  /** The fragments of a data line, joined with commas, give back the line. */
  lemma LineFragmentsRejoin(line: string)
    requires '#' !in line
    ensures |LineFragments(line)| == Count(RStrip(line, '\n'), ',') + 1
    ensures Join(LineFragments(line), ",") == RStrip(line, '\n')
  {
    JoinOfSplit(RStrip(line, '\n'), ',');
  }

  /** The shape of the k-th record: the fragment's fields (one more than its
      periods, none containing a period, rejoining to the fragment), then "V<k>". */
  lemma RecordShape(fragments: seq<string>, k: nat)
    requires k < |fragments|
    ensures var r := Records(fragments)[k];
      && |r| == Count(fragments[k], '.') + 2
      && r[|r| - 1] == Name(k)
      && Join(r[..|r| - 1], ".") == fragments[k]
      && (forall i :: 0 <= i < |r| - 1 ==> '.' !in r[i])
      && (|r| == 2 <==> '.' !in fragments[k])
  {
    var r := Records(fragments)[k];
    var fields := Split(fragments[k], '.');
    assert r[..|r| - 1] == fields;
    JoinOfSplit(fragments[k], '.');
    SplitPiecesLackSeparator(fragments[k], '.');
    assert forall i :: 0 <= i < |r| - 1 ==> r[i] in fields;
  }

  /** Records carry pairwise different names. */
  lemma RecordNamesDistinct(fragments: seq<string>, j: nat, k: nat)
    requires j < |fragments| && k < |fragments| && j != k
    ensures var rj, rk := Records(fragments)[j], Records(fragments)[k];
      rj[|rj| - 1] != rk[|rk| - 1]
  {
    if Name(j) == Name(k) {
      NameInjective(j, k);
    }
  }

  /** Every record has at least two entries: a first field and its name. */
  lemma RecordsWellFormed(fragments: seq<string>)
    ensures forall k :: 0 <= k < |fragments| ==> |Records(fragments)[k]| >= 2
    ensures WellFormed(Records(fragments))
  {
  }
}
