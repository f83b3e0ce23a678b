/** The model decoder (smt2kenken.py): the solver's response is read line by line up
    to the first `unsat`, one value is taken from each of lines 1..49 at a fixed
    token position, and the values are rendered as one line of digits or as the
    "not satisfiable" message. Standard input and solution.txt become a sequence of
    lines and an OutputFile. */
module Decoder {
  import opened Text
  import opened PuzzleParser
  import opened Output

  datatype Option<T> = None | Some(value: T)

  /** What get_from_smt ends with: the values it collected, or the IndexError it
      raises on line `line` when that line has too few tokens. */
  datatype Extraction = Solved(values: seq<string>) | IndexError(line: nat)

  /** A stored line: the input line with its newlines removed, split at ')'. */
  function Fields(line: string): seq<string>
  {
    Split(RemoveChar(line, '\n'), ')')
  }

  /** Joining the fields back with ')' gives the line without its newlines, and no
      field holds a ')'. */
  lemma FieldsRejoin(line: string)
    ensures |Fields(line)| >= 1
    ensures Join(Fields(line), ")") == RemoveChar(line, '\n')
    ensures forall k :: 0 <= k < |Fields(line)| ==> ')' !in Fields(line)[k]
  {
    var text := RemoveChar(line, '\n');
    JoinOfSplit(text, ')');
    SplitPiecesLackSeparator(text, ')');
    forall k | 0 <= k < |Fields(line)| ensures ')' !in Fields(line)[k] {
      assert Fields(line)[k] in Split(text, ')');
    }
  }

  /** The line reports unsatisfiability: "unsat" occurs in it once its newlines are gone. */
  predicate IsUnsat(line: string)
  {
    HasInfix(RemoveChar(line, '\n'), "unsat")
  }

  /** No line reports unsatisfiability. */
  predicate Satisfiable(lines: seq<string>)
  {
    forall k :: 0 <= k < |lines| ==> !IsUnsat(lines[k])
  }

  /** The position of the first line at `i` or later that reports unsat, or |lines|. */
  function FirstUnsat(lines: seq<string>, i: nat): (u: nat)
    requires i <= |lines|
    ensures i <= u <= |lines|
    decreases |lines| - i
  {
    if i == |lines| then |lines|
    else if IsUnsat(lines[i]) then i
    else FirstUnsat(lines, i + 1)
  }

  /** FirstUnsat finds the first unsat line, and every line before it is not one. */
  lemma {:induction false} FirstUnsatExact(lines: seq<string>, i: nat)
    requires i <= |lines|
    ensures FirstUnsat(lines, i) == |lines| || IsUnsat(lines[FirstUnsat(lines, i)])
    ensures forall k :: i <= k < FirstUnsat(lines, i) ==> !IsUnsat(lines[k])
    decreases |lines| - i
  {
    if i < |lines| && !IsUnsat(lines[i]) {
      FirstUnsatExact(lines, i + 1);
    }
  }

  /** How many lines read_from_smt keeps: all of them, or up to and including the
      first unsat line. */
  function StoredCount(lines: seq<string>): (n: nat)
    ensures n <= |lines|
  {
    var u := FirstUnsat(lines, 0);
    if u == |lines| then u else u + 1
  }

  /** The fields of the first `n` lines, in input order. */
  function FieldsOf(lines: seq<string>, n: nat): (r: seq<seq<string>>)
    requires n <= |lines|
    ensures |r| == n
  {
    if n == 0 then [] else FieldsOf(lines, n - 1) + [Fields(lines[n - 1])]
  }

  lemma {:induction false} FieldsOfAt(lines: seq<string>, n: nat, k: nat)
    requires k < n <= |lines|
    ensures FieldsOf(lines, n)[k] == Fields(lines[k])
  {
    if k < n - 1 {
      FieldsOfAt(lines, n - 1, k);
    }
  }

  /** The lines read_from_smt stores. */
  function Stored(lines: seq<string>): seq<seq<string>>
  {
    FieldsOf(lines, StoredCount(lines))
  }

  /** One pass of the loop of read_from_smt (smt2kenken.py:33-35): the stored
      fields are one more than the ')' of the line, hold no ')' and rejoin to the
      line without its newlines; `unsat` tells whether "unsat" occurs in it. */
  method ReadLine(raw: string) returns (fields: seq<string>, unsat: bool)
    ensures |fields| == Count(RemoveChar(raw, '\n'), ')') + 1
    ensures Join(fields, ")") == RemoveChar(raw, '\n')
    ensures forall k :: 0 <= k < |fields| ==> ')' !in fields[k]
    ensures fields == Fields(raw) && unsat == IsUnsat(raw)
  {
    var line := RemoveChar(raw, '\n');
    fields := Split(line, ')');
    unsat := HasInfix(line, "unsat");
    FieldsRejoin(raw);
  }

  /** `read_from_smt` (smt2kenken.py:30-39): every line is stored as its fields,
      and reading stops right after the first line that contains "unsat". */
  method ReadFromSmt(lines: seq<string>) returns (smtFile: seq<seq<string>>, sat: bool)
    ensures smtFile == Stored(lines)
    ensures sat == Satisfiable(lines)
  {
    smtFile := [];
    sat := true;
    var i := 0;
    while i < |lines|
      invariant i <= |lines|
      invariant smtFile == FieldsOf(lines, i)
      invariant FirstUnsat(lines, 0) == FirstUnsat(lines, i)
    {
      var fields, unsat := ReadLine(lines[i]);
      smtFile := smtFile + [fields];
      if unsat {
        sat := false;
        break;
      }
      i := i + 1;
    }
    SatisfiableIff(lines);
  }

  /** A response is satisfiable exactly when no unsat line is found. */
  lemma SatisfiableIff(lines: seq<string>)
    ensures Satisfiable(lines) <==> FirstUnsat(lines, 0) == |lines|
  {
    FirstUnsatExact(lines, 0);
  }

  /** The lines kept are exactly those up to the first unsat line (all lines when
      there is none), each as its fields, in input order. */
  lemma StoredLines(lines: seq<string>)
    ensures |Stored(lines)| <= |lines|
    ensures forall k :: 0 <= k < |Stored(lines)| ==> Stored(lines)[k] == Fields(lines[k])
    ensures Satisfiable(lines) ==> |Stored(lines)| == |lines|
    ensures !Satisfiable(lines) ==>
      var n := |Stored(lines)|;
      n >= 1 && IsUnsat(lines[n - 1]) && forall k :: 0 <= k < n - 1 ==> !IsUnsat(lines[k])
  {
    FirstUnsatExact(lines, 0);
    var n := StoredCount(lines);
    forall k | 0 <= k < n ensures FieldsOf(lines, n)[k] == Fields(lines[k]) {
      FieldsOfAt(lines, n, k);
    }
  }

  /** The stored lines get_from_smt visits: 1 up to, not including, this bound
      (`smt_file[1:50]`). */
  function End(smtFile: seq<seq<string>>): (e: nat)
    ensures e <= |smtFile| && e <= 50
  {
    if |smtFile| < 50 then |smtFile| else 50
  }

  /** The token position read on line `i`: 2 on the first value line, 3 after it. */
  function TokenPosition(i: nat): nat
  {
    if i == 1 then 2 else 3
  }

  /** The value taken from stored line `box` at index `i`: the token at
      TokenPosition(i) of the text before the line's first ')', split at ' ';
      None where Python indexes past the end of a list. */
  function ValueAt(box: seq<string>, i: nat): Option<string>
  {
    if |box| == 0 then None
    else
      var words := Split(box[0], ' ');
      if TokenPosition(i) < |words| then Some(words[TokenPosition(i)]) else None
  }

  /** `prefix` followed by the outcome of the rest of the loop. */
  function After(prefix: seq<string>, e: Extraction): Extraction
  {
    match e
    case Solved(vs) => Solved(prefix + vs)
    case IndexError(_) => e
  }

  /** The outcome of the loop of get_from_smt from line `i` on. */
  function ValuesFrom(smtFile: seq<seq<string>>, i: nat): Extraction
    requires i >= 1
    decreases End(smtFile) - i
  {
    if i >= End(smtFile) then Solved([])
    else
      match ValueAt(smtFile[i], i)
      case None => IndexError(i)
      case Some(v) => After([v], ValuesFrom(smtFile, i + 1))
  }

  /** The outcome of get_from_smt: nothing for an unsatisfiable response. */
  function Extract(smtFile: seq<seq<string>>, sat: bool): Extraction
  {
    if sat then ValuesFrom(smtFile, 1) else Solved([])
  }

  lemma AfterAfter(a: seq<string>, b: seq<string>, e: Extraction)
    ensures After(a, After(b, e)) == After(a + b, e)
  {
    if e.Solved? {
      Regroup(a, b, e.values);
    }
  }

  /** `get_from_smt` (smt2kenken.py:52-57). */
  method GetFromSmt(smtFile: seq<seq<string>>, sat: bool) returns (r: Extraction)
    ensures r == Extract(smtFile, sat)
  {
    var solved: seq<string> := [];
    if sat {
      var i := 1;
      while i < End(smtFile)
        invariant i >= 1
        invariant After(solved, ValuesFrom(smtFile, i)) == ValuesFrom(smtFile, 1)
        decreases End(smtFile) - i
      {
        var box := smtFile[i];
        if |box| == 0 {
          return IndexError(i);
        }
        var words := Split(box[0], ' ');
        var position := if i == 1 then 2 else 3;
        if position >= |words| {
          return IndexError(i);
        }
        AfterAfter(solved, [words[position]], ValuesFrom(smtFile, i + 1));
        solved := solved + [words[position]];
        i := i + 1;
      }
      assert ValuesFrom(smtFile, i) == Solved([]);
      assert solved + [] == solved;
    }
    r := Solved(solved);
  }

  /** The loop from line `i` succeeds exactly when every visited line has its token. */
  lemma {:induction false} ValuesFromSolved(smtFile: seq<seq<string>>, i: nat)
    requires i >= 1
    ensures ValuesFrom(smtFile, i).Solved? <==>
      forall k :: i <= k < End(smtFile) ==> ValueAt(smtFile[k], k).Some?
    decreases End(smtFile) - i
  {
    if i < End(smtFile) && ValueAt(smtFile[i], i).Some? {
      ValuesFromSolved(smtFile, i + 1);
    }
  }

  /** A successful loop from line `i` yields one value per visited line, in line order. */
  lemma {:induction false} ValuesFromValues(smtFile: seq<seq<string>>, i: nat)
    requires i >= 1
    ensures ValuesFrom(smtFile, i).Solved? ==>
      var vs := ValuesFrom(smtFile, i).values;
      && |vs| == (if i < End(smtFile) then End(smtFile) - i else 0)
      && forall t :: 0 <= t < |vs| ==> ValueAt(smtFile[i + t], i + t) == Some(vs[t])
    decreases End(smtFile) - i
  {
    if i < End(smtFile) && ValueAt(smtFile[i], i).Some? {
      ValuesFromValues(smtFile, i + 1);
      var rest := ValuesFrom(smtFile, i + 1);
      if rest.Solved? {
        var vs := ValuesFrom(smtFile, i).values;
        assert vs == [ValueAt(smtFile[i], i).value] + rest.values;
        forall t | 0 <= t < |vs| ensures ValueAt(smtFile[i + t], i + t) == Some(vs[t]) {
          if t > 0 {
            assert vs[t] == rest.values[t - 1];
          }
        }
      }
    }
  }

  /** When the loop fails, it fails on the first visited line without its token. */
  lemma {:induction false} ValuesFromError(smtFile: seq<seq<string>>, i: nat)
    requires i >= 1
    ensures ValuesFrom(smtFile, i).IndexError? ==>
      var j := ValuesFrom(smtFile, i).line;
      && i <= j < End(smtFile)
      && ValueAt(smtFile[j], j) == None
      && forall k :: i <= k < j ==> ValueAt(smtFile[k], k).Some?
    decreases End(smtFile) - i
  {
    if i < End(smtFile) && ValueAt(smtFile[i], i).Some? {
      ValuesFromError(smtFile, i + 1);
    }
  }

  /** What get_from_smt yields: nothing for an unsatisfiable response; otherwise
      one value from each of lines 1 .. min(49, |smtFile| - 1), in line order, or
      the IndexError of the first of those lines that lacks its token. */
  lemma ExtractOutcome(smtFile: seq<seq<string>>, sat: bool)
    ensures !sat ==> Extract(smtFile, sat) == Solved([])
    ensures sat && Extract(smtFile, sat).Solved? ==>
      var vs := Extract(smtFile, sat).values;
      && |vs| == (if |smtFile| <= 1 then 0 else if |smtFile| - 1 < 49 then |smtFile| - 1 else 49)
      && forall t :: 0 <= t < |vs| ==> ValueAt(smtFile[t + 1], t + 1) == Some(vs[t])
    ensures sat ==> (Extract(smtFile, sat).Solved? <==>
      forall k :: 1 <= k < End(smtFile) ==> ValueAt(smtFile[k], k).Some?)
    ensures sat && Extract(smtFile, sat).IndexError? ==>
      var j := Extract(smtFile, sat).line;
      && 1 <= j < End(smtFile)
      && ValueAt(smtFile[j], j) == None
      && forall k :: 1 <= k < j ==> ValueAt(smtFile[k], k).Some?
  {
    ValuesFromSolved(smtFile, 1);
    ValuesFromValues(smtFile, 1);
    ValuesFromError(smtFile, 1);
    if sat && Extract(smtFile, sat).Solved? {
      var vs := Extract(smtFile, sat).values;
      forall t | 0 <= t < |vs| ensures ValueAt(smtFile[t + 1], t + 1) == Some(vs[t]) {
        assert ValueAt(smtFile[1 + t], 1 + t) == Some(vs[t]);
      }
    }
  }

  const NotSatisfiable: string := "Puzzle is not satisfiable.\n"

  /** The text `write_solution` writes (smt2kenken.py:69-74). */
  function SolutionText(solved: seq<string>): string
  {
    if |solved| > 0 then Join(solved, "") + "\n" else NotSatisfiable
  }

  /** `write_solution`: opens the solution file afresh and writes the text. */
  method WriteSolution(solved: seq<string>) returns (text: string)
    ensures text == SolutionText(solved)
  {
    var solution := new OutputFile();
    if |solved| > 0 {
      var joined := Join(solved, "");
      solution.Write(joined);
      solution.Write("\n");
      assert solution.text == joined + "\n";
    } else {
      solution.Write(NotSatisfiable);
    }
    text := solution.text;
  }

  /** The digits of one-digit values, joined. */
  function Digits(values: seq<nat>): (s: string)
    requires forall k :: 0 <= k < |values| ==> values[k] < 10
    ensures |s| == |values|
  {
    seq(|values|, k requires 0 <= k < |values| => DigitChar(values[k]))
  }

  /** The decimal renderings of the values. */
  function Rendered(values: seq<nat>): (r: seq<string>)
    ensures |r| == |values|
  {
    seq(|values|, k requires 0 <= k < |values| => NatToString(values[k]))
  }

  /** A solution of one-digit values is written as its digits and a newline, which
      reads back as the values and can never be mistaken for the message. */
  lemma {:induction false} SolutionOfDigits(values: seq<nat>)
    requires |values| >= 1
    requires forall k :: 0 <= k < |values| ==> values[k] < 10
    ensures SolutionText(Rendered(values)) == Digits(values) + "\n"
    ensures forall k :: 0 <= k < |values| ==> DigitValue(SolutionText(Rendered(values))[k]) == values[k]
    ensures SolutionText(Rendered(values)) != NotSatisfiable
    decreases |values|
  {
    JoinOfDigits(values);
    var text := SolutionText(Rendered(values));
    assert text[0] == DigitChar(values[0]);
    assert NotSatisfiable[0] == 'P';
  }

  lemma {:induction false} JoinOfDigits(values: seq<nat>)
    requires forall k :: 0 <= k < |values| ==> values[k] < 10
    ensures Join(Rendered(values), "") == Digits(values)
    decreases |values|
  {
    if |values| == 1 {
      assert Rendered(values)[0] == [DigitChar(values[0])];
    } else if |values| > 1 {
      JoinOfDigits(values[1..]);
      assert Rendered(values)[1..] == Rendered(values[1..]);
      assert Rendered(values)[0] == [DigitChar(values[0])];
      assert Digits(values) == [DigitChar(values[0])] + Digits(values[1..]);
    }
  }

  /** The whole decoder (smt2kenken.py:83-85): the text written to solution.txt for a
      solver response, or None when get_from_smt stops with an IndexError. */
  function Decode(lines: seq<string>): (r: Option<string>)
    ensures !Satisfiable(lines) ==> r == Some(NotSatisfiable)
    ensures |lines| <= 1 ==> r == Some(NotSatisfiable)
  {
    match Extract(Stored(lines), Satisfiable(lines))
    case Solved(vs) => Some(SolutionText(vs))
    case IndexError(_) => None
  }

  /** The space-separated tokens of value line `i` (from 1), laid out so that the
      value sits where get_from_smt reads it: "( (V0 v" on the first value line,
      "  (Vk v" on the others. */
  function ValueTokens(i: nat, v: string): (tokens: seq<string>)
    requires i >= 1
    ensures |tokens| == TokenPosition(i) + 1 && tokens[TokenPosition(i)] == v
  {
    if i == 1 then ["(", "(" + Name(0), v] else ["", "", "(" + Name(i - 1), v]
  }

  /** Value line `i` as the solver prints it: the tokens, then ")" and a newline. */
  function ResponseLine(i: nat, v: string): string
    requires i >= 1
  {
    Join(ValueTokens(i, v), " ") + ")\n"
  }

  /** A solver response: "sat", then value line i pairing V(i-1) with values[i-1]. */
  function Response(values: seq<nat>): (lines: seq<string>)
    ensures |lines| == |values| + 1
  {
    ["sat\n"] + seq(|values|, k requires 0 <= k < |values| => ResponseLine(k + 1, NatToString(values[k])))
  }

  /** A line without the letter 'u' never reports unsat. */
  lemma NotUnsat(line: string)
    requires 'u' !in line
    ensures !IsUnsat(line)
  {
    RemoveCharSubset(line, '\n');
    NoInfixWithoutFirstChar(RemoveChar(line, '\n'), "unsat");
  }

  lemma DigitsLack(s: string, c: char)
    requires AllDigits(s) && !IsDigit(c)
    ensures c !in s
  {
    forall k | 0 <= k < |s| ensures s[k] != c {
      assert IsDigit(s[k]);
    }
  }

  /** No token of a value line holds `c` when neither the value nor the name does. */
  lemma ValueTokensLack(i: nat, v: string, c: char)
    requires i >= 1 && c !in v && c !in Name(i - 1) && c != '('
    ensures forall k :: 0 <= k < |ValueTokens(i, v)| ==> c !in ValueTokens(i, v)[k]
    ensures forall p :: p in ValueTokens(i, v) ==> c !in p
  {
  }

  /** A line that ends in ")" and a newline, with neither before them, is stored
      as the text before the ')' and an empty field. */
  lemma ClosedLineFields(body: string)
    requires ')' !in body && '\n' !in body
    ensures Fields(body + ")\n") == [body, ""]
  {
    RemoveCharAppend(body, ")\n", '\n');
    assert RemoveChar(")\n", '\n') == ")";
    assert body + ")" == body + [')'] + "";
    SplitAtSeparator(body, "", ')');
    SplitWithoutSeparator(body, ')');
  }

  /** A value line holds no 'u' and is stored as its tokens joined, then an empty
      field after the ')'. */
  lemma ValueLineFields(i: nat, v: string)
    requires i >= 1
    requires ')' !in v && '\n' !in v && 'u' !in v
    ensures 'u' !in ResponseLine(i, v)
    ensures Fields(ResponseLine(i, v)) == [Join(ValueTokens(i, v), " "), ""]
  {
    NameCharacters(i - 1);
    var tokens := ValueTokens(i, v);
    ValueTokensLack(i, v, ')');
    ValueTokensLack(i, v, '\n');
    ValueTokensLack(i, v, 'u');
    JoinLacks(tokens, " ", ')');
    JoinLacks(tokens, " ", '\n');
    JoinLacks(tokens, " ", 'u');
    ClosedLineFields(Join(tokens, " "));
  }

  /** get_from_smt reads the value back from a value line. */
  lemma ResponseLineValue(i: nat, v: string)
    requires i >= 1
    requires ' ' !in v && ')' !in v && '\n' !in v && 'u' !in v
    ensures 'u' !in ResponseLine(i, v)
    ensures ValueAt(Fields(ResponseLine(i, v)), i) == Some(v)
  {
    ValueLineFields(i, v);
    NameCharacters(i - 1);
    ValueTokensLack(i, v, ' ');
    SplitOfJoin(ValueTokens(i, v), ' ');
  }

  /** No line of a response reports unsat, and every value line yields its value. */
  lemma ResponseLinesRead(values: seq<nat>)
    ensures Satisfiable(Response(values))
    ensures forall k :: 1 <= k < |Response(values)| ==>
      ValueAt(Fields(Response(values)[k]), k) == Some(NatToString(values[k - 1]))
  {
    var lines := Response(values);
    forall k | 0 <= k < |lines|
      ensures !IsUnsat(lines[k])
      ensures k >= 1 ==> ValueAt(Fields(lines[k]), k) == Some(NatToString(values[k - 1]))
    {
      if k == 0 {
        NotUnsat(lines[0]);
      } else {
        var v := NatToString(values[k - 1]);
        DigitsLack(v, 'u');
        DigitsLack(v, ' ');
        DigitsLack(v, ')');
        DigitsLack(v, '\n');
        assert lines[k] == ResponseLine(k, v);
        ResponseLineValue(k, v);
        NotUnsat(lines[k]);
      }
    }
  }

  /** When every visited line yields the expected value, get_from_smt yields
      exactly the expected values. */
  lemma ExtractExpected(smtFile: seq<seq<string>>, expected: seq<string>)
    requires |expected| + 1 == End(smtFile)
    requires forall k :: 1 <= k < End(smtFile) ==> ValueAt(smtFile[k], k) == Some(expected[k - 1])
    ensures Extract(smtFile, true) == Solved(expected)
  {
    ExtractOutcome(smtFile, true);
    var vs := Extract(smtFile, true).values;
    forall t | 0 <= t < |vs| ensures vs[t] == expected[t] {
      assert ValueAt(smtFile[t + 1], t + 1) == Some(vs[t]);
    }
  }

  /** A satisfiable response of at most 50 lines whose value lines yield the
      expected values decodes to exactly those values. */
  lemma StoredValues(lines: seq<string>, expected: seq<string>)
    requires Satisfiable(lines) && |lines| <= 50 && |expected| + 1 == |lines|
    requires forall k :: 1 <= k < |lines| ==> ValueAt(Fields(lines[k]), k) == Some(expected[k - 1])
    ensures Extract(Stored(lines), true) == Solved(expected)
  {
    StoredLines(lines);
    var smtFile := Stored(lines);
    forall k | 1 <= k < End(smtFile) ensures ValueAt(smtFile[k], k) == Some(expected[k - 1]) {
      assert smtFile[k] == Fields(lines[k]);
    }
    ExtractExpected(smtFile, expected);
  }

  /** read_from_smt and get_from_smt recover the rendered values from a response
      with 1 to 49 value lines. */
  lemma ResponseExtract(values: seq<nat>)
    requires 1 <= |values| <= 49
    ensures Satisfiable(Response(values))
    ensures Extract(Stored(Response(values)), true) == Solved(Rendered(values))
  {
    var lines := Response(values);
    var rendered := Rendered(values);
    ResponseLinesRead(values);
    forall k | 1 <= k < |lines| ensures ValueAt(Fields(lines[k]), k) == Some(rendered[k - 1]) {
      assert rendered[k - 1] == NatToString(values[k - 1]);
    }
    StoredValues(lines, rendered);
  }

  /** Round trip (smt2kenken.py:30-85): a satisfiable response with one value line
      per cell, laid out as ResponseLine, decodes to the values' digits and a
      newline. */
  lemma RoundTrip(values: seq<nat>)
    requires 1 <= |values| <= 49
    requires forall k :: 0 <= k < |values| ==> values[k] < 10
    ensures Decode(Response(values)) == Some(Digits(values) + "\n")
  {
    ResponseExtract(values);
    SolutionOfDigits(values);
  }
}
