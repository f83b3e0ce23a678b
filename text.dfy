/** Python string operations used by both translators, over `string` (= seq<char>):
    `s.split(c)`, `sep.join(parts)`, `s.strip(c)` (built from its left half
    `LStrip` and right half `RStrip`), `s.rstrip(c)`, `re.sub(c, '', s)` for a
    single character, `str(n)` for a natural number and the substring test
    `sub in s`. `Count` is a helper that sizes the result of `split`. */
module Text {

  /** Number of occurrences of `c` in `s`. */
  function Count(s: string, c: char): (n: nat)
    ensures n <= |s|
    ensures n == 0 <==> c !in s
  {
    if |s| == 0 then 0
    else
      assert s == [s[0]] + s[1..];
      (if s[0] == c then 1 else 0) + Count(s[1..], c)
  }

  /** Python's `s.split(sep)` for a one-character separator: the pieces between
      separators, always at least one (the empty string splits into [""]). */
  function Split(s: string, sep: char): (parts: seq<string>)
    ensures |parts| == Count(s, sep) + 1
  {
    if |s| == 0 then [""] else ConsPiece(s[0], sep, Split(s[1..], sep))
  }

  /** The pieces of [x] + t, given the pieces `rest` of t: a separator starts a new
      empty piece, any other character joins the first piece. */
  function ConsPiece(x: char, sep: char, rest: seq<string>): (parts: seq<string>)
    requires |rest| >= 1
    ensures |parts| == |rest| + (if x == sep then 1 else 0)
  {
    if x == sep then [""] + rest else [[x] + rest[0]] + rest[1..]
  }

  /** Adding a character in front only touches the first pieces. */
  lemma ConsPieceAppend(x: char, sep: char, ra: seq<string>, rb: seq<string>)
    requires |ra| >= 1
    ensures ConsPiece(x, sep, ra + rb) == ConsPiece(x, sep, ra) + rb
  {
    assert (ra + rb)[1..] == ra[1..] + rb;
  }

  /** No piece of a split contains the separator. */
  lemma {:induction false} SplitPiecesLackSeparator(s: string, sep: char)
    ensures forall p :: p in Split(s, sep) ==> sep !in p
  {
    if |s| > 0 {
      SplitPiecesLackSeparator(s[1..], sep);
      var rest := Split(s[1..], sep);
      assert rest[0] in rest;
      assert forall p :: p in rest[1..] ==> p in rest;
    }
  }

  /** Python's `sep.join(parts)`. */
  function Join(parts: seq<string>, sep: string): string
  {
    if |parts| == 0 then ""
    else if |parts| == 1 then parts[0]
    else parts[0] + sep + Join(parts[1..], sep)
  }

  /** A string without the separator splits into itself. */
  lemma {:induction false} SplitWithoutSeparator(s: string, sep: char)
    requires sep !in s
    ensures Split(s, sep) == [s]
  {
    if |s| > 0 {
      assert s == [s[0]] + s[1..];
      SplitWithoutSeparator(s[1..], sep);
    }
  }

  /** Splitting distributes over a separator occurrence. */
  lemma {:induction false} SplitAtSeparator(a: string, b: string, sep: char)
    ensures Split(a + [sep] + b, sep) == Split(a, sep) + Split(b, sep)
  {
    var s := a + [sep] + b;
    if |a| == 0 {
      assert s[1..] == b;
    } else {
      assert s[0] == a[0] && s[1..] == a[1..] + [sep] + b;
      SplitAtSeparator(a[1..], b, sep);
      ConsPieceAppend(a[0], sep, Split(a[1..], sep), Split(b, sep));
    }
  }

  /** Joining the pieces of a split with the separator gives back the string. */
  lemma {:induction false} JoinOfSplit(s: string, sep: char)
    ensures Join(Split(s, sep), [sep]) == s
  {
    if |s| > 0 {
      JoinOfSplit(s[1..], sep);
      JoinOfConsPiece(s[0], sep, Split(s[1..], sep));
      assert s == [s[0]] + s[1..];
    }
  }

  /** Joining undoes ConsPiece: the character reappears in front. */
  lemma JoinOfConsPiece(x: char, sep: char, rest: seq<string>)
    requires |rest| >= 1
    ensures Join(ConsPiece(x, sep, rest), [sep]) == [x] + Join(rest, [sep])
  {
    if x == sep {
      JoinCons("", rest, [sep]);
    } else {
      JoinOfConsPieceOther(x, sep, rest, [sep]);
    }
  }

  /** JoinOfConsPiece for a character other than the separator. */
  lemma JoinOfConsPieceOther(x: char, sep: char, rest: seq<string>, d: string)
    requires |rest| >= 1 && x != sep
    ensures Join(ConsPiece(x, sep, rest), d) == [x] + Join(rest, d)
  {
    if |rest| > 1 {
      assert ConsPiece(x, sep, rest) == [[x] + rest[0]] + rest[1..];
      JoinExtendFirst(x, rest[0], rest[1..], d);
      assert [rest[0]] + rest[1..] == rest;
    }
  }

  /** Extending the first piece extends the joined string in front. */
  lemma JoinExtendFirst(x: char, first: string, tail: seq<string>, sep: string)
    requires |tail| >= 1
    ensures Join([[x] + first] + tail, sep) == [x] + Join([first] + tail, sep)
  {
    JoinCons([x] + first, tail, sep);
    JoinCons(first, tail, sep);
  }

  /** One unfolding of Join on a list of at least two pieces. */
  lemma JoinCons(p: string, rest: seq<string>, sep: string)
    requires |rest| >= 1
    ensures Join([p] + rest, sep) == p + sep + Join(rest, sep)
  {
    assert ([p] + rest)[1..] == rest;
  }

  /** Splitting a join of separator-free pieces gives back the pieces. */
  lemma {:induction false} SplitOfJoin(parts: seq<string>, sep: char)
    requires |parts| >= 1
    requires forall p :: p in parts ==> sep !in p
    ensures Split(Join(parts, [sep]), sep) == parts
  {
    assert parts[0] in parts;
    SplitWithoutSeparator(parts[0], sep);
    if |parts| > 1 {
      assert forall p :: p in parts[1..] ==> p in parts;
      SplitOfJoin(parts[1..], sep);
      SplitAtSeparator(parts[0], Join(parts[1..], [sep]), sep);
      assert [parts[0]] + parts[1..] == parts;
    }
  }

  /** Concatenation regroups. */
  lemma Regroup<T>(a: seq<T>, b: seq<T>, c: seq<T>)
    ensures (a + b) + c == a + (b + c)
  {
  }

  /** g(i) + sep + g(i + 1) + sep + ... + g(n - 1) + sep: what a loop writing
      `g(k)` followed by `sep` for k in range(i, n) produces. */
  function Terminated(g: nat -> string, sep: char, i: nat, n: nat): string
    requires i <= n
    decreases n - i
  {
    if i == n then "" else g(i) + [sep] + Terminated(g, sep, i + 1, n)
  }

  /** The items [g(i), ..., g(n - 1)]. */
  function Items(g: nat -> string, i: nat, n: nat): (r: seq<string>)
    requires i <= n
    ensures |r| == n - i
    decreases n - i
  {
    if i == n then [] else [g(i)] + Items(g, i + 1, n)
  }

  /** Item k of Items(g, i, n) is g(i + k). */
  lemma {:induction false} ItemsAt(g: nat -> string, i: nat, n: nat, k: nat)
    requires i <= n && k < n - i
    ensures Items(g, i, n)[k] == g(i + k)
    decreases k
  {
    if k > 0 {
      ItemsAt(g, i + 1, n, k - 1);
    }
  }

  /** Splitting a terminated list at its separator gives back the items in order,
      then the empty piece after the last separator. */
  lemma {:induction false} SplitTerminated(g: nat -> string, sep: char, i: nat, n: nat)
    requires i <= n
    requires forall k :: i <= k < n ==> sep !in g(k)
    ensures Split(Terminated(g, sep, i, n), sep) == Items(g, i, n) + [""]
    decreases n - i
  {
    if i < n {
      var rest := Terminated(g, sep, i + 1, n);
      calc {
        Split(Terminated(g, sep, i, n), sep);
        Split(g(i) + [sep] + rest, sep);
        { SplitAtSeparator(g(i), rest, sep); }
        Split(g(i), sep) + Split(rest, sep);
        { SplitWithoutSeparator(g(i), sep); SplitTerminated(g, sep, i + 1, n); }
        [g(i)] + (Items(g, i + 1, n) + [""]);
        Items(g, i, n) + [""];
      }
    }
  }

  /** The pieces of a terminated list of n items: item k is g(k), and one empty
      piece follows the last separator. */
  lemma TerminatedPieces(g: nat -> string, sep: char, n: nat)
    requires forall k :: 0 <= k < n ==> sep !in g(k)
    ensures var pieces := Split(Terminated(g, sep, 0, n), sep);
      && |pieces| == n + 1
      && pieces[n] == ""
      && forall k :: 0 <= k < n ==> pieces[k] == g(k)
  {
    SplitTerminated(g, sep, 0, n);
    forall k | 0 <= k < n ensures Items(g, 0, n)[k] == g(k) {
      ItemsAt(g, 0, n, k);
    }
  }

  /** A character in neither the pieces nor the separator is not in their join. */
  lemma {:induction false} JoinLacks(parts: seq<string>, sep: string, c: char)
    requires forall k :: 0 <= k < |parts| ==> c !in parts[k]
    requires c !in sep
    ensures c !in Join(parts, sep)
  {
    if |parts| > 1 {
      JoinLacks(parts[1..], sep, c);
    }
  }

  /** The left half of Python's `s.strip(c)`: drop every leading `c`. */
  function LStrip(s: string, c: char): (r: string)
    ensures |r| <= |s| && r == s[|s| - |r|..]
    ensures r == [] || r[0] != c
  {
    if |s| > 0 && s[0] == c then LStrip(s[1..], c) else s
  }

  /** LStrip removes nothing but `c`. */
  lemma {:induction false} LStripRemovesOnly(s: string, c: char)
    ensures forall k :: 0 <= k < |s| - |LStrip(s, c)| ==> s[k] == c
  {
    if |s| > 0 && s[0] == c {
      LStripRemovesOnly(s[1..], c);
    }
  }

  /** Python's `s.rstrip(c)`: drop every trailing `c`. */
  function RStrip(s: string, c: char): (r: string)
    ensures |r| <= |s| && r == s[..|r|]
    ensures r == [] || r[|r| - 1] != c
  {
    if |s| > 0 && s[|s| - 1] == c then RStrip(s[..|s| - 1], c) else s
  }

  /** RStrip removes nothing but `c`. */
  lemma {:induction false} RStripRemovesOnly(s: string, c: char)
    ensures forall k :: |RStrip(s, c)| <= k < |s| ==> s[k] == c
  {
    if |s| > 0 && s[|s| - 1] == c {
      RStripRemovesOnly(s[..|s| - 1], c);
    }
  }

  /** Python's `s.strip(c)`: drop `c` from both ends. */
  function Strip(s: string, c: char): (r: string)
    ensures r == [] || (r[0] != c && r[|r| - 1] != c)
  {
    RStrip(LStrip(s, c), c)
  }

  /** Strip keeps every character other than `c`, adds none, and leaves a string
      without `c` alone. */
  lemma StripKeepsCharacters(s: string, c: char)
    ensures forall x :: x in s && x != c ==> x in Strip(s, c)
    ensures forall x :: x in Strip(s, c) ==> x in s
    ensures c !in s ==> Strip(s, c) == s
  {
    var l := LStrip(s, c);
    LStripRemovesOnly(s, c);
    StripKeepsOthers(s, l, c, |s| - |l|, |s|);
    var r := RStrip(l, c);
    RStripRemovesOnly(l, c);
    StripKeepsOthers(l, r, c, 0, |r|);
  }

  /** If `r` is the slice s[i..j] and everything outside it is `c`, then `r` keeps
      every character of `s` other than `c`, and only characters of `s`. */
  lemma StripKeepsOthers(s: string, r: string, c: char, i: nat, j: nat)
    requires i <= j <= |s| && r == s[i..j]
    requires forall k :: 0 <= k < i ==> s[k] == c
    requires forall k :: j <= k < |s| ==> s[k] == c
    ensures forall x :: x in s && x != c ==> x in r
    ensures forall x :: x in r ==> x in s
    ensures c !in s ==> r == s
  {
    forall x | x in s && x != c ensures x in r {
      var k :| 0 <= k < |s| && s[k] == x;
      assert r[k - i] == x;
    }
    assert i > 0 ==> s[0] == c && s[0] in s;
    assert j < |s| ==> s[|s| - 1] == c && s[|s| - 1] in s;
    if c !in s {
      assert r == s[0..|s|];
    }
  }

  /** `re.sub(c, '', s)` for a one-character pattern: every `c` removed, the rest in order. */
  function RemoveChar(s: string, c: char): (r: string)
    ensures c !in r
    ensures |r| == |s| - Count(s, c)
    ensures c !in s ==> r == s
  {
    if |s| == 0 then ""
    else
      assert s == [s[0]] + s[1..];
      if s[0] == c then RemoveChar(s[1..], c) else [s[0]] + RemoveChar(s[1..], c)
  }

  /** RemoveChar adds no character. */
  lemma {:induction false} RemoveCharSubset(s: string, c: char)
    ensures forall x :: x in RemoveChar(s, c) ==> x in s
  {
    if |s| > 0 {
      RemoveCharSubset(s[1..], c);
      assert s == [s[0]] + s[1..];
    }
  }

  /** Removing a character distributes over concatenation. */
  lemma {:induction false} RemoveCharAppend(a: string, b: string, c: char)
    ensures RemoveChar(a + b, c) == RemoveChar(a, c) + RemoveChar(b, c)
  {
    if |a| == 0 {
      assert a + b == b;
    } else {
      var ab := a + b;
      assert ab[0] == a[0] && ab[1..] == a[1..] + b;
      RemoveCharAppend(a[1..], b, c);
      if a[0] != c {
        Regroup([a[0]], RemoveChar(a[1..], c), RemoveChar(b, c));
      }
    }
  }

  /** Python's `sub in s`. */
  predicate HasInfix(s: string, sub: string)
  {
    exists i :: 0 <= i <= |s| - |sub| && InfixAt(s, sub, i)
  }

  /** `sub` occurs in `s` starting at index `i`. */
  predicate InfixAt(s: string, sub: string, i: int)
  {
    0 <= i <= |s| - |sub| && s[i..i + |sub|] == sub
  }

  /** A non-empty pattern whose first character never occurs is never found. */
  lemma NoInfixWithoutFirstChar(s: string, sub: string)
    requires |sub| > 0 && sub[0] !in s
    ensures !HasInfix(s, sub)
  {
    forall i | 0 <= i <= |s| - |sub| ensures !InfixAt(s, sub, i) {
      assert s[i] in s;
      assert s[i..i + |sub|][0] == s[i];
    }
  }

  predicate IsDigit(ch: char) { '0' <= ch <= '9' }

  function DigitValue(ch: char): (d: nat)
    requires IsDigit(ch)
    ensures d < 10
  {
    ch as int - '0' as int
  }

  function DigitChar(d: nat): (ch: char)
    requires d < 10
    ensures IsDigit(ch) && DigitValue(ch) == d
  {
    "0123456789"[d]
  }

  /** Every character of `s` is a decimal digit. */
  predicate AllDigits(s: string)
  {
    forall i :: 0 <= i < |s| ==> IsDigit(s[i])
  }

  /** Python's `str(n)` for n >= 0: decimal digits, no leading zero. */
  function NatToString(n: nat): (r: string)
    ensures |r| >= 1
    ensures AllDigits(r)
    ensures |r| > 1 ==> r[0] != '0'
  {
    if n < 10 then [DigitChar(n)] else NatToString(n / 10) + [DigitChar(n % 10)]
  }

  /** The value of a string of decimal digits (Python's `int(s)` on such strings). */
  function DecimalValue(s: string): nat
    requires AllDigits(s)
  {
    if |s| == 0 then 0
    else 10 * DecimalValue(s[..|s| - 1]) + DigitValue(s[|s| - 1])
  }

  /** Reading back a rendered number gives the number. */
  lemma {:induction false} DecimalValueOfNatToString(n: nat)
    ensures DecimalValue(NatToString(n)) == n
  {
    if n >= 10 {
      var r := NatToString(n);
      assert r[..|r| - 1] == NatToString(n / 10);
      DecimalValueOfNatToString(n / 10);
    }
  }

  /** Distinct numbers render as distinct strings. */
  lemma NatToStringInjective(a: nat, b: nat)
    requires NatToString(a) == NatToString(b)
    ensures a == b
  {
    DecimalValueOfNatToString(a);
    DecimalValueOfNatToString(b);
  }
}
