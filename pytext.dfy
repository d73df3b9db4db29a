/**
 * The Python string built-ins the extraction core relies on: `" ".join`,
 * `str.split()` with no argument, `int()` on a decimal string, the ordering
 * of `str` values and `list.sort()` on a list of strings.
 */
module PyText {
  import opened Wrappers

  // ---------------------------------------------------------------------
  // str.split() and " ".join
  // ---------------------------------------------------------------------

  /**
   * The separators the model gives `str.split()`: space, tab, line feed,
   * carriage return, vertical tab and form feed. Python also splits on
   * U+001C to U+001F and further Unicode whitespace, which the model leaves out.
   */
  predicate IsSpace(c: char) {
    c == ' ' || c == '\t' || c == '\n' || c == '\r' || c == '\U{B}' || c == '\U{C}'
  }

  predicate NoSpace(w: string) {
    forall i :: 0 <= i < |w| ==> !IsSpace(w[i])
  }

  /** A non-empty string without separators: what `str.split()` can return. */
  predicate IsToken(w: string) {
    |w| > 0 && NoSpace(w)
  }

  /** `" ".join(ws)` */
  function Join(ws: seq<string>): string
  {
    if |ws| == 0 then ""
    else if |ws| == 1 then ws[0]
    else ws[0] + " " + Join(ws[1..])
  }

  /** Length of the run of non-separators at the start of `s`. */
  function TokenLength(s: string): (n: nat)
    ensures n <= |s|
    ensures |s| > 0 && !IsSpace(s[0]) ==> n > 0
  {
    if |s| == 0 || IsSpace(s[0]) then 0 else 1 + TokenLength(s[1..])
  }

  /** `s.split()`: the maximal runs of non-separators, left to right. */
  function Split(s: string): (ws: seq<string>)
    ensures forall i :: 0 <= i < |ws| ==> IsToken(ws[i])
    decreases |s|
  {
    if |s| == 0 then []
    else if IsSpace(s[0]) then Split(s[1..])
    else
      var n := TokenLength(s);
      TokenLengthNoSpace(s);
      [s[..n]] + Split(s[n..])
  }

  lemma {:induction false} TokenLengthNoSpace(s: string)
    ensures NoSpace(s[..TokenLength(s)])
    decreases |s|
  {
    if |s| > 0 && !IsSpace(s[0]) {
      TokenLengthNoSpace(s[1..]);
      assert s[..TokenLength(s)] == [s[0]] + s[1..][..TokenLength(s[1..])];
    }
  }

  lemma {:induction false} TokenLengthOf(w: string, t: string)
    requires NoSpace(w)
    requires |t| == 0 || IsSpace(t[0])
    ensures TokenLength(w + t) == |w|
    decreases |w|
  {
    if |w| > 0 {
      assert (w + t)[0] == w[0];
      assert (w + t)[1..] == w[1..] + t;
      TokenLengthOf(w[1..], t);
    } else {
      assert w + t == t;
    }
  }

  /** Splitting a space-joined list of tokens gives the list back, the empty list included. */
  lemma {:induction false} SplitJoin(ws: seq<string>)
    requires forall i :: 0 <= i < |ws| ==> IsToken(ws[i])
    ensures Split(Join(ws)) == ws
  {
    if |ws| == 1 {
      var w := ws[0];
      TokenLengthOf(w, "");
      assert w + "" == w;
      assert w[..|w|] == w && w[|w|..] == "";
    } else if |ws| > 1 {
      var w, j := ws[0], Join(ws[1..]);
      var s := w + " " + j;
      TokenLengthOf(w, " " + j);
      assert w + (" " + j) == s;
      assert s[..|w|] == w;
      assert s[|w|..] == " " + j;
      assert (" " + j)[1..] == j;
      SplitJoin(ws[1..]);
      assert ws == [w] + ws[1..];
    }
  }

  // ---------------------------------------------------------------------
  // int() on a decimal string
  // ---------------------------------------------------------------------

  predicate IsDigit(c: char) {
    '0' <= c <= '9'
  }

  predicate AllDigits(s: string) {
    forall i :: 0 <= i < |s| ==> IsDigit(s[i])
  }

  predicate IsDecimal(s: string) {
    |s| > 0 && AllDigits(s)
  }

  function DigitValue(c: char): nat
    requires IsDigit(c)
  {
    (c as int) - ('0' as int)
  }

  function DecimalValue(s: string): nat
    requires AllDigits(s)
    decreases |s|
  {
    if |s| == 0 then 0 else 10 * DecimalValue(s[..|s| - 1]) + DigitValue(s[|s| - 1])
  }

  /** `int(s)`, restricted to plain decimal strings; anything else raises ValueError. */
  function ParseInt(s: string): Result<nat>
  {
    if IsDecimal(s) then Ok(DecimalValue(s)) else Err(ValueError)
  }

  function DigitChar(d: nat): (c: char)
    requires d < 10
    ensures IsDigit(c) && DigitValue(c) == d
  {
    ('0' as int + d) as char
  }

  /** `str(n)` for a natural number: the decimal digits of `n`. */
  function ShowNat(n: nat): (s: string)
    ensures IsDecimal(s)
    decreases n
  {
    if n < 10 then [DigitChar(n)] else ShowNat(n / 10) + [DigitChar(n % 10)]
  }

  /** `int(str(n)) == n` */
  lemma {:induction false} ParseShow(n: nat)
    ensures ParseInt(ShowNat(n)) == Ok(n)
    decreases n
  {
    var s := ShowNat(n);
    if n < 10 {
      assert s[..|s| - 1] == [];
      assert DecimalValue(s) == 10 * DecimalValue([]) + DigitValue(s[0]);
    } else {
      ParseShow(n / 10);
      assert s[..|s| - 1] == ShowNat(n / 10);
      assert DecimalValue(s) == 10 * (n / 10) + n % 10;
    }
  }

  // ---------------------------------------------------------------------
  // String ordering and list.sort()
  // ---------------------------------------------------------------------

  /** `a <= b` on Python strings: code-point lexicographic order, a prefix first. */
  predicate LexLe(a: string, b: string)
    decreases |a|
  {
    |a| == 0 || (|b| > 0 && (a[0] < b[0] || (a[0] == b[0] && LexLe(a[1..], b[1..]))))
  }

  lemma {:induction false} LexLeTotal(a: string, b: string)
    ensures LexLe(a, b) || LexLe(b, a)
    decreases |a|
  {
    if |a| > 0 && |b| > 0 && a[0] == b[0] {
      LexLeTotal(a[1..], b[1..]);
    }
  }

  lemma {:induction false} LexLeTransitive(a: string, b: string, c: string)
    requires LexLe(a, b) && LexLe(b, c)
    ensures LexLe(a, c)
    decreases |a|
  {
    if |a| > 0 && |b| > 0 && |c| > 0 && a[0] == b[0] && b[0] == c[0] {
      LexLeTransitive(a[1..], b[1..], c[1..]);
    }
  }

  lemma {:induction false} LexLeAntisymmetric(a: string, b: string)
    requires LexLe(a, b) && LexLe(b, a)
    ensures a == b
    decreases |a|
  {
    if |a| > 0 {
      LexLeAntisymmetric(a[1..], b[1..]);
      assert a == [a[0]] + a[1..];
      assert b == [b[0]] + b[1..];
    }
  }

  predicate Sorted(s: seq<string>) {
    forall i, j :: 0 <= i < j < |s| ==> LexLe(s[i], s[j])
  }

  /** Inserts `x` before the first element it does not exceed. */
  function InsertSorted(x: string, s: seq<string>): seq<string>
  {
    if |s| == 0 then [x]
    else if LexLe(x, s[0]) then [x] + s
    else [s[0]] + InsertSorted(x, s[1..])
  }

  /** `sorted(s)`: the ascending arrangement of `s` that `list.sort()` produces. */
  function SortStrings(s: seq<string>): seq<string>
  {
    if |s| == 0 then [] else InsertSorted(s[0], SortStrings(s[1..]))
  }

  lemma {:induction false} InsertSortedPermutes(x: string, s: seq<string>)
    ensures multiset(InsertSorted(x, s)) == multiset(s) + multiset{x}
    decreases |s|
  {
    if |s| > 0 {
      assert s == [s[0]] + s[1..];
      if !LexLe(x, s[0]) {
        InsertSortedPermutes(x, s[1..]);
      }
    }
  }

  /** A lower bound of `x` and of every element of `s` bounds the insertion result. */
  lemma {:induction false} InsertSortedBounded(x: string, s: seq<string>, m: string)
    requires LexLe(m, x)
    requires forall k :: 0 <= k < |s| ==> LexLe(m, s[k])
    ensures forall k :: 0 <= k < |InsertSorted(x, s)| ==> LexLe(m, InsertSorted(x, s)[k])
    decreases |s|
  {
    if |s| > 0 && !LexLe(x, s[0]) {
      InsertSortedBounded(x, s[1..], m);
    }
  }

  lemma {:induction false} InsertSortedSorted(x: string, s: seq<string>)
    requires Sorted(s)
    ensures Sorted(InsertSorted(x, s))
    decreases |s|
  {
    if |s| == 0 {
    } else if LexLe(x, s[0]) {
      var r := [x] + s;
      forall i, j | 0 <= i < j < |r|
        ensures LexLe(r[i], r[j])
      {
        if i == 0 && j > 1 {
          LexLeTransitive(x, s[0], s[j - 1]);
        }
      }
    } else {
      LexLeTotal(x, s[0]);
      var t := InsertSorted(x, s[1..]);
      InsertSortedSorted(x, s[1..]);
      InsertSortedBounded(x, s[1..], s[0]);
      var r := [s[0]] + t;
      assert r == InsertSorted(x, s);
      forall i, j | 0 <= i < j < |r|
        ensures LexLe(r[i], r[j])
      {
        if i == 0 {
          assert LexLe(s[0], t[j - 1]);
        } else {
          assert r[i] == t[i - 1] && r[j] == t[j - 1];
        }
      }
    }
  }

  /** The result of sorting is ascending and a permutation of the input. */
  lemma {:induction false} SortStringsCorrect(s: seq<string>)
    ensures Sorted(SortStrings(s))
    ensures multiset(SortStrings(s)) == multiset(s)
    decreases |s|
  {
    if |s| > 0 {
      SortStringsCorrect(s[1..]);
      InsertSortedSorted(s[0], SortStrings(s[1..]));
      InsertSortedPermutes(s[0], SortStrings(s[1..]));
      assert s == [s[0]] + s[1..];
    }
  }

  /** The first element of an ascending list is at most every element of it. */
  lemma SortedHeadLeast(a: seq<string>, x: string)
    requires Sorted(a) && x in multiset(a)
    ensures LexLe(a[0], x)
  {
    var p :| 0 <= p < |a| && a[p] == x;
    if p == 0 {
      LexLeTotal(x, x);
    }
  }

  /** Two ascending arrangements of the same strings are equal: the sort result is unique. */
  lemma {:induction false} SortedUnique(a: seq<string>, b: seq<string>)
    requires Sorted(a) && Sorted(b) && multiset(a) == multiset(b)
    ensures a == b
    decreases |a|
  {
    assert |a| == |multiset(a)| == |multiset(b)| == |b|;
    if |a| > 0 {
      assert a[0] in multiset(a) && b[0] in multiset(b);
      SortedHeadLeast(a, b[0]);
      SortedHeadLeast(b, a[0]);
      LexLeAntisymmetric(a[0], b[0]);
      assert a == [a[0]] + a[1..];
      assert b == [b[0]] + b[1..];
      assert multiset(a) == multiset{a[0]} + multiset(a[1..]);
      assert multiset(b) == multiset{b[0]} + multiset(b[1..]);
      assert multiset(a[1..]) == multiset(a) - multiset{a[0]};
      assert multiset(b[1..]) == multiset(b) - multiset{b[0]};
      SortedUnique(a[1..], b[1..]);
    }
  }
}
