/**
 * The analysis side of the admissions-stats tool: which records match an
 * outcome, the year/outcome filter over the stored records, and the
 * frequency tables built from `Counter.most_common()` followed by an "All"
 * row, together with the slices that drop that row before export.
 * Percentages, the summary statistics and the widgets are not modelled.
 */
module Analysis {
  import opened Wrappers
  import opened PyText
  import opened Data

  /** The years each kind of data covers. */
  const A_LEVEL_YEARS: seq<int> := [2022, 2023, 2024]
  const GCSE_YEARS: seq<int> := [2022, 2023]
  const TMUA_YEARS: seq<int> := [2022, 2023, 2024]

  /** Sheet names in an XLSX workbook are limited to this many characters. */
  const MAX_SHEET_NAME_LENGTH := 31

  // ---------------------------------------------------------------------
  // Outcomes
  // ---------------------------------------------------------------------

  /** An application's outcome; every application has `Any` plus at least one other. */
  datatype Outcome = OriginalCollegeOffer | OtherCollegeOffer | WinterPool | Nothing | Any

  /** `matches_outcome(record, outcome)` */
  predicate MatchesOutcome(r: Record, o: Outcome) {
    match o
    case OriginalCollegeOffer => r.originalCollege
    case OtherCollegeOffer => r.otherCollege
    case WinterPool => r.winterPool
    case Nothing => !r.originalCollege && !r.otherCollege && !r.winterPool
    case Any => true
  }

  /** Every record matches `Any` and at least one other outcome. */
  lemma EveryRecordHasAnOutcome(r: Record)
    ensures MatchesOutcome(r, Any)
    ensures exists o :: o != Any && MatchesOutcome(r, o)
  {
    if r.originalCollege {
      assert MatchesOutcome(r, OriginalCollegeOffer);
    } else if r.otherCollege {
      assert MatchesOutcome(r, OtherCollegeOffer);
    } else if r.winterPool {
      assert MatchesOutcome(r, WinterPool);
    } else {
      assert MatchesOutcome(r, Nothing);
    }
  }

  /** `Nothing` holds exactly when none of the three named outcomes does. */
  lemma NothingExcludesOffers(r: Record)
    ensures MatchesOutcome(r, Nothing) <==>
              forall o :: o != Nothing && o != Any ==> !MatchesOutcome(r, o)
  {
    if !MatchesOutcome(r, Nothing) {
      if r.originalCollege {
        assert MatchesOutcome(r, OriginalCollegeOffer);
      } else if r.otherCollege {
        assert MatchesOutcome(r, OtherCollegeOffer);
      } else {
        assert MatchesOutcome(r, WinterPool);
      }
    }
  }

  // ---------------------------------------------------------------------
  // Filtering
  // ---------------------------------------------------------------------

  /** `[record for record in data if record.year in years and matches_outcome(record, outcome)]` */
  function FilterRecords(data: seq<Record>, years: seq<int>, o: Outcome): seq<Record>
  {
    if |data| == 0 then []
    else
      (if data[0].year in years && MatchesOutcome(data[0], o) then [data[0]] else []) +
      FilterRecords(data[1..], years, o)
  }

  /** A record is kept exactly when it is in the data, its year is selected and it matches the outcome. */
  lemma {:induction false} FilterMembers(data: seq<Record>, years: seq<int>, o: Outcome, r: Record)
    ensures r in FilterRecords(data, years, o) <==> r in data && r.year in years && MatchesOutcome(r, o)
    ensures |FilterRecords(data, years, o)| <= |data|
  {
    if |data| > 0 {
      FilterMembers(data[1..], years, o, r);
      assert data == [data[0]] + data[1..];
    }
  }

  /** Filtering keeps the records' original order: it distributes over concatenation. */
  lemma {:induction false} FilterAppend(a: seq<Record>, b: seq<Record>, years: seq<int>, o: Outcome)
    ensures FilterRecords(a + b, years, o) == FilterRecords(a, years, o) + FilterRecords(b, years, o)
  {
    if |a| == 0 {
      assert a + b == b;
    } else {
      var head := if a[0].year in years && MatchesOutcome(a[0], o) then [a[0]] else [];
      assert (a + b)[0] == a[0];
      assert (a + b)[1..] == a[1..] + b;
      FilterAppend(a[1..], b, years, o);
      calc {
        FilterRecords(a + b, years, o);
        head + FilterRecords(a[1..] + b, years, o);
        head + (FilterRecords(a[1..], years, o) + FilterRecords(b, years, o));
        (head + FilterRecords(a[1..], years, o)) + FilterRecords(b, years, o);
      }
    }
  }

  /** Filtering twice with the same settings changes nothing. */
  lemma {:induction false} FilterIdempotent(data: seq<Record>, years: seq<int>, o: Outcome)
    ensures FilterRecords(FilterRecords(data, years, o), years, o) == FilterRecords(data, years, o)
  {
    if |data| > 0 {
      var head := if data[0].year in years && MatchesOutcome(data[0], o) then [data[0]] else [];
      FilterAppend(head, FilterRecords(data[1..], years, o), years, o);
      FilterIdempotent(data[1..], years, o);
      if head != [] {
        assert head[1..] == [];
      }
    }
  }

  /** With `Any` and every year of the data selected, nothing is filtered out. */
  lemma {:induction false} FilterKeepsAll(data: seq<Record>, years: seq<int>)
    requires forall i :: 0 <= i < |data| ==> data[i].year in years
    ensures FilterRecords(data, years, Any) == data
  {
    if |data| > 0 {
      FilterKeepsAll(data[1..], years);
      assert data == [data[0]] + data[1..];
    }
  }

  // ---------------------------------------------------------------------
  // Counter and most_common()
  // ---------------------------------------------------------------------

  /** The distinct values of `xs` in first-seen order: the key order of `Counter(xs)`. */
  function Distinct<K(==)>(xs: seq<K>): seq<K>
  {
    if |xs| == 0 then []
    else
      var d := Distinct(xs[..|xs| - 1]);
      if xs[|xs| - 1] in d then d else d + [xs[|xs| - 1]]
  }

  /** `Counter(xs)[k]` */
  function Count<K(==)>(xs: seq<K>, k: K): nat {
    multiset(xs)[k]
  }

  /** The (key, count) pairs of `keys`, in that order. */
  function Tally<K(==)>(keys: seq<K>, xs: seq<K>): seq<(K, nat)>
  {
    if |keys| == 0 then []
    else Tally(keys[..|keys| - 1], xs) + [(keys[|keys| - 1], Count(xs, keys[|keys| - 1]))]
  }

  /** Inserts `x` after every pair with a strictly larger count and before the rest. */
  function InsertDesc<K>(x: (K, nat), s: seq<(K, nat)>): seq<(K, nat)>
  {
    if |s| == 0 then [x]
    else if s[0].1 <= x.1 then [x] + s
    else [s[0]] + InsertDesc(x, s[1..])
  }

  /** A stable sort by descending count: `sorted(pairs, key=count, reverse=True)`. */
  function SortDesc<K>(s: seq<(K, nat)>): seq<(K, nat)>
  {
    if |s| == 0 then [] else InsertDesc(s[0], SortDesc(s[1..]))
  }

  /** `Counter(xs).most_common()` */
  function MostCommon<K(==)>(xs: seq<K>): seq<(K, nat)>
  {
    SortDesc(Tally(Distinct(xs), xs))
  }

  predicate NonIncreasing<K>(s: seq<(K, nat)>) {
    forall p, q :: 0 <= p < q < |s| ==> s[p].1 >= s[q].1
  }

  predicate NoDuplicates<K(==)>(s: seq<K>) {
    forall p, q :: 0 <= p < q < |s| ==> s[p] != s[q]
  }

  function Keys<K>(s: seq<(K, nat)>): seq<K>
  {
    if |s| == 0 then [] else [s[0].0] + Keys(s[1..])
  }

  function Total<K>(s: seq<(K, nat)>): nat
  {
    if |s| == 0 then 0 else s[0].1 + Total(s[1..])
  }

  /** The pairs of `s` whose count is `c`, in order. */
  function WithCount<K>(s: seq<(K, nat)>, c: nat): seq<(K, nat)>
  {
    if |s| == 0 then [] else (if s[0].1 == c then [s[0]] else []) + WithCount(s[1..], c)
  }

  lemma {:induction false} DistinctMembers<K>(xs: seq<K>, k: K)
    ensures k in Distinct(xs) <==> k in xs
  {
    if |xs| > 0 {
      DistinctMembers(xs[..|xs| - 1], k);
      assert xs == xs[..|xs| - 1] + [xs[|xs| - 1]];
    }
  }

  lemma {:induction false} DistinctNoDuplicates<K>(xs: seq<K>)
    ensures NoDuplicates(Distinct(xs))
  {
    if |xs| > 0 {
      DistinctNoDuplicates(xs[..|xs| - 1]);
    }
  }

  lemma {:induction false} TallyMembers<K>(keys: seq<K>, xs: seq<K>, x: (K, nat))
    ensures x in Tally(keys, xs) <==> x.0 in keys && x.1 == Count(xs, x.0)
  {
    if |keys| > 0 {
      var init := keys[..|keys| - 1];
      TallyMembers(init, xs, x);
      assert keys == init + [keys[|keys| - 1]];
    }
  }

  lemma {:induction false} TallyKeys<K>(keys: seq<K>, xs: seq<K>)
    ensures Keys(Tally(keys, xs)) == keys
  {
    if |keys| > 0 {
      var init := keys[..|keys| - 1];
      TallyKeys(init, xs);
      KeysAppend(Tally(init, xs), [(keys[|keys| - 1], Count(xs, keys[|keys| - 1]))]);
      assert keys == init + [keys[|keys| - 1]];
    }
  }

  lemma {:induction false} KeysAppend<K>(a: seq<(K, nat)>, b: seq<(K, nat)>)
    ensures Keys(a + b) == Keys(a) + Keys(b)
  {
    if |a| == 0 {
      assert a + b == b;
    } else {
      assert (a + b)[1..] == a[1..] + b;
      KeysAppend(a[1..], b);
    }
  }

  lemma {:induction false} TotalAppend<K>(a: seq<(K, nat)>, b: seq<(K, nat)>)
    ensures Total(a + b) == Total(a) + Total(b)
  {
    if |a| == 0 {
      assert a + b == b;
    } else {
      assert (a + b)[1..] == a[1..] + b;
      TotalAppend(a[1..], b);
    }
  }

  lemma {:induction false} InsertDescPermutes<K>(x: (K, nat), s: seq<(K, nat)>)
    ensures multiset(InsertDesc(x, s)) == multiset(s) + multiset{x}
  {
    if |s| > 0 {
      assert s == [s[0]] + s[1..];
      if s[0].1 > x.1 {
        InsertDescPermutes(x, s[1..]);
      }
    }
  }

  lemma {:induction false} InsertDescKeys<K>(x: (K, nat), s: seq<(K, nat)>)
    ensures multiset(Keys(InsertDesc(x, s))) == multiset(Keys(s)) + multiset{x.0}
  {
    if |s| > 0 && s[0].1 > x.1 {
      InsertDescKeys(x, s[1..]);
    }
  }

  lemma {:induction false} InsertDescTotal<K>(x: (K, nat), s: seq<(K, nat)>)
    ensures Total(InsertDesc(x, s)) == Total(s) + x.1
  {
    if |s| > 0 && s[0].1 > x.1 {
      InsertDescTotal(x, s[1..]);
    }
  }

  lemma {:induction false} InsertDescOrdered<K>(x: (K, nat), s: seq<(K, nat)>)
    requires NonIncreasing(s)
    ensures NonIncreasing(InsertDesc(x, s))
  {
    if |s| > 0 && s[0].1 > x.1 {
      InsertDescOrdered(x, s[1..]);
      InsertDescPermutes(x, s[1..]);
      var t := InsertDesc(x, s[1..]);
      forall k | 0 <= k < |t| ensures s[0].1 >= t[k].1 {
        assert t[k] in multiset(t);
        if t[k] != x {
          assert t[k] in multiset(s[1..]);
        }
      }
      assert InsertDesc(x, s) == [s[0]] + t;
    }
  }

  lemma {:induction false} InsertDescStable<K>(x: (K, nat), s: seq<(K, nat)>, c: nat)
    ensures WithCount(InsertDesc(x, s), c) == WithCount([x] + s, c)
  {
    if |s| > 0 && s[0].1 > x.1 {
      InsertDescStable(x, s[1..], c);
      assert ([x] + s)[1..] == s;
      assert ([x] + s[1..])[1..] == s[1..];
      assert ([s[0]] + InsertDesc(x, s[1..]))[1..] == InsertDesc(x, s[1..]);
    }
  }

  /**
   * The sort is a permutation, is descending by count, keeps the total
   * count, and keeps pairs of equal count in their original order.
   */
  lemma {:induction false} SortDescCorrect<K>(s: seq<(K, nat)>, c: nat)
    ensures multiset(SortDesc(s)) == multiset(s)
    ensures multiset(Keys(SortDesc(s))) == multiset(Keys(s))
    ensures Total(SortDesc(s)) == Total(s)
    ensures NonIncreasing(SortDesc(s))
    ensures WithCount(SortDesc(s), c) == WithCount(s, c)
  {
    if |s| > 0 {
      SortDescCorrect(s[1..], c);
      InsertDescPermutes(s[0], SortDesc(s[1..]));
      InsertDescKeys(s[0], SortDesc(s[1..]));
      InsertDescTotal(s[0], SortDesc(s[1..]));
      InsertDescOrdered(s[0], SortDesc(s[1..]));
      InsertDescStable(s[0], SortDesc(s[1..]), c);
      assert s == [s[0]] + s[1..];
      assert ([s[0]] + SortDesc(s[1..]))[1..] == SortDesc(s[1..]);
      assert Keys(s) == [s[0].0] + Keys(s[1..]);
    }
  }

  lemma MultisetNoDuplicates<K>(a: seq<K>, b: seq<K>)
    requires multiset(a) == multiset(b) && NoDuplicates(a)
    ensures NoDuplicates(b)
  {
    forall p, q | 0 <= p < q < |b| ensures b[p] != b[q] {
      SingleOccurrence(a, b[p]);
      RepeatCounted(b, p, q);
    }
  }

  lemma RepeatCounted<K>(b: seq<K>, p: nat, q: nat)
    requires p < q < |b|
    ensures b[p] == b[q] ==> multiset(b)[b[p]] >= 2
  {
    assert b == b[..p] + [b[p]] + b[p + 1..];
    assert b[p + 1..] == b[p + 1..q] + [b[q]] + b[q + 1..];
  }

  lemma {:induction false} SingleOccurrence<K>(a: seq<K>, x: K)
    requires NoDuplicates(a)
    ensures multiset(a)[x] <= 1
  {
    if |a| > 0 {
      assert a == [a[0]] + a[1..];
      SingleOccurrence(a[1..], x);
      if a[0] == x {
        assert x !in a[1..];
      }
    }
  }

  lemma {:induction false} TallyTotal<K>(keys: seq<K>, xs: seq<K>, x: K)
    requires NoDuplicates(keys)
    ensures Total(Tally(keys, xs + [x])) == Total(Tally(keys, xs)) + (if x in keys then 1 else 0)
  {
    if |keys| > 0 {
      var init, last := keys[..|keys| - 1], keys[|keys| - 1];
      TallyTotal(init, xs, x);
      TotalAppend(Tally(init, xs + [x]), [(last, Count(xs + [x], last))]);
      TotalAppend(Tally(init, xs), [(last, Count(xs, last))]);
      assert multiset(xs + [x]) == multiset(xs) + multiset{x};
      assert keys == init + [last];
      assert last !in init;
    }
  }

  /** The counts of the distinct values add up to the number of values. */
  lemma {:induction false} DistinctTally<K>(xs: seq<K>)
    ensures Total(Tally(Distinct(xs), xs)) == |xs|
  {
    if |xs| > 0 {
      var init, last := xs[..|xs| - 1], xs[|xs| - 1];
      assert xs == init + [last];
      DistinctTally(init);
      var d := Distinct(init);
      DistinctMembers(init, last);
      DistinctNoDuplicates(init);
      TallyTotal(d, init, last);
      if last !in d {
        assert Distinct(xs) == d + [last];
        TotalAppend(Tally(d, xs), [(last, Count(xs, last))]);
        assert Tally(d + [last], xs) == Tally(d, xs) + [(last, Count(xs, last))] by {
          assert (d + [last])[..|d|] == d;
        }
        assert Count(init, last) == 0;
        assert multiset(xs) == multiset(init) + multiset{last};
      }
    }
  }

  /**
   * `most_common()` lists every distinct value once with its number of
   * occurrences, in descending count order; its counts add up to the
   * number of values; values with the same count keep first-seen order.
   */
  lemma MostCommonCorrect<K>(xs: seq<K>, c: nat)
    ensures forall k :: k in Keys(MostCommon(xs)) <==> k in xs
    ensures NoDuplicates(Keys(MostCommon(xs)))
    ensures forall p :: p in MostCommon(xs) ==> p.1 == Count(xs, p.0) && p.1 > 0
    ensures NonIncreasing(MostCommon(xs))
    ensures Total(MostCommon(xs)) == |xs|
    ensures WithCount(MostCommon(xs), c) == WithCount(Tally(Distinct(xs), xs), c)
  {
    var t := Tally(Distinct(xs), xs);
    SortDescCorrect(t, c);
    DistinctTally(xs);
    TallyKeys(Distinct(xs), xs);
    forall k ensures k in Keys(MostCommon(xs)) <==> k in xs {
      DistinctMembers(xs, k);
      assert k in Keys(MostCommon(xs)) <==> k in multiset(Keys(t));
    }
    DistinctNoDuplicates(xs);
    MultisetNoDuplicates(Keys(t), Keys(MostCommon(xs)));
    forall p | p in MostCommon(xs) ensures p.1 == Count(xs, p.0) && p.1 > 0 {
      assert p in multiset(t);
      TallyMembers(Distinct(xs), xs, p);
      DistinctMembers(xs, p.0);
    }
  }

  // ---------------------------------------------------------------------
  // Summary tables
  // ---------------------------------------------------------------------

  /** A row of a frequency table: a value and its count, or the closing "All" row. */
  datatype Row<K> = Row(key: K, count: nat) | AllRow(count: nat)

  function RowsOf<K>(pairs: seq<(K, nat)>): seq<Row<K>>
  {
    if |pairs| == 0 then []
    else RowsOf(pairs[..|pairs| - 1]) + [Row(pairs[|pairs| - 1].0, pairs[|pairs| - 1].1)]
  }

  /** One row per `most_common()` pair, then `("All", len(values))`. */
  function SummaryRows<K(==)>(values: seq<K>): seq<Row<K>>
  {
    RowsOf(MostCommon(values)) + [AllRow(|values|)]
  }

  /** The sum of the counts of `rows`. */
  function RowTotal<K>(rows: seq<Row<K>>): nat
  {
    if |rows| == 0 then 0 else RowTotal(rows[..|rows| - 1]) + rows[|rows| - 1].count
  }

  /** The loop that appends one row per `most_common()` pair and then the "All" row. */
  method SummaryTable<K(==)>(values: seq<K>) returns (rows: seq<Row<K>>)
    ensures rows == SummaryRows(values)
  {
    var common := MostCommon(values);
    rows := [];
    var i := 0;
    while i < |common|
      invariant 0 <= i <= |common|
      invariant rows == RowsOf(common[..i])
    {
      assert common[..i + 1][..i] == common[..i];
      rows := rows + [Row(common[i].0, common[i].1)];
      i := i + 1;
    }
    assert common[..i] == common;
    rows := rows + [AllRow(|values|)];
  }

  lemma {:induction false} RowsOfIndex<K>(pairs: seq<(K, nat)>)
    ensures |RowsOf(pairs)| == |pairs|
    ensures forall i :: 0 <= i < |pairs| ==> RowsOf(pairs)[i] == Row(pairs[i].0, pairs[i].1)
  {
    if |pairs| > 0 {
      RowsOfIndex(pairs[..|pairs| - 1]);
    }
  }

  lemma {:induction false} RowsOfTotal<K>(pairs: seq<(K, nat)>)
    ensures RowTotal(RowsOf(pairs)) == Total(pairs)
  {
    if |pairs| > 0 {
      var init := pairs[..|pairs| - 1];
      RowsOfTotal(init);
      TotalAppend(init, [pairs[|pairs| - 1]]);
      assert pairs == init + [pairs[|pairs| - 1]];
      assert RowsOf(pairs)[..|RowsOf(pairs)| - 1] == RowsOf(init);
    }
  }

  lemma {:induction false} KeysIndex<K>(s: seq<(K, nat)>)
    ensures |Keys(s)| == |s|
    ensures forall i :: 0 <= i < |s| ==> Keys(s)[i] == s[i].0
  {
    if |s| > 0 {
      KeysIndex(s[1..]);
    }
  }

  /** Row `i` of a summary table is the `i`-th most common pair; the last row is "All". */
  lemma SummaryRowsLayout<K>(values: seq<K>)
    ensures var rows := SummaryRows(values);
            var common := MostCommon(values);
            |rows| == |common| + 1 && rows[|rows| - 1] == AllRow(|values|) &&
            rows[..|rows| - 1] == RowsOf(common) &&
            forall i :: 0 <= i < |common| ==> rows[i] == Row(common[i].0, common[i].1)
  {
    RowsOfIndex(MostCommon(values));
  }

  lemma SummaryRowsCounts<K>(values: seq<K>)
    ensures var rows := SummaryRows(values);
            |rows| > 0 && RowTotal(rows[..|rows| - 1]) == |values| &&
            forall i :: 0 <= i < |rows| - 1 ==> rows[i].Row? && rows[i].count == Count(values, rows[i].key) > 0
  {
    var common := MostCommon(values);
    var rows := SummaryRows(values);
    SummaryRowsLayout(values);
    MostCommonCorrect(values, 0);
    RowsOfTotal(common);
    forall i | 0 <= i < |rows| - 1 ensures rows[i].Row? && rows[i].count == Count(values, rows[i].key) > 0 {
      assert common[i] in common;
    }
  }

  lemma SummaryRowsOrdered<K>(values: seq<K>)
    ensures var rows := SummaryRows(values);
            forall i :: 0 <= i < |rows| - 1 ==> rows[i].Row?
    ensures var rows := SummaryRows(values);
            forall i, j :: 0 <= i < j < |rows| - 1 ==> rows[i].key != rows[j].key && rows[i].count >= rows[j].count
  {
    var common := MostCommon(values);
    var rows := SummaryRows(values);
    SummaryRowsLayout(values);
    MostCommonCorrect(values, 0);
    KeysIndex(common);
    forall i, j | 0 <= i < j < |rows| - 1 ensures rows[i].key != rows[j].key && rows[i].count >= rows[j].count {
      assert Keys(common)[i] != Keys(common)[j];
    }
  }

  lemma SummaryRowsMembers<K>(values: seq<K>)
    ensures var rows := SummaryRows(values);
            forall k :: k in values <==> exists i :: 0 <= i < |rows| - 1 && rows[i] == Row(k, Count(values, k))
  {
    var common := MostCommon(values);
    var rows := SummaryRows(values);
    SummaryRowsLayout(values);
    MostCommonCorrect(values, 0);
    KeysIndex(common);
    forall k ensures k in values <==> exists i :: 0 <= i < |rows| - 1 && rows[i] == Row(k, Count(values, k)) {
      if k in values {
        assert k in Keys(common);
        var i :| 0 <= i < |Keys(common)| && Keys(common)[i] == k;
        assert common[i] in common;
        assert rows[i] == Row(k, Count(values, k));
      }
      if exists i :: 0 <= i < |rows| - 1 && rows[i] == Row(k, Count(values, k)) {
        var i :| 0 <= i < |rows| - 1 && rows[i] == Row(k, Count(values, k));
        assert Keys(common)[i] == k;
      }
    }
  }

  /**
   * A summary table lists every distinct value once, with its number of
   * occurrences, by non-increasing count, and ends with an "All" row whose
   * count is the number of values and the sum of the other rows' counts.
   */
  lemma SummaryRowsCorrect<K>(values: seq<K>)
    ensures var rows := SummaryRows(values);
            |rows| > 0 && rows[|rows| - 1] == AllRow(|values|) &&
            RowTotal(rows[..|rows| - 1]) == |values| &&
            (forall i :: 0 <= i < |rows| - 1 ==> rows[i].Row? && rows[i].count == Count(values, rows[i].key) > 0) &&
            (forall i, j :: 0 <= i < j < |rows| - 1 ==> rows[i].key != rows[j].key && rows[i].count >= rows[j].count) &&
            (forall k :: k in values <==> exists i :: 0 <= i < |rows| - 1 && rows[i] == Row(k, Count(values, k)))
  {
    SummaryRowsLayout(values);
    SummaryRowsCounts(values);
    SummaryRowsOrdered(values);
    SummaryRowsMembers(values);
  }

  /** `rows[:-1]`: every row but the last, and nothing for an empty list. */
  function SummaryExport<K>(rows: seq<Row<K>>): seq<Row<K>>
  {
    if |rows| == 0 then [] else rows[..|rows| - 1]
  }

  /** The summary export of a table is its value rows, without the "All" row. */
  lemma SummaryExportDropsAll<K>(values: seq<K>)
    ensures SummaryExport(SummaryRows(values)) == RowsOf(MostCommon(values))
    ensures forall i :: 0 <= i < |SummaryExport(SummaryRows(values))| ==> SummaryExport(SummaryRows(values))[i].Row?
    ensures |SummaryExport(SummaryRows(values))| == |Distinct(values)|
  {
    RowsOfIndex(MostCommon(values));
    assert SummaryRows(values)[..|SummaryRows(values)| - 1] == RowsOf(MostCommon(values));
    SortDescCorrect(Tally(Distinct(values), values), 0);
    TallyKeys(Distinct(values), values);
    KeysIndex(MostCommon(values));
    KeysIndex(Tally(Distinct(values), values));
    assert |multiset(Keys(MostCommon(values)))| == |multiset(Distinct(values))|;
  }

  /** The JSON entries of a summary: each exported row as (value, count). */
  function SummaryJson<K>(rows: seq<Row<K>>): seq<(K, nat)>
    requires forall i :: 0 <= i < |rows| ==> rows[i].Row?
  {
    if |rows| == 0 then [] else [(rows[0].key, rows[0].count)] + SummaryJson(rows[1..])
  }

  /** The summary JSON of a value table: its exported rows as (value, count), the "All" row dropped. */
  function ValueSummaryJson<K(==)>(values: seq<K>): seq<(K, nat)>
  {
    SummaryExportDropsAll(values);
    SummaryJson(SummaryExport(SummaryRows(values)))
  }

  /** `summary_table_json_data` of the GCSE tab, percentages aside. */
  function GCSESummaryJson(records: seq<Record>): seq<(nat, nat)>
    requires forall i :: 0 <= i < |records| ==> records[i].GCSE?
  {
    ValueSummaryJson(NinesOf(records))
  }

  /** `summary_table_json_data` of the TMUA tab for the selected score column, percentages aside. */
  function TMUASummaryJson(records: seq<Record>, f: ScoreField): seq<(real, nat)>
    requires forall i :: 0 <= i < |records| ==> records[i].TMUA?
  {
    ValueSummaryJson(ScoresOf(records, f))
  }

  /** The A-Level JSON entries: each exported grade combination split back into its grades. */
  function GradeSummaryJson(rows: seq<Row<string>>): seq<(seq<string>, nat)>
    requires forall i :: 0 <= i < |rows| ==> rows[i].Row?
  {
    if |rows| == 0 then [] else [(Split(rows[0].key), rows[0].count)] + GradeSummaryJson(rows[1..])
  }

  /** `" ".join(record.grades)` for each filtered A-Level record. */
  function GradeKeys(records: seq<Record>): (keys: seq<string>)
    requires forall i :: 0 <= i < |records| ==> records[i].ALevel?
    ensures |keys| == |records|
  {
    if |records| == 0 then [] else [Join(records[0].grades)] + GradeKeys(records[1..])
  }

  /** `[record.nines for record in records]` */
  function NinesOf(records: seq<Record>): (nines: seq<nat>)
    requires forall i :: 0 <= i < |records| ==> records[i].GCSE?
    ensures |nines| == |records|
  {
    if |records| == 0 then [] else [records[0].nines] + NinesOf(records[1..])
  }

  /** A TMUA score column: paper 1, paper 2 or the overall score. */
  datatype ScoreField = Paper1 | Paper2 | Overall

  function Score(r: Record, f: ScoreField): real
    requires r.TMUA?
  {
    match f
    case Paper1 => r.paper1
    case Paper2 => r.paper2
    case Overall => r.overall
  }

  /** `[getattr(record, field) for record in records]` */
  function ScoresOf(records: seq<Record>, f: ScoreField): (scores: seq<real>)
    requires forall i :: 0 <= i < |records| ==> records[i].TMUA?
    ensures |scores| == |records|
  {
    if |records| == 0 then [] else [Score(records[0], f)] + ScoresOf(records[1..], f)
  }

  predicate GradesAreTokens(records: seq<Record>)
    requires forall i :: 0 <= i < |records| ==> records[i].ALevel?
  {
    forall i, g :: 0 <= i < |records| && g in records[i].grades ==> IsToken(g)
  }

  lemma {:induction false} GradeKeysMembers(records: seq<Record>, k: string)
    requires forall i :: 0 <= i < |records| ==> records[i].ALevel?
    ensures k in GradeKeys(records) <==> exists i :: 0 <= i < |records| && Join(records[i].grades) == k
  {
    if |records| > 0 {
      GradeKeysMembers(records[1..], k);
      if k in GradeKeys(records[1..]) {
        var i :| 0 <= i < |records[1..]| && Join(records[1..][i].grades) == k;
        assert Join(records[i + 1].grades) == k;
      }
      if exists i :: 0 <= i < |records| && Join(records[i].grades) == k {
        var i :| 0 <= i < |records| && Join(records[i].grades) == k;
        if i > 0 {
          assert Join(records[1..][i - 1].grades) == k;
        }
      }
    }
  }

  lemma {:induction false} GradeSummaryJsonIndex(rows: seq<Row<string>>)
    requires forall i :: 0 <= i < |rows| ==> rows[i].Row?
    ensures |GradeSummaryJson(rows)| == |rows|
    ensures forall i :: 0 <= i < |rows| ==> GradeSummaryJson(rows)[i] == (Split(rows[i].key), rows[i].count)
  {
    if |rows| > 0 {
      GradeSummaryJsonIndex(rows[1..]);
    }
  }

  /** `summary_table_json_data` of the A-Level tab, percentages aside. */
  function ALevelSummaryJson(records: seq<Record>): seq<(seq<string>, nat)>
    requires forall i :: 0 <= i < |records| ==> records[i].ALevel?
  {
    var keys := GradeKeys(records);
    SummaryExportDropsAll(keys);
    GradeSummaryJson(SummaryExport(SummaryRows(keys)))
  }

  lemma {:induction false} SummaryJsonIndex<K>(rows: seq<Row<K>>)
    requires forall i :: 0 <= i < |rows| ==> rows[i].Row?
    ensures |SummaryJson(rows)| == |rows|
    ensures forall i :: 0 <= i < |rows| ==> SummaryJson(rows)[i] == (rows[i].key, rows[i].count)
  {
    if |rows| > 0 {
      SummaryJsonIndex(rows[1..]);
    }
  }

  /** Position `p` of a value summary JSON is the `p`-th value row of the table. */
  lemma ValueSummaryJsonIndex<K>(values: seq<K>)
    ensures var rows := SummaryRows(values);
            |ValueSummaryJson(values)| == |rows| - 1 &&
            forall p :: 0 <= p < |rows| - 1 ==>
              rows[p].Row? && ValueSummaryJson(values)[p] == (rows[p].key, rows[p].count)
  {
    var all := SummaryRows(values);
    SummaryExportDropsAll(values);
    SummaryRowsLayout(values);
    assert SummaryExport(all) == all[..|all| - 1];
    SummaryJsonIndex(SummaryExport(all));
  }

  /**
   * A value summary JSON holds exactly one entry per distinct value, each
   * with the number of times that value occurs: an entry is there iff its
   * value occurs and its count is that value's count.
   */
  lemma ValueSummaryJsonExact<K>(values: seq<K>)
    ensures forall e :: e in ValueSummaryJson(values) <==> e.0 in values && e.1 == Count(values, e.0)
    ensures |ValueSummaryJson(values)| == |Distinct(values)|
  {
    var rows := SummaryRows(values);
    var json := ValueSummaryJson(values);
    ValueSummaryJsonIndex(values);
    SummaryRowsCounts(values);
    SummaryRowsMembers(values);
    SummaryExportDropsAll(values);
    forall e ensures e in json <==> e.0 in values && e.1 == Count(values, e.0) {
      if e in json {
        var p :| 0 <= p < |json| && json[p] == e;
        assert rows[p] == Row(e.0, Count(values, e.0));
      }
      if e.0 in values && e.1 == Count(values, e.0) {
        var p :| 0 <= p < |rows| - 1 && rows[p] == Row(e.0, Count(values, e.0));
        assert json[p] == e;
      }
    }
  }

  lemma {:induction false} NinesOfIndex(records: seq<Record>)
    requires forall i :: 0 <= i < |records| ==> records[i].GCSE?
    ensures forall i :: 0 <= i < |records| ==> NinesOf(records)[i] == records[i].nines
  {
    if |records| > 0 {
      NinesOfIndex(records[1..]);
    }
  }

  lemma {:induction false} ScoresOfIndex(records: seq<Record>, f: ScoreField)
    requires forall i :: 0 <= i < |records| ==> records[i].TMUA?
    ensures forall i :: 0 <= i < |records| ==> ScoresOf(records, f)[i] == Score(records[i], f)
  {
    if |records| > 0 {
      ScoresOfIndex(records[1..], f);
    }
  }

  lemma NinesOfMembers(records: seq<Record>, n: nat)
    requires forall i :: 0 <= i < |records| ==> records[i].GCSE?
    ensures n in NinesOf(records) <==> exists i :: 0 <= i < |records| && records[i].nines == n
  {
    NinesOfIndex(records);
    if n in NinesOf(records) {
      var i :| 0 <= i < |NinesOf(records)| && NinesOf(records)[i] == n;
    }
  }

  lemma ScoresOfMembers(records: seq<Record>, f: ScoreField, x: real)
    requires forall i :: 0 <= i < |records| ==> records[i].TMUA?
    ensures x in ScoresOf(records, f) <==> exists i :: 0 <= i < |records| && Score(records[i], f) == x
  {
    ScoresOfIndex(records, f);
    if x in ScoresOf(records, f) {
      var i :| 0 <= i < |ScoresOf(records, f)| && ScoresOf(records, f)[i] == x;
    }
  }

  /**
   * The GCSE summary JSON has an entry (n, c) iff some filtered record has
   * n nines and c filtered records have n nines.
   */
  lemma GCSESummaryJsonExact(records: seq<Record>)
    requires forall i :: 0 <= i < |records| ==> records[i].GCSE?
    ensures forall e :: e in GCSESummaryJson(records) <==>
              (exists i :: 0 <= i < |records| && records[i].nines == e.0) && e.1 == Count(NinesOf(records), e.0)
  {
    ValueSummaryJsonExact(NinesOf(records));
    forall n: nat {
      NinesOfMembers(records, n);
    }
  }

  /**
   * The TMUA summary JSON of a score column has an entry (s, c) iff some
   * filtered record scored s in that column and c filtered records did.
   */
  lemma TMUASummaryJsonExact(records: seq<Record>, f: ScoreField)
    requires forall i :: 0 <= i < |records| ==> records[i].TMUA?
    ensures forall e :: e in TMUASummaryJson(records, f) <==>
              (exists i :: 0 <= i < |records| && Score(records[i], f) == e.0) && e.1 == Count(ScoresOf(records, f), e.0)
  {
    ValueSummaryJsonExact(ScoresOf(records, f));
    forall x: real {
      ScoresOfMembers(records, f, x);
    }
  }

  /** Index facts about the A-Level summary JSON. */
  lemma ALevelSummaryJsonIndex(records: seq<Record>)
    requires forall i :: 0 <= i < |records| ==> records[i].ALevel?
    ensures var keys := GradeKeys(records);
            var rows := SummaryRows(keys);
            |ALevelSummaryJson(records)| == |rows| - 1 &&
            forall p :: 0 <= p < |rows| - 1 ==>
              rows[p].Row? && ALevelSummaryJson(records)[p] == (Split(rows[p].key), rows[p].count)
  {
    var keys := GradeKeys(records);
    var all := SummaryRows(keys);
    SummaryExportDropsAll(keys);
    SummaryRowsCorrect(keys);
    assert SummaryExport(all) == all[..|all| - 1];
    GradeSummaryJsonIndex(SummaryExport(all));
  }

  /** The entry at position `p` of the A-Level summary JSON, one at a time. */
  lemma ALevelSummaryEntrySound(records: seq<Record>, p: nat)
    requires forall i :: 0 <= i < |records| ==> records[i].ALevel?
    requires GradesAreTokens(records)
    requires p < |ALevelSummaryJson(records)|
    ensures var e := ALevelSummaryJson(records)[p];
            exists i :: 0 <= i < |records| && e.0 == records[i].grades && e.1 == Count(GradeKeys(records), Join(e.0))
  {
    var keys := GradeKeys(records);
    var rows := SummaryRows(keys);
    ALevelSummaryJsonIndex(records);
    SummaryRowsCorrect(keys);
    var k := rows[p].key;
    assert rows[p] == Row(k, Count(keys, k));
    assert k in keys;
    GradeKeysMembers(records, k);
    var i :| 0 <= i < |records| && Join(records[i].grades) == k;
    SplitJoin(records[i].grades);
  }

  /**
   * Each A-Level summary JSON entry carries, split back into a list, exactly
   * the grades of some filtered record, with the number of filtered records
   * whose joined grades are the same.
   */
  lemma ALevelSummaryJsonSound(records: seq<Record>)
    requires forall i :: 0 <= i < |records| ==> records[i].ALevel?
    requires GradesAreTokens(records)
    ensures forall e :: e in ALevelSummaryJson(records) ==>
              exists i :: 0 <= i < |records| && e.0 == records[i].grades && e.1 == Count(GradeKeys(records), Join(e.0))
  {
    var json := ALevelSummaryJson(records);
    forall e | e in json
      ensures exists i :: 0 <= i < |records| && e.0 == records[i].grades && e.1 == Count(GradeKeys(records), Join(e.0))
    {
      var p :| 0 <= p < |json| && json[p] == e;
      ALevelSummaryEntrySound(records, p);
    }
  }

  /** Every filtered record's grade list appears in the A-Level summary JSON. */
  lemma ALevelSummaryJsonComplete(records: seq<Record>)
    requires forall i :: 0 <= i < |records| ==> records[i].ALevel?
    requires GradesAreTokens(records)
    ensures forall i :: 0 <= i < |records| ==> exists e :: e in ALevelSummaryJson(records) && e.0 == records[i].grades
  {
    var keys := GradeKeys(records);
    var rows := SummaryRows(keys);
    var json := ALevelSummaryJson(records);
    ALevelSummaryJsonIndex(records);
    SummaryRowsCorrect(keys);
    forall i | 0 <= i < |records| ensures exists e :: e in json && e.0 == records[i].grades {
      var k := Join(records[i].grades);
      GradeKeysMembers(records, k);
      var p :| 0 <= p < |rows| - 1 && rows[p] == Row(k, Count(keys, k));
      SplitJoin(records[i].grades);
      assert json[p].0 == records[i].grades;
    }
  }

  // ---------------------------------------------------------------------
  // The analysis tabs
  // ---------------------------------------------------------------------

  /** The A-Level tab: its records, the filtered records and the grade-combination table. */
  class ALevelAnalysis {
    var data: seq<Record>
    var filteredRecords: seq<Record>
    var summaryTableRecords: seq<Row<string>>

    /** Loads the records and shows every year, for original-college offers. */
    constructor (data: seq<Record>)
      requires forall i :: 0 <= i < |data| ==> data[i].ALevel?
      ensures this.data == data
      ensures filteredRecords == FilterRecords(data, A_LEVEL_YEARS, OriginalCollegeOffer)
      ensures forall i :: 0 <= i < |filteredRecords| ==> filteredRecords[i].ALevel?
      ensures summaryTableRecords == SummaryRows(GradeKeys(filteredRecords))
    {
      this.data := data;
      filteredRecords := [];
      summaryTableRecords := [];
      new;
      UpdateTable(A_LEVEL_YEARS, OriginalCollegeOffer);
    }

    /** `update_table`: refilter, then rebuild the frequency table of joined grade lists. */
    method UpdateTable(years: seq<int>, outcome: Outcome)
      requires forall i :: 0 <= i < |data| ==> data[i].ALevel?
      modifies this
      ensures data == old(data)
      ensures filteredRecords == FilterRecords(data, years, outcome)
      ensures forall i :: 0 <= i < |filteredRecords| ==> filteredRecords[i].ALevel?
      ensures summaryTableRecords == SummaryRows(GradeKeys(filteredRecords))
    {
      filteredRecords := FilterRecords(data, years, outcome);
      forall i | 0 <= i < |filteredRecords| ensures filteredRecords[i].ALevel? {
        FilterMembers(data, years, outcome, filteredRecords[i]);
      }
      summaryTableRecords := SummaryTable(GradeKeys(filteredRecords));
    }
  }

  /** The GCSE tab: its records, the filtered records and the table of nines. */
  class GCSEAnalysis {
    var data: seq<Record>
    var filteredRecords: seq<Record>
    var summaryTableRecords: seq<Row<nat>>

    constructor (data: seq<Record>)
      requires forall i :: 0 <= i < |data| ==> data[i].GCSE?
      ensures this.data == data
      ensures filteredRecords == FilterRecords(data, GCSE_YEARS, OriginalCollegeOffer)
      ensures forall i :: 0 <= i < |filteredRecords| ==> filteredRecords[i].GCSE?
      ensures summaryTableRecords == SummaryRows(NinesOf(filteredRecords))
    {
      this.data := data;
      filteredRecords := [];
      summaryTableRecords := [];
      new;
      UpdateOutput(GCSE_YEARS, OriginalCollegeOffer);
    }

    /** `update_output`, counts only: refilter, then rebuild the frequency table of nines. */
    method UpdateOutput(years: seq<int>, outcome: Outcome)
      requires forall i :: 0 <= i < |data| ==> data[i].GCSE?
      modifies this
      ensures data == old(data)
      ensures filteredRecords == FilterRecords(data, years, outcome)
      ensures forall i :: 0 <= i < |filteredRecords| ==> filteredRecords[i].GCSE?
      ensures summaryTableRecords == SummaryRows(NinesOf(filteredRecords))
    {
      filteredRecords := FilterRecords(data, years, outcome);
      forall i | 0 <= i < |filteredRecords| ensures filteredRecords[i].GCSE? {
        FilterMembers(data, years, outcome, filteredRecords[i]);
      }
      summaryTableRecords := SummaryTable(NinesOf(filteredRecords));
    }
  }

  /** The TMUA tab: its records, the filtered records and one score table per column. */
  class TMUAAnalysis {
    var data: seq<Record>
    var filteredRecords: seq<Record>
    var paper1Table: seq<Row<real>>
    var paper2Table: seq<Row<real>>
    var overallTable: seq<Row<real>>

    constructor (data: seq<Record>)
      requires forall i :: 0 <= i < |data| ==> data[i].TMUA?
      ensures this.data == data
      ensures filteredRecords == FilterRecords(data, TMUA_YEARS, OriginalCollegeOffer)
      ensures forall i :: 0 <= i < |filteredRecords| ==> filteredRecords[i].TMUA?
      ensures paper1Table == SummaryRows(ScoresOf(filteredRecords, Paper1))
      ensures paper2Table == SummaryRows(ScoresOf(filteredRecords, Paper2))
      ensures overallTable == SummaryRows(ScoresOf(filteredRecords, Overall))
    {
      this.data := data;
      filteredRecords := [];
      paper1Table, paper2Table, overallTable := [], [], [];
      new;
      UpdateOutput(TMUA_YEARS, OriginalCollegeOffer);
    }

    /** `update_output`, counts only: refilter, then build a score table for each column. */
    method UpdateOutput(years: seq<int>, outcome: Outcome)
      requires forall i :: 0 <= i < |data| ==> data[i].TMUA?
      modifies this
      ensures data == old(data)
      ensures filteredRecords == FilterRecords(data, years, outcome)
      ensures forall i :: 0 <= i < |filteredRecords| ==> filteredRecords[i].TMUA?
      ensures paper1Table == SummaryRows(ScoresOf(filteredRecords, Paper1))
      ensures paper2Table == SummaryRows(ScoresOf(filteredRecords, Paper2))
      ensures overallTable == SummaryRows(ScoresOf(filteredRecords, Overall))
    {
      filteredRecords := FilterRecords(data, years, outcome);
      forall i | 0 <= i < |filteredRecords| ensures filteredRecords[i].TMUA? {
        FilterMembers(data, years, outcome, filteredRecords[i]);
      }
      paper1Table := SummaryTable(ScoresOf(filteredRecords, Paper1));
      paper2Table := SummaryTable(ScoresOf(filteredRecords, Paper2));
      overallTable := SummaryTable(ScoresOf(filteredRecords, Overall));
    }

    /** The table of the selected score column. */
    function SummaryTableRecords(f: ScoreField): seq<Row<real>>
      reads this
    {
      match f
      case Paper1 => paper1Table
      case Paper2 => paper2Table
      case Overall => overallTable
    }
  }

  // ---------------------------------------------------------------------
  // Sheet names
  // ---------------------------------------------------------------------

  /** `title[:MAX_SHEET_NAME_LENGTH]` */
  function SheetName(title: string): string
  {
    if |title| <= MAX_SHEET_NAME_LENGTH then title else title[..MAX_SHEET_NAME_LENGTH]
  }

  /** A sheet name is a prefix of its title, at most 31 characters long, and the title itself when that fits. */
  lemma SheetNameBounded(title: string)
    ensures |SheetName(title)| <= MAX_SHEET_NAME_LENGTH
    ensures SheetName(title) <= title
    ensures |title| <= MAX_SHEET_NAME_LENGTH <==> SheetName(title) == title
  {
  }

  /** The A-Level summary sheet's 32-character title loses its last letter. */
  lemma ALevelSummarySheetName()
    ensures SheetName("Summary " + "Predicted A-Level Grades") == "Summary Predicted A-Level Grade"
  {
  }
}
