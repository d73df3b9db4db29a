/**
 * Applicant records and their parsers (`data.py`): one parser per record
 * kind turning a block's word list into a typed record, the flat export
 * tuple, the JSON mapping, and the space-joined storage form of A-Level
 * grades.
 */
module Data {
  import opened Wrappers
  import opened PyText

  /** Synthetic tags the page scan appends after a "Y" marker, one per outcome column. */
  const ORIGINAL_COLLEGE := "Y0"
  const OTHER_COLLEGE := "Y1"
  const WINTER_POOL := "Y2"

  /** Possible A-Level grades (except U). */
  const GRADES: set<string> := {"A*", "A", "B", "C", "D", "E"}

  datatype Kind = ALevelKind | GCSEKind | TMUAKind

  /** One applicant row. The common fields are shared by the three kinds. */
  datatype Record =
    | ALevel(id: nat, year: nat, originalCollege: bool, otherCollege: bool, winterPool: bool,
             grades: seq<string>)
    | GCSE(id: nat, year: nat, originalCollege: bool, otherCollege: bool, winterPool: bool,
           nines: nat)
    | TMUA(id: nat, year: nat, originalCollege: bool, otherCollege: bool, winterPool: bool,
           paper1: real, paper2: real, overall: real)

  function KindOf(r: Record): Kind {
    match r
    case ALevel(_, _, _, _, _, _) => ALevelKind
    case GCSE(_, _, _, _, _, _) => GCSEKind
    case TMUA(_, _, _, _, _, _, _, _) => TMUAKind
  }

  // ---------------------------------------------------------------------
  // Parsing a block's word list
  // ---------------------------------------------------------------------

  /** `int(record[i])`: IndexError past the end, ValueError on a non-decimal word. */
  function IntAt(record: seq<string>, i: nat): (r: Result<nat>)
  {
    if i < |record| then ParseInt(record[i]) else Err(IndexError)
  }

  /** `float(word)` is supplied by the caller; None stands for its ValueError. */
  function FloatOf(parseScore: string -> Option<real>, word: string): Result<real>
  {
    match parseScore(word)
    case None => Err(ValueError)
    case Some(x) => Ok(x)
  }

  /** `word.endswith(":")` */
  predicate EndsWithColon(word: string) {
    |word| > 0 && word[|word| - 1] == ':'
  }

  /** Position `i` is a colon-terminated word directly followed by a grade. */
  predicate GradeAfterColon(record: seq<string>, i: nat)
    requires i < |record|
  {
    EndsWithColon(record[i]) && i + 1 < |record| && record[i + 1] in GRADES
  }

  /** The grades the A-Level scan collects from positions `0 .. n-1`, in word order. */
  function ColonGrades(record: seq<string>, n: nat): seq<string>
    requires n <= |record|
  {
    if n == 0 then []
    else ColonGrades(record, n - 1) + (if GradeAfterColon(record, n - 1) then [record[n]] else [])
  }

  /** Number of colon-terminated words among positions `0 .. n-1`. */
  function ColonCount(record: seq<string>, n: nat): nat
    requires n <= |record|
  {
    if n == 0 then 0 else ColonCount(record, n - 1) + (if EndsWithColon(record[n - 1]) then 1 else 0)
  }

  /** `ALevel.from_words`: year at 7, id at 8, tags anywhere, then colon-anchored grades, sorted. */
  function ALevelOf(record: seq<string>): Result<Record>
  {
    var year :- IntAt(record, 7);
    var id :- IntAt(record, 8);
    if EndsWithColon(record[|record| - 1]) then
      Err(IndexError)   // the lookahead record[i+1] past the last word
    else
      Ok(ALevel(id, year, ORIGINAL_COLLEGE in record, OTHER_COLLEGE in record,
                WINTER_POOL in record, SortStrings(ColonGrades(record, |record|))))
  }

  /** `ALevel.from_words` as the source runs it: an indexed scan with append, then an in-place sort. */
  method ALevelFromWords(record: seq<string>) returns (r: Result<Record>)
    ensures r == ALevelOf(record)
  {
    var year := IntAt(record, 7);
    if year.Err? {
      return Err(year.error);
    }
    var id := IntAt(record, 8);
    if id.Err? {
      return Err(id.error);
    }
    var originalCollege := ORIGINAL_COLLEGE in record;
    var otherCollege := OTHER_COLLEGE in record;
    var winterPool := WINTER_POOL in record;
    var grades: seq<string> := [];
    var i := 0;
    while i < |record|
      invariant 0 <= i <= |record|
      invariant grades == ColonGrades(record, i)
      invariant i == |record| ==> !EndsWithColon(record[|record| - 1])
    {
      if EndsWithColon(record[i]) {
        if i + 1 == |record| {
          return Err(IndexError);
        }
        if record[i + 1] in GRADES {
          grades := grades + [record[i + 1]];
        }
      }
      i := i + 1;
    }
    grades := SortStrings(grades);
    r := Ok(ALevel(id.value, year.value, originalCollege, otherCollege, winterPool, grades));
  }

  /** `GCSE.from_words`: year at 6, id at 7, nines from the last word. */
  function GCSEOf(record: seq<string>): Result<Record>
  {
    var year :- IntAt(record, 6);
    var id :- IntAt(record, 7);
    var nines :- ParseInt(record[|record| - 1]);
    Ok(GCSE(id, year, ORIGINAL_COLLEGE in record, OTHER_COLLEGE in record,
            WINTER_POOL in record, nines))
  }

  /** `TMUA.from_words`: year at 3, id at 4, then the last three words as paper 1, paper 2, overall. */
  function TMUAOf(record: seq<string>, parseScore: string -> Option<real>): Result<Record>
  {
    var year :- IntAt(record, 3);
    var id :- IntAt(record, 4);
    var n := |record|;
    var paper1 :- FloatOf(parseScore, record[n - 3]);
    var paper2 :- FloatOf(parseScore, record[n - 2]);
    var overall :- FloatOf(parseScore, record[n - 1]);
    Ok(TMUA(id, year, ORIGINAL_COLLEGE in record, OTHER_COLLEGE in record,
            WINTER_POOL in record, paper1, paper2, overall))
  }

  // ---------------------------------------------------------------------
  // Properties of the parsers
  // ---------------------------------------------------------------------

  /** A grade is collected exactly when it directly follows a colon-terminated word. */
  lemma {:induction false} ColonGradesExact(record: seq<string>, n: nat, g: string)
    requires n <= |record|
    ensures g in ColonGrades(record, n) <==>
              exists i :: 0 <= i < n && GradeAfterColon(record, i) && record[i + 1] == g
  {
    if n > 0 {
      ColonGradesExact(record, n - 1, g);
      if g in ColonGrades(record, n) && g !in ColonGrades(record, n - 1) {
        assert GradeAfterColon(record, n - 1) && record[n] == g;
      }
    }
  }

  /** Every collected grade is a grade, and there are no more of them than colon-terminated words. */
  lemma {:induction false} ColonGradesBounded(record: seq<string>, n: nat)
    requires n <= |record|
    ensures forall k :: 0 <= k < |ColonGrades(record, n)| ==> ColonGrades(record, n)[k] in GRADES
    ensures |ColonGrades(record, n)| <= ColonCount(record, n)
  {
    if n > 0 {
      ColonGradesBounded(record, n - 1);
    }
  }

  /** What `ALevel.from_words` returns and when it raises. */
  lemma ALevelOfFields(record: seq<string>)
    ensures ALevelOf(record).Err? <==>
              |record| < 9 || !IsDecimal(record[7]) || !IsDecimal(record[8]) ||
              EndsWithColon(record[|record| - 1])
    ensures ALevelOf(record).Ok? ==>
              var r := ALevelOf(record).value;
              r.ALevel? &&
              r.year == DecimalValue(record[7]) && r.id == DecimalValue(record[8]) &&
              r.originalCollege == (ORIGINAL_COLLEGE in record) &&
              r.otherCollege == (OTHER_COLLEGE in record) &&
              r.winterPool == (WINTER_POOL in record) &&
              Sorted(r.grades) &&
              multiset(r.grades) == multiset(ColonGrades(record, |record|)) &&
              (forall k :: 0 <= k < |r.grades| ==> r.grades[k] in GRADES) &&
              |r.grades| <= ColonCount(record, |record|)
  {
    if ALevelOf(record).Ok? {
      var r := ALevelOf(record).value;
      var c := ColonGrades(record, |record|);
      SortStringsCorrect(c);
      ColonGradesBounded(record, |record|);
      forall k | 0 <= k < |r.grades|
        ensures r.grades[k] in GRADES
      {
        assert r.grades[k] in multiset(c);
      }
    }
  }

  /** A grade word is in the sorted result exactly when it follows a colon-terminated word. */
  lemma ALevelGradesExact(record: seq<string>, g: string)
    requires ALevelOf(record).Ok?
    ensures g in ALevelOf(record).value.grades <==>
              exists i :: 0 <= i < |record| && GradeAfterColon(record, i) && record[i + 1] == g
  {
    var c := ColonGrades(record, |record|);
    var grades := ALevelOf(record).value.grades;
    assert grades == SortStrings(c);
    SortStringsCorrect(c);
    assert g in grades <==> g in multiset(grades);
    assert g in c <==> g in multiset(c);
    ColonGradesExact(record, |record|, g);
  }

  /** What `GCSE.from_words` returns and when it raises. */
  lemma GCSEOfFields(record: seq<string>)
    ensures GCSEOf(record).Err? <==>
              |record| < 8 || !IsDecimal(record[6]) || !IsDecimal(record[7]) ||
              !IsDecimal(record[|record| - 1])
    ensures GCSEOf(record).Ok? ==>
              var r := GCSEOf(record).value;
              r.GCSE? &&
              r.year == DecimalValue(record[6]) && r.id == DecimalValue(record[7]) &&
              r.nines == DecimalValue(record[|record| - 1]) &&
              r.originalCollege == (ORIGINAL_COLLEGE in record) &&
              r.otherCollege == (OTHER_COLLEGE in record) &&
              r.winterPool == (WINTER_POOL in record)
  {
  }

  /** What `TMUA.from_words` returns and when it raises. */
  lemma TMUAOfFields(record: seq<string>, parseScore: string -> Option<real>)
    ensures TMUAOf(record, parseScore).Ok? <==>
              |record| >= 5 && IsDecimal(record[3]) && IsDecimal(record[4]) &&
              parseScore(record[|record| - 3]).Some? &&
              parseScore(record[|record| - 2]).Some? &&
              parseScore(record[|record| - 1]).Some?
    ensures TMUAOf(record, parseScore).Ok? ==>
              var r := TMUAOf(record, parseScore).value;
              var n := |record|;
              r.TMUA? &&
              r.year == DecimalValue(record[3]) && r.id == DecimalValue(record[4]) &&
              r.paper1 == parseScore(record[n - 3]).value &&
              r.paper2 == parseScore(record[n - 2]).value &&
              r.overall == parseScore(record[n - 1]).value &&
              r.originalCollege == (ORIGINAL_COLLEGE in record) &&
              r.otherCollege == (OTHER_COLLEGE in record) &&
              r.winterPool == (WINTER_POOL in record)
  {
  }

  // ---------------------------------------------------------------------
  // Storage of grades, export tuple and JSON object
  // ---------------------------------------------------------------------

  /** The stored form of a grade list: `" ".join(grades)` (`insert_records`). */
  function StoreGrades(grades: seq<string>): string {
    Join(grades)
  }

  /** The grade list read back from storage: `grades.split()` (`get_data`). */
  function LoadGrades(stored: string): seq<string> {
    Split(stored)
  }

  /** Grades read back from storage are the grades stored, the empty list included. */
  lemma GradesStorageRoundTrip(grades: seq<string>)
    requires forall k :: 0 <= k < |grades| ==> grades[k] in GRADES
    ensures LoadGrades(StoreGrades(grades)) == grades
  {
    forall k | 0 <= k < |grades|
      ensures IsToken(grades[k])
    {
      assert grades[k] in GRADES;
    }
    SplitJoin(grades);
  }

  /** Every grade list a parsed A-Level record carries is drawn from the grade set. */
  predicate WellFormed(r: Record) {
    r.ALevel? ==> forall k :: 0 <= k < |r.grades| ==> r.grades[k] in GRADES
  }

  /** One cell of the flat export tuple. */
  datatype Cell = IntCell(n: int) | BoolCell(b: bool) | TextCell(s: string) | RealCell(x: real)

  /** `export_record`: (year, id, original, other, pool) followed by the kind's fields. */
  function ExportRecord(r: Record): seq<Cell> {
    var common := [IntCell(r.year), IntCell(r.id), BoolCell(r.originalCollege),
                   BoolCell(r.otherCollege), BoolCell(r.winterPool)];
    match r
    case ALevel(_, _, _, _, _, grades) => common + [TextCell(Join(grades))]
    case GCSE(_, _, _, _, _, nines) => common + [IntCell(nines)]
    case TMUA(_, _, _, _, _, p1, p2, o) => common + [RealCell(p1), RealCell(p2), RealCell(o)]
  }

  /** Reads a record back from an export tuple; the kind follows from the tuple's shape. */
  function RecordOfExport(row: seq<Cell>): Option<Record> {
    if (|row| == 6 || |row| == 8) && row[0].IntCell? && row[0].n >= 0 &&
       row[1].IntCell? && row[1].n >= 0 &&
       row[2].BoolCell? && row[3].BoolCell? && row[4].BoolCell?
    then
      var year, id := row[0].n, row[1].n;
      var oc, otc, wp := row[2].b, row[3].b, row[4].b;
      if |row| == 6 && row[5].TextCell? then
        Some(ALevel(id, year, oc, otc, wp, Split(row[5].s)))
      else if |row| == 6 && row[5].IntCell? && row[5].n >= 0 then
        Some(GCSE(id, year, oc, otc, wp, row[5].n))
      else if |row| == 8 && row[5].RealCell? && row[6].RealCell? && row[7].RealCell? then
        Some(TMUA(id, year, oc, otc, wp, row[5].x, row[6].x, row[7].x))
      else None
    else None
  }

  /** The export tuple keeps every field: reading it back gives the record. */
  lemma ExportRoundTrip(r: Record)
    requires WellFormed(r)
    ensures |ExportRecord(r)| == (match r case ALevel(_, _, _, _, _, _) => 6
                                         case GCSE(_, _, _, _, _, _) => 6
                                         case TMUA(_, _, _, _, _, _, _, _) => 8)
    ensures RecordOfExport(ExportRecord(r)) == Some(r)
  {
    if r.ALevel? {
      GradesStorageRoundTrip(r.grades);
    }
  }

  /** A JSON value. */
  datatype Json = JInt(i: int) | JBool(b: bool) | JReal(x: real) | JStr(s: string) | JArray(items: seq<Json>)

  const COMMON_KEYS: set<string> :=
    {"year", "apply_id", "original_college", "other_college", "winter_pool"}

  function KindKeys(k: Kind): set<string> {
    match k
    case ALevelKind => {"grades"}
    case GCSEKind => {"nines"}
    case TMUAKind => {"paper1", "paper2", "overall"}
  }

  function JsonStrings(ws: seq<string>): seq<Json> {
    seq(|ws|, i requires 0 <= i < |ws| => JStr(ws[i]))
  }

  /** `json_object`: the common mapping merged with the kind's own keys. */
  function JsonObject(r: Record): map<string, Json> {
    var common := map["year" := JInt(r.year), "apply_id" := JInt(r.id),
                      "original_college" := JBool(r.originalCollege),
                      "other_college" := JBool(r.otherCollege),
                      "winter_pool" := JBool(r.winterPool)];
    match r
    case ALevel(_, _, _, _, _, grades) => common + map["grades" := JArray(JsonStrings(grades))]
    case GCSE(_, _, _, _, _, nines) => common + map["nines" := JInt(nines)]
    case TMUA(_, _, _, _, _, p1, p2, o) =>
      common + map["paper1" := JReal(p1), "paper2" := JReal(p2), "overall" := JReal(o)]
  }

  predicate AllStrings(items: seq<Json>) {
    forall i :: 0 <= i < |items| ==> items[i].JStr?
  }

  /** Reads a record back from a JSON mapping; the kind follows from its keys. */
  function RecordOfJson(m: map<string, Json>): Option<Record> {
    if COMMON_KEYS <= m.Keys && m["year"].JInt? && m["year"].i >= 0 &&
       m["apply_id"].JInt? && m["apply_id"].i >= 0 &&
       m["original_college"].JBool? && m["other_college"].JBool? && m["winter_pool"].JBool?
    then
      var year, id := m["year"].i, m["apply_id"].i;
      var oc, otc, wp := m["original_college"].b, m["other_college"].b, m["winter_pool"].b;
      if m.Keys == COMMON_KEYS + {"grades"} && m["grades"].JArray? && AllStrings(m["grades"].items) then
        var items := m["grades"].items;
        Some(ALevel(id, year, oc, otc, wp, seq(|items|, i requires 0 <= i < |items| => items[i].s)))
      else if m.Keys == COMMON_KEYS + {"nines"} && m["nines"].JInt? && m["nines"].i >= 0 then
        Some(GCSE(id, year, oc, otc, wp, m["nines"].i))
      else if m.Keys == COMMON_KEYS + {"paper1", "paper2", "overall"} &&
              m["paper1"].JReal? && m["paper2"].JReal? && m["overall"].JReal? then
        Some(TMUA(id, year, oc, otc, wp, m["paper1"].x, m["paper2"].x, m["overall"].x))
      else None
    else None
  }

  /** The JSON object has exactly the common keys plus the kind's keys, and the two are disjoint. */
  lemma JsonKeys(r: Record)
    ensures JsonObject(r).Keys == COMMON_KEYS + KindKeys(KindOf(r))
    ensures COMMON_KEYS !! KindKeys(KindOf(r))
  {
  }

  /** The JSON object keeps every field: reading it back gives the record. */
  lemma JsonRoundTrip(r: Record)
    ensures RecordOfJson(JsonObject(r)) == Some(r)
  {
    JsonKeys(r);
    var m := JsonObject(r);
    if r.ALevel? {
      var items := m["grades"].items;
      assert items == JsonStrings(r.grades);
      assert seq(|items|, i requires 0 <= i < |items| => items[i].s) == r.grades;
    }
  }
}
