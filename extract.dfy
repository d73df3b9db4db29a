/**
 * The page scan of the extraction run (`extract.py`): one left-to-right
 * pass over a page's positioned words that groups word texts by block,
 * calibrates the three outcome columns from their header phrases, tags
 * each "Y" marker with the columns containing it, and then classifies
 * every block into at most one record.
 */
module Extract {
  import opened Wrappers
  import opened PyText
  import opened Data

  /** One positioned word of a page, in the page's content order. */
  datatype Word = Word(minX: real, minY: real, maxX: real, maxY: real, text: string, block: int)

  /** A calibrated x-interval of an outcome column. */
  datatype Interval = Interval(lo: real, hi: real)

  /** The batch a page hands to storage; its kind is that of its first record. */
  datatype Batch = Batch(kind: Kind, records: seq<Record>)

  /** The affirmative marker whose column decides its outcome. */
  const MARKER := "Y"

  /** The header phrase of outcome column `j` is `HeaderFirst(j) HeaderSecond(j)`. */
  function HeaderFirst(j: nat): string
    requires j < 3
  {
    if j == 0 then "Original" else if j == 1 then "Other" else "in"
  }

  function HeaderSecond(j: nat): string
    requires j < 3
  {
    if j == 0 then "College" else if j == 1 then "College" else "Winter"
  }

  /** `f"Y{j}"`: the tag of outcome column `j`. */
  function Tag(j: nat): string
    requires j < 3
  {
    if j == 0 then ORIGINAL_COLLEGE else if j == 1 then OTHER_COLLEGE else WINTER_POOL
  }

  // ---------------------------------------------------------------------
  // Calibration
  // ---------------------------------------------------------------------

  /** Word `i` and its successor spell the header phrase of column `j`. */
  predicate HeaderMatch(words: seq<Word>, i: nat, j: nat)
    requires i < |words| && j < 3
  {
    i + 1 < |words| && words[i].text == HeaderFirst(j) && words[i + 1].text == HeaderSecond(j)
  }

  /** The slots after checking word `i` against the header phrases of columns `0 .. j-1`. */
  function CalibrateAt(words: seq<Word>, i: nat, slots: seq<Option<Interval>>, j: nat): (r: seq<Option<Interval>>)
    requires i < |words| && |slots| == 3 && j <= 3
    ensures |r| == 3
  {
    if j == 0 then slots
    else
      var s := CalibrateAt(words, i, slots, j - 1);
      if HeaderMatch(words, i, j - 1) then s[j - 1 := Some(Interval(words[i].minX, words[i + 1].maxX))]
      else s
  }

  /** The slots after the scan has passed words `0 .. n-1`, starting from `slots`. */
  function Calibrate(words: seq<Word>, slots: seq<Option<Interval>>, n: nat): (r: seq<Option<Interval>>)
    requires |slots| == 3 && n <= |words|
    ensures |r| == 3
  {
    if n == 0 then slots else CalibrateAt(words, n - 1, Calibrate(words, slots, n - 1), 3)
  }

  /** `all(yes_x_range)` */
  predicate AllSet(slots: seq<Option<Interval>>)
    requires |slots| == 3
  {
    slots[0].Some? && slots[1].Some? && slots[2].Some?
  }

  /** `min_x <= x <= max_x` for a set slot. */
  predicate Within(slot: Option<Interval>, x: real) {
    slot.Some? && slot.value.lo <= x <= slot.value.hi
  }

  /** The tags of the columns `0 .. j-1` whose interval contains `x`, in column order. */
  function TagsUpTo(x: real, slots: seq<Option<Interval>>, j: nat): seq<string>
    requires |slots| == 3 && j <= 3
  {
    if j == 0 then []
    else TagsUpTo(x, slots, j - 1) + (if Within(slots[j - 1], x) then [Tag(j - 1)] else [])
  }

  /** The tags a "Y" at left coordinate `x` receives: none until every slot is set. */
  function Tags(x: real, slots: seq<Option<Interval>>): seq<string>
    requires |slots| == 3
  {
    if AllSet(slots) then TagsUpTo(x, slots, 3) else []
  }

  // ---------------------------------------------------------------------
  // Block grouping
  // ---------------------------------------------------------------------

  /** What word `i` adds to its block's list: its text, then a marker's tags. */
  function Emitted(words: seq<Word>, slots: seq<Option<Interval>>, i: nat): seq<string>
    requires |slots| == 3 && i < |words|
  {
    [words[i].text] +
    (if words[i].text == MARKER then Tags(words[i].minX, Calibrate(words, slots, i + 1)) else [])
  }

  /** The list of block `b` after the scan has passed words `0 .. n-1`. */
  function BlockText(words: seq<Word>, slots: seq<Option<Interval>>, b: int, n: nat): seq<string>
    requires |slots| == 3 && n <= |words|
  {
    if n == 0 then []
    else BlockText(words, slots, b, n - 1) + (if words[n - 1].block == b then Emitted(words, slots, n - 1) else [])
  }

  /** Block ids of words `0 .. n-1` in first-seen order: the key order of `block_words`. */
  function BlockOrder(words: seq<Word>, n: nat): seq<int>
    requires n <= |words|
  {
    if n == 0 then []
    else
      var order := BlockOrder(words, n - 1);
      if words[n - 1].block in order then order else order + [words[n - 1].block]
  }

  /** `block_words.values()` at the end of the page. */
  function PageBlocks(words: seq<Word>, slots: seq<Option<Interval>>): seq<seq<string>>
    requires |slots| == 3
  {
    var order := BlockOrder(words, |words|);
    seq(|order|, k requires 0 <= k < |order| => BlockText(words, slots, order[k], |words|))
  }

  function Lookup(blocks: map<int, seq<string>>, b: int): seq<string> {
    if b in blocks then blocks[b] else []
  }

  // ---------------------------------------------------------------------
  // Classification
  // ---------------------------------------------------------------------

  /** The block's record, None for a block of no kind; `record[3]` raises on a short block. */
  function Classify(record: seq<string>, parseScore: string -> Option<real>): Result<Option<Record>>
  {
    if |record| < 4 then Err(IndexError)
    else if record[3] == "A" then
      var r :- ALevelOf(record);
      Ok(Some(r))
    else if record[3] == "GCSE" then
      var r :- GCSEOf(record);
      Ok(Some(r))
    else if record[0] == "Computer" then
      var r :- TMUAOf(record, parseScore);
      Ok(Some(r))
    else Ok(None)
  }

  predicate InScoreRange(x: real) {
    1.0 <= x <= 9.0
  }

  /** A record the page keeps: every TMUA score in [1, 9]; the other kinds always. */
  predicate Kept(r: Record) {
    r.TMUA? ==> InScoreRange(r.paper1) && InScoreRange(r.paper2) && InScoreRange(r.overall)
  }

  /** The page's records from blocks `0 .. k-1`, or the first exception raised. */
  function CollectRecords(blocks: seq<seq<string>>, parseScore: string -> Option<real>, k: nat): Result<seq<Record>>
    requires k <= |blocks|
  {
    if k == 0 then Ok([])
    else
      var data :- CollectRecords(blocks, parseScore, k - 1);
      var found :- Classify(blocks[k - 1], parseScore);
      if found.Some? && Kept(found.value) then Ok(data + [found.value]) else Ok(data)
  }

  /** The last word starts a header phrase, so the lookahead `words[i+1]` raises. */
  predicate LastNeedsSuccessor(words: seq<Word>) {
    |words| > 0 && exists j :: 0 <= j < 3 && words[|words| - 1].text == HeaderFirst(j)
  }

  /** What one page yields, given the slots it starts with. */
  function PageResult(words: seq<Word>, slots: seq<Option<Interval>>, parseScore: string -> Option<real>): Result<Batch>
    requires |slots| == 3
  {
    if LastNeedsSuccessor(words) then Err(IndexError)
    else
      var blocks := PageBlocks(words, slots);
      var data :- CollectRecords(blocks, parseScore, |blocks|);
      if |data| == 0 then Err(IndexError)   // type(data[0])
      else Ok(Batch(KindOf(data[0]), data))
  }

  /** The whole run: pages in order, calibration carried from page to page. */
  function ExtractSpec(pages: seq<seq<Word>>, slots: seq<Option<Interval>>, parseScore: string -> Option<real>): Result<seq<Batch>>
    requires |slots| == 3
    decreases |pages|
  {
    if |pages| == 0 then Ok([])
    else
      var batch :- PageResult(pages[0], slots, parseScore);
      var rest :- ExtractSpec(pages[1..], Calibrate(pages[0], slots, |pages[0]|), parseScore);
      Ok([batch] + rest)
  }

  /**
   * What a run leaves behind: each page's batch is stored (committed) as
   * soon as the page is done, so a run that raises on a page has already
   * handed over the batches of every page before it.
   */
  datatype Run = Run(handed: seq<Batch>, failure: Option<Error>)

  /** The batches a run hands over, page by page, and the error that stops it, if any. */
  function RunSpec(pages: seq<seq<Word>>, slots: seq<Option<Interval>>, parseScore: string -> Option<real>): Run
    requires |slots| == 3
    decreases |pages|
  {
    if |pages| == 0 then Run([], None)
    else
      match PageResult(pages[0], slots, parseScore)
      case Err(e) => Run([], Some(e))
      case Ok(batch) =>
        var rest := RunSpec(pages[1..], Calibrate(pages[0], slots, |pages[0]|), parseScore);
        Run([batch] + rest.handed, rest.failure)
  }

  /** `batches` handed over ahead of a run. */
  function After(batches: seq<Batch>, rest: Run): Run {
    Run(batches + rest.handed, rest.failure)
  }

  function Prepend(batches: seq<Batch>, rest: Result<seq<Batch>>): Result<seq<Batch>> {
    if rest.Err? then rest else Ok(batches + rest.value)
  }

  // ---------------------------------------------------------------------
  // Properties of the page scan
  // ---------------------------------------------------------------------

  /** The column whose tag `t` is, for the three tags. */
  function TagColumn(t: string): nat {
    if t == ORIGINAL_COLLEGE then 0 else if t == OTHER_COLLEGE then 1 else 2
  }

  lemma {:induction false} TagsUpToExact(x: real, slots: seq<Option<Interval>>, j: nat, k: nat)
    requires |slots| == 3 && j <= 3 && k < 3
    ensures Tag(k) in TagsUpTo(x, slots, j) <==> k < j && Within(slots[k], x)
    ensures forall p :: 0 <= p < |TagsUpTo(x, slots, j)| ==> TagColumn(TagsUpTo(x, slots, j)[p]) < j
    ensures forall p, q :: 0 <= p < q < |TagsUpTo(x, slots, j)| ==>
              TagColumn(TagsUpTo(x, slots, j)[p]) < TagColumn(TagsUpTo(x, slots, j)[q])
  {
    if j > 0 {
      TagsUpToExact(x, slots, j - 1, k);
    }
  }

  /**
   * A "Y" at `x` gets the tag of column `k` exactly when every slot is set and
   * slot `k` contains `x`; several tags are possible, in column order.
   */
  lemma TagsExact(x: real, slots: seq<Option<Interval>>, k: nat)
    requires |slots| == 3 && k < 3
    ensures Tag(k) in Tags(x, slots) <==> AllSet(slots) && Within(slots[k], x)
    ensures forall p, q :: 0 <= p < q < |Tags(x, slots)| ==>
              TagColumn(Tags(x, slots)[p]) < TagColumn(Tags(x, slots)[q])
  {
    TagsUpToExact(x, slots, 3, k);
  }

  /** Two overlapping columns both tag a marker inside their overlap: there is no first-match rule. */
  lemma OverlappingColumnsTagTwice()
    ensures Tags(5.0, [Some(Interval(0.0, 10.0)), Some(Interval(4.0, 20.0)), Some(Interval(30.0, 40.0))])
            == [ORIGINAL_COLLEGE, OTHER_COLLEGE]
  {
  }

  /** The last position before `n` where the header phrase of column `j` starts, if any. */
  function LastHeader(words: seq<Word>, j: nat, n: nat): (r: Option<nat>)
    requires j < 3 && n <= |words|
    ensures r.Some? ==> r.value < n && HeaderMatch(words, r.value, j)
    ensures r.Some? ==> forall i :: r.value < i < n ==> !HeaderMatch(words, i, j)
    ensures r.None? ==> forall i :: 0 <= i < n ==> !HeaderMatch(words, i, j)
  {
    if n == 0 then None
    else if HeaderMatch(words, n - 1, j) then Some(n - 1)
    else LastHeader(words, j, n - 1)
  }

  lemma {:induction false} CalibrateAtSlot(words: seq<Word>, i: nat, slots: seq<Option<Interval>>, j: nat, k: nat)
    requires i < |words| && |slots| == 3 && j <= 3 && k < 3
    ensures CalibrateAt(words, i, slots, j)[k] ==
              if k < j && HeaderMatch(words, i, k) then Some(Interval(words[i].minX, words[i + 1].maxX)) else slots[k]
  {
    if j > 0 {
      CalibrateAtSlot(words, i, slots, j - 1, k);
    }
  }

  /**
   * Slot `j` holds the interval of the last header phrase of column `j` the
   * scan has passed, from its first word's left edge to its second word's
   * right edge; with no such phrase it keeps the value it started with.
   */
  lemma {:induction false} CalibrateLastMatch(words: seq<Word>, slots: seq<Option<Interval>>, n: nat, j: nat)
    requires |slots| == 3 && n <= |words| && j < 3
    ensures Calibrate(words, slots, n)[j] ==
              match LastHeader(words, j, n)
              case None => slots[j]
              case Some(i) => Some(Interval(words[i].minX, words[i + 1].maxX))
  {
    if n > 0 {
      CalibrateLastMatch(words, slots, n - 1, j);
      CalibrateAtSlot(words, n - 1, Calibrate(words, slots, n - 1), 3, j);
    }
  }

  /** A slot once set stays set. */
  lemma CalibrationKeepsSetSlots(words: seq<Word>, slots: seq<Option<Interval>>, n: nat, j: nat)
    requires |slots| == 3 && n <= |words| && j < 3
    requires slots[j].Some?
    ensures Calibrate(words, slots, n)[j].Some?
  {
    CalibrateLastMatch(words, slots, n, j);
  }

  /** The word texts of block `b` among words `0 .. n-1`, in order, without tags. */
  function PlainText(words: seq<Word>, b: int, n: nat): seq<string>
    requires n <= |words|
  {
    if n == 0 then [] else PlainText(words, b, n - 1) + (if words[n - 1].block == b then [words[n - 1].text] else [])
  }

  /**
   * Calibration gating: while a slot is unset and its header phrase has not
   * appeared, no marker is tagged, so every block holds just its word texts.
   */
  lemma {:induction false} NoTagsBeforeCalibration(words: seq<Word>, slots: seq<Option<Interval>>, b: int, n: nat, j: nat)
    requires |slots| == 3 && n <= |words| && j < 3
    requires slots[j].None?
    requires forall i :: 0 <= i < n ==> !HeaderMatch(words, i, j)
    ensures BlockText(words, slots, b, n) == PlainText(words, b, n)
  {
    if n > 0 {
      NoTagsBeforeCalibration(words, slots, b, n - 1, j);
      CalibrateLastMatch(words, slots, n, j);
      assert !AllSet(Calibrate(words, slots, n));
    }
  }

  /** Removes the three outcome tags from a block's list. */
  function StripTags(list: seq<string>): seq<string> {
    if |list| == 0 then []
    else StripTags(list[..|list| - 1]) +
         (if list[|list| - 1] in {ORIGINAL_COLLEGE, OTHER_COLLEGE, WINTER_POOL} then [] else [list[|list| - 1]])
  }

  lemma {:induction false} StripTagsAppend(a: seq<string>, c: seq<string>)
    ensures StripTags(a + c) == StripTags(a) + StripTags(c)
    decreases |c|
  {
    if |c| == 0 {
      assert a + c == a;
    } else {
      StripTagsAppend(a, c[..|c| - 1]);
      assert (a + c)[..|a + c| - 1] == a + c[..|c| - 1];
    }
  }

  lemma {:induction false} StripTagsOfTags(x: real, slots: seq<Option<Interval>>, j: nat)
    requires |slots| == 3 && j <= 3
    ensures StripTags(TagsUpTo(x, slots, j)) == []
  {
    if j > 0 {
      StripTagsOfTags(x, slots, j - 1);
      var extra := if Within(slots[j - 1], x) then [Tag(j - 1)] else [];
      StripTagsAppend(TagsUpTo(x, slots, j - 1), extra);
      if extra != [] {
        assert StripTags(extra) == StripTags([]) + [];
      }
    }
  }

  /** Removing the tags from what a word emits leaves the word's own text. */
  lemma StripEmitted(words: seq<Word>, slots: seq<Option<Interval>>, i: nat)
    requires |slots| == 3 && i < |words|
    requires words[i].text !in {ORIGINAL_COLLEGE, OTHER_COLLEGE, WINTER_POOL}
    ensures StripTags(Emitted(words, slots, i)) == [words[i].text]
  {
    var tags := if words[i].text == MARKER then Tags(words[i].minX, Calibrate(words, slots, i + 1)) else [];
    assert Emitted(words, slots, i) == [words[i].text] + tags;
    StripTagsAppend([words[i].text], tags);
    assert StripTags([words[i].text]) == StripTags([]) + [words[i].text];
    if words[i].text == MARKER && AllSet(Calibrate(words, slots, i + 1)) {
      StripTagsOfTags(words[i].minX, Calibrate(words, slots, i + 1), 3);
    }
  }

  /**
   * Every word's text lands in its own block's list, in word order, and
   * nothing else does but tags: when no word is itself spelt like a tag,
   * removing the tags leaves exactly the block's word texts.
   */
  lemma {:induction false} BlockTextIsWordsPlusTags(words: seq<Word>, slots: seq<Option<Interval>>, b: int, n: nat)
    requires |slots| == 3 && n <= |words|
    requires forall i :: 0 <= i < |words| ==> words[i].text !in {ORIGINAL_COLLEGE, OTHER_COLLEGE, WINTER_POOL}
    ensures StripTags(BlockText(words, slots, b, n)) == PlainText(words, b, n)
  {
    if n > 0 {
      var i := n - 1;
      BlockTextIsWordsPlusTags(words, slots, b, i);
      var extra := if words[i].block == b then Emitted(words, slots, i) else [];
      assert BlockText(words, slots, b, n) == BlockText(words, slots, b, i) + extra;
      StripTagsAppend(BlockText(words, slots, b, i), extra);
      if words[i].block == b {
        StripEmitted(words, slots, i);
      }
    }
  }

  lemma {:induction false} BlockTextGrows(words: seq<Word>, slots: seq<Option<Interval>>, b: int, m: nat, n: nat)
    requires |slots| == 3 && m <= n <= |words|
    ensures BlockText(words, slots, b, m) <= BlockText(words, slots, b, n)
    decreases n - m
  {
    if m < n {
      BlockTextGrows(words, slots, b, m, n - 1);
    }
  }

  /**
   * On every page, what word `i` emits sits in its block's final list as one
   * contiguous run, starting at the position the list had reached before it:
   * the word's text first, and a marker's tags right after it.
   */
  lemma EmittedInPlace(words: seq<Word>, slots: seq<Option<Interval>>, i: nat, n: nat)
    requires |slots| == 3 && i < n <= |words|
    ensures var b := words[i].block;
            var at := |BlockText(words, slots, b, i)|;
            var e := Emitted(words, slots, i);
            at + |e| <= |BlockText(words, slots, b, n)| &&
            BlockText(words, slots, b, n)[at..at + |e|] == e &&
            BlockText(words, slots, b, n)[at] == words[i].text
  {
    var b := words[i].block;
    BlockTextGrows(words, slots, b, i + 1, n);
    assert BlockText(words, slots, b, i + 1) == BlockText(words, slots, b, i) + Emitted(words, slots, i);
  }

  /** A "Y" inside slot `j` once every slot is set is followed in its block by column `j`'s tag. */
  lemma MarkerTagged(words: seq<Word>, slots: seq<Option<Interval>>, i: nat, j: nat)
    requires |slots| == 3 && i < |words| && j < 3
    requires words[i].text == MARKER
    requires AllSet(Calibrate(words, slots, i + 1)) && Within(Calibrate(words, slots, i + 1)[j], words[i].minX)
    ensures Tag(j) in BlockText(words, slots, words[i].block, |words|)
  {
    TagsExact(words[i].minX, Calibrate(words, slots, i + 1), j);
    var t := BlockText(words, slots, words[i].block, i + 1);
    assert t == BlockText(words, slots, words[i].block, i) + Emitted(words, slots, i);
    assert Tag(j) in t;
    BlockTextGrows(words, slots, words[i].block, i + 1, |words|);
    var u := BlockText(words, slots, words[i].block, |words|);
    assert u[..|t|] == t;
  }

  /**
   * A header phrase found earlier on the same page calibrates a later "Y":
   * if column `j`'s phrase last starts at `h` before the marker at `i` and
   * the marker's left edge lies in the phrase's extent, slot `j` contains
   * the marker (and `MarkerTagged` then tags it once every slot is set).
   */
  lemma HeaderCoversMarker(words: seq<Word>, slots: seq<Option<Interval>>, h: nat, i: nat, j: nat)
    requires |slots| == 3 && h < i < |words| && j < 3
    requires HeaderMatch(words, h, j)
    requires forall k :: h < k <= i ==> !HeaderMatch(words, k, j)
    requires words[h].minX <= words[i].minX <= words[h + 1].maxX
    ensures Within(Calibrate(words, slots, i + 1)[j], words[i].minX)
  {
    CalibrateAfterHeader(words, slots, h, i + 1, j);
  }

  /** After a header phrase of column `j` at `h` and none since, slot `j` holds that phrase's extent. */
  lemma {:induction false} CalibrateAfterHeader(words: seq<Word>, slots: seq<Option<Interval>>, h: nat, n: nat, j: nat)
    requires |slots| == 3 && j < 3 && h < n <= |words|
    requires HeaderMatch(words, h, j)
    requires forall k :: h < k < n ==> !HeaderMatch(words, k, j)
    ensures Calibrate(words, slots, n)[j] == Some(Interval(words[h].minX, words[h + 1].maxX))
    decreases n
  {
    CalibrateAtSlot(words, n - 1, Calibrate(words, slots, n - 1), 3, j);
    if n - 1 != h {
      CalibrateAfterHeader(words, slots, h, n - 1, j);
    }
  }

  /** A block's id is in the key order once one of its words has been passed, and only once. */
  lemma {:induction false} BlockOrderExact(words: seq<Word>, slots: seq<Option<Interval>>, n: nat, b: int)
    requires |slots| == 3 && n <= |words|
    ensures b in BlockOrder(words, n) <==> exists i :: 0 <= i < n && words[i].block == b
    ensures forall p, q :: 0 <= p < q < |BlockOrder(words, n)| ==> BlockOrder(words, n)[p] != BlockOrder(words, n)[q]
    ensures b in BlockOrder(words, n) <==> BlockText(words, slots, b, n) != []
  {
    if n > 0 {
      BlockOrderExact(words, slots, n - 1, b);
    }
  }

  /**
   * Classification precedence: `record[3] == "A"` gives an A-Level record,
   * else `record[3] == "GCSE"` a GCSE record, else `record[0] == "Computer"`
   * a TMUA record; any other block of at least four words gives none.
   */
  lemma ClassifyPrecedence(record: seq<string>, parseScore: string -> Option<real>)
    ensures |record| < 4 ==> Classify(record, parseScore) == Err(IndexError)
    ensures |record| >= 4 && record[3] == "A" ==>
              Classify(record, parseScore) == (if ALevelOf(record).Ok? then Ok(Some(ALevelOf(record).value)) else Err(ALevelOf(record).error))
    ensures |record| >= 4 && record[3] != "A" && record[3] == "GCSE" ==>
              Classify(record, parseScore) == (if GCSEOf(record).Ok? then Ok(Some(GCSEOf(record).value)) else Err(GCSEOf(record).error))
    ensures |record| >= 4 && record[3] != "A" && record[3] != "GCSE" && record[0] == "Computer" ==>
              Classify(record, parseScore) == (if TMUAOf(record, parseScore).Ok? then Ok(Some(TMUAOf(record, parseScore).value)) else Err(TMUAOf(record, parseScore).error))
    ensures Classify(record, parseScore) == Ok(None) <==>
              |record| >= 4 && record[3] != "A" && record[3] != "GCSE" && record[0] != "Computer"
    ensures Classify(record, parseScore).Ok? && Classify(record, parseScore).value.Some? ==>
              var r := Classify(record, parseScore).value.value;
              (r.ALevel? <==> record[3] == "A") &&
              (r.GCSE? <==> record[3] != "A" && record[3] == "GCSE") &&
              (r.TMUA? <==> record[3] != "A" && record[3] != "GCSE" && record[0] == "Computer")
  {
  }

  /**
   * The page's records are exactly the kept records of its blocks, in block
   * order: no TMUA record with a score outside [1, 9] is ever collected, and
   * every block that classifies to a kept record contributes it.
   */
  lemma {:induction false} CollectedExactly(blocks: seq<seq<string>>, parseScore: string -> Option<real>, k: nat)
    requires k <= |blocks|
    requires CollectRecords(blocks, parseScore, k).Ok?
    ensures forall r :: r in CollectRecords(blocks, parseScore, k).value ==> Kept(r)
    ensures forall r :: r in CollectRecords(blocks, parseScore, k).value ==>
              exists m :: 0 <= m < k && Classify(blocks[m], parseScore) == Ok(Some(r))
    ensures forall m :: (0 <= m < k && Classify(blocks[m], parseScore).Ok? &&
                         Classify(blocks[m], parseScore).value.Some? && Kept(Classify(blocks[m], parseScore).value.value)) ==>
              Classify(blocks[m], parseScore).value.value in CollectRecords(blocks, parseScore, k).value
    ensures |CollectRecords(blocks, parseScore, k).value| <= k
  {
    if k > 0 {
      CollectedExactly(blocks, parseScore, k - 1);
    }
  }

  /**
   * A page either raises or hands over a non-empty batch whose kind is its
   * first record's and in which every TMUA record has all scores in [1, 9].
   */
  lemma PageBatchValid(words: seq<Word>, slots: seq<Option<Interval>>, parseScore: string -> Option<real>)
    requires |slots| == 3
    ensures LastNeedsSuccessor(words) ==> PageResult(words, slots, parseScore) == Err(IndexError)
    ensures PageResult(words, slots, parseScore).Ok? ==>
              var batch := PageResult(words, slots, parseScore).value;
              |batch.records| > 0 && batch.kind == KindOf(batch.records[0]) &&
              |batch.records| <= |BlockOrder(words, |words|)| &&
              forall r :: r in batch.records ==> Kept(r)
  {
    if PageResult(words, slots, parseScore).Ok? {
      var blocks := PageBlocks(words, slots);
      CollectedExactly(blocks, parseScore, |blocks|);
    }
  }

  /** A GCSE block with its year, id and count of nines at the fixed offsets. */
  lemma GCSEBlockExample()
    ensures Classify(["Predicted", "results", "for", "GCSE", "entrants", "in", "2023", "10045", "9"], (w: string) => None)
            == Ok(Some(GCSE(10045, 2023, false, false, false, 9)))
  {
    var r := ["Predicted", "results", "for", "GCSE", "entrants", "in", "2023", "10045", "9"];
    assert r[3] != "A";
    assert DecimalValue("2023") == 2023 by {
      assert "2023"[..3] == "202" && "202"[..2] == "20" && "20"[..1] == "2" && "2"[..0] == "";
    }
    assert DecimalValue("10045") == 10045 by {
      assert "10045"[..4] == "1004" && "1004"[..3] == "100" && "100"[..2] == "10";
      assert "10"[..1] == "1" && "1"[..0] == "";
    }
    assert DecimalValue("9") == 9 by {
      assert "9"[..0] == "";
    }
    assert !(ORIGINAL_COLLEGE in r) && !(OTHER_COLLEGE in r) && !(WINTER_POOL in r);
  }

  /** A TMUA block whose second paper reads 0.0 classifies, but is not collected. */
  lemma TMUAOutOfRangeExample(parseScore: string -> Option<real>)
    requires parseScore("5.5") == Some(5.5) && parseScore("0.0") == Some(0.0) && parseScore("5.2") == Some(5.2)
    ensures var block := ["Computer", "Science", "TMUA", "2023", "10045", "5.5", "0.0", "5.2"];
            Classify(block, parseScore).Ok? && !Kept(Classify(block, parseScore).value.value) &&
            CollectRecords([block], parseScore, 1) == Ok([])
  {
  }

  /** An A-Level block's grades, taken after each subject and sorted. */
  lemma ALevelBlockExample()
    ensures var block := ["Predicted", "grades", "for", "A", "Level", "entrants", "in", "2023", "10045",
                          "Chemistry:", "B", "Physics:", "A*"];
            Classify(block, (w: string) => None).Ok? &&
            Classify(block, (w: string) => None).value.value.grades == ["A*", "B"]
  {
    var block := ["Predicted", "grades", "for", "A", "Level", "entrants", "in", "2023", "10045",
                  "Chemistry:", "B", "Physics:", "A*"];
    assert IsDecimal("2023") && IsDecimal("10045");
    assert !EndsWithColon(block[12]);
    assert ColonGrades(block, 1) == [];
    assert ColonGrades(block, 2) == [];
    assert ColonGrades(block, 3) == [];
    assert ColonGrades(block, 4) == [];
    assert ColonGrades(block, 5) == [];
    assert ColonGrades(block, 6) == [];
    assert ColonGrades(block, 7) == [];
    assert ColonGrades(block, 8) == [];
    assert ColonGrades(block, 9) == [];
    assert "B" in GRADES && "A*" in GRADES;
    assert ColonGrades(block, 10) == ["B"];
    assert ColonGrades(block, 11) == ["B"];
    assert ColonGrades(block, 12) == ["B", "A*"];
    assert ColonGrades(block, |block|) == ["B", "A*"];
    assert SortStrings(["B", "A*"]) == ["A*", "B"] by {
      assert !LexLe("B", "A*");
      assert SortStrings(["A*"]) == ["A*"];
    }
  }

  /** The slots after a run of pages. */
  function SlotsAfter(pages: seq<seq<Word>>, slots: seq<Option<Interval>>): (r: seq<Option<Interval>>)
    requires |slots| == 3
    ensures |r| == 3
    decreases |pages|
  {
    if |pages| == 0 then slots else SlotsAfter(pages[1..], Calibrate(pages[0], slots, |pages[0]|))
  }

  /**
   * Pages are not affected by later ones: the batches of a run over
   * `pages + more` are those of `pages` followed by those of `more`, which
   * start from the calibration `pages` left behind.
   */
  lemma {:induction false} ExtractNotRetroactive(pages: seq<seq<Word>>, more: seq<seq<Word>>, slots: seq<Option<Interval>>,
                                                 parseScore: string -> Option<real>)
    requires |slots| == 3
    ensures ExtractSpec(pages + more, slots, parseScore) ==
              match ExtractSpec(pages, slots, parseScore)
              case Err(e) => Err(e)
              case Ok(batches) => Prepend(batches, ExtractSpec(more, SlotsAfter(pages, slots), parseScore))
    decreases |pages|
  {
    if |pages| == 0 {
      assert pages + more == more;
      PrependNothing(ExtractSpec(more, slots, parseScore));
    } else {
      assert (pages + more)[0] == pages[0];
      assert (pages + more)[1..] == pages[1..] + more;
      var next := Calibrate(pages[0], slots, |pages[0]|);
      ExtractNotRetroactive(pages[1..], more, next, parseScore);
      ExtractUnfold(pages, slots, parseScore);
      ExtractUnfold(pages + more, slots, parseScore);
      if PageResult(pages[0], slots, parseScore).Ok? && ExtractSpec(pages[1..], next, parseScore).Ok? {
        PrependTwice([PageResult(pages[0], slots, parseScore).value], ExtractSpec(pages[1..], next, parseScore).value,
                     ExtractSpec(more, SlotsAfter(pages, slots), parseScore));
      }
    }
  }

  /** Calibration persists across pages: a slot set before a run of pages is still set after it. */
  lemma {:induction false} SlotsPersistAcrossPages(pages: seq<seq<Word>>, slots: seq<Option<Interval>>, j: nat)
    requires |slots| == 3 && j < 3 && slots[j].Some?
    ensures SlotsAfter(pages, slots)[j].Some?
    decreases |pages|
  {
    if |pages| > 0 {
      CalibrationKeepsSetSlots(pages[0], slots, |pages[0]|, j);
      SlotsPersistAcrossPages(pages[1..], Calibrate(pages[0], slots, |pages[0]|), j);
    }
  }

  lemma {:induction false} CalibrateAtNoSuccessor(words: seq<Word>, i: nat, slots: seq<Option<Interval>>, j: nat)
    requires i + 1 == |words| && |slots| == 3 && j <= 3
    ensures CalibrateAt(words, i, slots, j) == slots
  {
    if j > 0 {
      CalibrateAtNoSuccessor(words, i, slots, j - 1);
    }
  }

  lemma {:induction false} CollectErrorPersists(blocks: seq<seq<string>>, parseScore: string -> Option<real>, k: nat, n: nat)
    requires k <= n <= |blocks|
    requires CollectRecords(blocks, parseScore, k).Err?
    ensures CollectRecords(blocks, parseScore, n) == CollectRecords(blocks, parseScore, k)
    decreases n - k
  {
    if k < n {
      CollectErrorPersists(blocks, parseScore, k + 1, n);
    }
  }

  // ---------------------------------------------------------------------
  // The scan, as the source runs it
  // ---------------------------------------------------------------------

  /** The map and key order the grouping holds after words `0 .. n-1`. */
  ghost predicate Grouped(words: seq<Word>, s0: seq<Option<Interval>>, n: nat, order: seq<int>,
                    blocks: map<int, seq<string>>)
    requires |s0| == 3 && n <= |words|
  {
    && order == BlockOrder(words, n)
    && (forall b :: b in blocks <==> b in order)
    && (forall b :: Lookup(blocks, b) == BlockText(words, s0, b, n))
  }

  /** One word's step of the grouping keeps the block map equal to `BlockText` and its keys to `BlockOrder`. */
  lemma BlocksAdvance(words: seq<Word>, s0: seq<Option<Interval>>, i: nat, order: seq<int>,
                      blocks: map<int, seq<string>>, list: seq<string>,
                      nextOrder: seq<int>, next: map<int, seq<string>>)
    requires |s0| == 3 && i < |words|
    requires Grouped(words, s0, i, order, blocks)
    requires list == BlockText(words, s0, words[i].block, i) + Emitted(words, s0, i)
    requires nextOrder == if words[i].block in blocks then order else order + [words[i].block]
    requires next == blocks[words[i].block := list]
    ensures Grouped(words, s0, i + 1, nextOrder, next)
  {
    forall b
      ensures Lookup(next, b) == BlockText(words, s0, b, i + 1)
    {
      if b != words[i].block {
        assert Lookup(next, b) == Lookup(blocks, b);
      }
    }
  }

  /** Classifies every block in order (the loop over `block_words.values()`). */
  method ClassifyBlocks(blocks: seq<seq<string>>, parseScore: string -> Option<real>) returns (res: Result<seq<Record>>)
    ensures res == CollectRecords(blocks, parseScore, |blocks|)
  {
    var data: seq<Record> := [];
    var k := 0;
    while k < |blocks|
      invariant 0 <= k <= |blocks|
      invariant CollectRecords(blocks, parseScore, k) == Ok(data)
    {
      var record := blocks[k];
      if |record| < 4 {
        CollectErrorPersists(blocks, parseScore, k + 1, |blocks|);
        return Err(IndexError);
      }
      if record[3] == "A" {
        var a := ALevelFromWords(record);
        if a.Err? {
          CollectErrorPersists(blocks, parseScore, k + 1, |blocks|);
          return Err(a.error);
        }
        data := data + [a.value];
      } else if record[3] == "GCSE" {
        var g := GCSEOf(record);
        if g.Err? {
          CollectErrorPersists(blocks, parseScore, k + 1, |blocks|);
          return Err(g.error);
        }
        data := data + [g.value];
      } else if record[0] == "Computer" {
        var t := TMUAOf(record, parseScore);
        if t.Err? {
          CollectErrorPersists(blocks, parseScore, k + 1, |blocks|);
          return Err(t.error);
        }
        var tmua := t.value;
        if !InScoreRange(tmua.paper1) || !InScoreRange(tmua.paper2) || !InScoreRange(tmua.overall) {
          // Data issues: ignore the record.
          k := k + 1;
          continue;
        }
        data := data + [tmua];
      }
      k := k + 1;
    }
    res := Ok(data);
  }

  /** Holds the outcome columns' calibration, which persists across pages. */
  class Extractor {
    var yesXRange: array<Option<Interval>>

    ghost predicate Valid()
      reads this
    {
      yesXRange.Length == 3
    }

    constructor ()
      ensures Valid() && fresh(yesXRange)
      ensures yesXRange[..] == [None, None, None]
    {
      var slots := new Option<Interval>[3](_ => None);
      assert slots[..] == [slots[0], slots[1], slots[2]];
      yesXRange := slots;
    }

    /** Checks word `i` against the three header phrases; false when the lookahead raises. */
    method CalibrateWord(words: seq<Word>, i: nat) returns (ok: bool)
      requires Valid() && i < |words|
      modifies yesXRange
      ensures Valid()
      ensures ok <==> !(i + 1 == |words| && exists j :: 0 <= j < 3 && words[i].text == HeaderFirst(j))
      ensures yesXRange[..] == CalibrateAt(words, i, old(yesXRange[..]), 3)
    {
      ghost var before := yesXRange[..];
      var word := words[i];
      var j := 0;
      while j < 3
        invariant 0 <= j <= 3
        invariant yesXRange[..] == CalibrateAt(words, i, before, j)
        invariant i + 1 == |words| ==> forall j' :: 0 <= j' < j ==> word.text != HeaderFirst(j')
      {
        if word.text == HeaderFirst(j) {
          if i + 1 == |words| {
            CalibrateAtNoSuccessor(words, i, before, 3);
            CalibrateAtNoSuccessor(words, i, before, j);
            return false;
          }
          if words[i + 1].text == HeaderSecond(j) {
            yesXRange[j] := Some(Interval(word.minX, words[i + 1].maxX));
          }
        }
        j := j + 1;
      }
      ok := true;
    }

    /** The tags of a "Y" at left coordinate `x`, once every slot is set. */
    method MarkerTags(x: real) returns (tags: seq<string>)
      requires Valid() && AllSet(yesXRange[..])
      ensures tags == Tags(x, yesXRange[..])
    {
      tags := [];
      var j := 0;
      while j < 3
        invariant 0 <= j <= 3
        invariant tags == TagsUpTo(x, yesXRange[..], j)
      {
        var slot := yesXRange[j];
        if slot.value.lo <= x <= slot.value.hi {
          tags := tags + [Tag(j)];
        }
        j := j + 1;
      }
    }

    /** One iteration of the word loop: append the text, calibrate, tag a marker. */
    method ScanWord(words: seq<Word>, i: nat, ghost s0: seq<Option<Interval>>, list0: seq<string>)
      returns (ok: bool, list: seq<string>)
      requires Valid() && |s0| == 3 && i < |words|
      requires yesXRange[..] == Calibrate(words, s0, i)
      modifies yesXRange
      ensures Valid()
      ensures yesXRange[..] == Calibrate(words, s0, i + 1)
      ensures ok <==> !(i + 1 == |words| && exists j :: 0 <= j < 3 && words[i].text == HeaderFirst(j))
      ensures ok ==> list == list0 + Emitted(words, s0, i)
    {
      var word := words[i];
      list := list0 + [word.text];
      ok := CalibrateWord(words, i);
      if !ok {
        CalibrateAtNoSuccessor(words, i, Calibrate(words, s0, i), 3);
        return;
      }
      ghost var slots := Calibrate(words, s0, i + 1);
      assert yesXRange[..] == slots;
      if word.text == MARKER && yesXRange[0].Some? && yesXRange[1].Some? && yesXRange[2].Some? {
        var tags := MarkerTags(word.minX);
        list := list + tags;
      } else {
        assert word.text != MARKER || !AllSet(slots);
      }
    }

    /** The word loop of a page: grouping by block, calibration and marker tagging. */
    method GroupWords(words: seq<Word>) returns (ok: bool, order: seq<int>, blockWords: map<int, seq<string>>)
      requires Valid()
      modifies yesXRange
      ensures Valid()
      ensures yesXRange[..] == Calibrate(words, old(yesXRange[..]), |words|)
      ensures ok <==> !LastNeedsSuccessor(words)
      ensures ok ==> Grouped(words, old(yesXRange[..]), |words|, order, blockWords)
    {
      ghost var s0 := yesXRange[..];
      order := [];
      blockWords := map[];
      var i := 0;
      while i < |words|
        invariant 0 <= i <= |words|
        invariant Valid()
        invariant yesXRange[..] == Calibrate(words, s0, i)
        invariant Grouped(words, s0, i, order, blockWords)
        invariant i == |words| ==> !LastNeedsSuccessor(words)
      {
        var word := words[i];
        var ok', list := ScanWord(words, i, s0, Lookup(blockWords, word.block));
        if !ok' {
          assert i + 1 == |words| && LastNeedsSuccessor(words);
          return false, order, blockWords;
        }
        ghost var previousOrder, previous := order, blockWords;
        if word.block !in blockWords {
          order := order + [word.block];
        }
        blockWords := blockWords[word.block := list];
        BlocksAdvance(words, s0, i, previousOrder, previous, list, order, blockWords);
        i := i + 1;
      }
      ok := true;
    }

    /** The per-page body of the run: scan the words, then classify the blocks. */
    method ScanPage(words: seq<Word>, parseScore: string -> Option<real>) returns (res: Result<Batch>)
      requires Valid()
      modifies yesXRange
      ensures Valid()
      ensures yesXRange[..] == Calibrate(words, old(yesXRange[..]), |words|)
      ensures res == PageResult(words, old(yesXRange[..]), parseScore)
    {
      ghost var s0 := yesXRange[..];
      var ok, order, blockWords := GroupWords(words);
      if !ok {
        return Err(IndexError);
      }
      var blocks := seq(|order|, k requires 0 <= k < |order| => Lookup(blockWords, order[k]));
      assert Grouped(words, s0, |words|, order, blockWords);
      assert blocks == PageBlocks(words, s0);
      var data := ClassifyBlocks(blocks, parseScore);
      if data.Err? {
        return Err(data.error);
      }
      if |data.value| == 0 {
        return Err(IndexError);
      }
      res := Ok(Batch(KindOf(data.value[0]), data.value));
    }
  }

  /**
   * A run hands over a batch for every page exactly when it does not fail,
   * and then those are the batches `ExtractSpec` returns; a failing run
   * reports the error `ExtractSpec` raises.
   */
  lemma {:induction false} RunAgreesWithExtract(pages: seq<seq<Word>>, slots: seq<Option<Interval>>,
                                                parseScore: string -> Option<real>)
    requires |slots| == 3
    ensures RunSpec(pages, slots, parseScore).failure.None? <==> ExtractSpec(pages, slots, parseScore).Ok?
    ensures ExtractSpec(pages, slots, parseScore).Ok? ==>
              RunSpec(pages, slots, parseScore).handed == ExtractSpec(pages, slots, parseScore).value
    ensures ExtractSpec(pages, slots, parseScore).Err? ==>
              RunSpec(pages, slots, parseScore).failure == Some(ExtractSpec(pages, slots, parseScore).error)
    decreases |pages|
  {
    if |pages| > 0 {
      RunAgreesWithExtract(pages[1..], Calibrate(pages[0], slots, |pages[0]|), parseScore);
    }
  }

  /**
   * A failing run stops at the first page that raises: it has handed over
   * the batches of exactly the pages before it, the same batches a run over
   * those pages alone returns, and the error is that page's.
   */
  lemma {:induction false} RunStopsAtFailure(pages: seq<seq<Word>>, slots: seq<Option<Interval>>,
                                             parseScore: string -> Option<real>)
    requires |slots| == 3
    ensures var r := RunSpec(pages, slots, parseScore);
            var k := |r.handed|;
            k <= |pages| && ExtractSpec(pages[..k], slots, parseScore) == Ok(r.handed) &&
            (r.failure.None? <==> k == |pages|) &&
            (r.failure.Some? ==> PageResult(pages[k], SlotsAfter(pages[..k], slots), parseScore) == Err(r.failure.value))
    decreases |pages|
  {
    if |pages| > 0 {
      var next := Calibrate(pages[0], slots, |pages[0]|);
      RunStopsAtFailure(pages[1..], next, parseScore);
      var r := RunSpec(pages, slots, parseScore);
      var k := |r.handed|;
      if PageResult(pages[0], slots, parseScore).Ok? {
        var rest := RunSpec(pages[1..], next, parseScore);
        assert pages[..k][0] == pages[0];
        assert pages[..k][1..] == pages[1..][..k - 1];
        if r.failure.Some? {
          assert pages[k] == pages[1..][k - 1];
        }
      }
    }
  }

  /**
   * Batches once handed over stay handed over: a run over `pages + more`
   * hands over what the run over `pages` did, then, if that run did not
   * fail, what `more` hands over from the calibration `pages` left.
   */
  lemma {:induction false} RunKeepsHanded(pages: seq<seq<Word>>, more: seq<seq<Word>>, slots: seq<Option<Interval>>,
                                          parseScore: string -> Option<real>)
    requires |slots| == 3
    ensures RunSpec(pages, slots, parseScore).failure.Some? ==>
              RunSpec(pages + more, slots, parseScore) == RunSpec(pages, slots, parseScore)
    ensures RunSpec(pages, slots, parseScore).failure.None? ==>
              RunSpec(pages + more, slots, parseScore) ==
              After(RunSpec(pages, slots, parseScore).handed, RunSpec(more, SlotsAfter(pages, slots), parseScore))
    decreases |pages|
  {
    if |pages| == 0 {
      assert pages + more == more;
      assert [] + RunSpec(more, slots, parseScore).handed == RunSpec(more, slots, parseScore).handed;
    } else {
      var all := pages + more;
      assert all[0] == pages[0];
      assert all[1..] == pages[1..] + more;
      var next := Calibrate(pages[0], slots, |pages[0]|);
      RunUnfold(pages, slots, parseScore);
      RunUnfold(all, slots, parseScore);
      RunKeepsHanded(pages[1..], more, next, parseScore);
      if PageResult(pages[0], slots, parseScore).Ok? && RunSpec(pages[1..], next, parseScore).failure.None? {
        AfterTwice([PageResult(pages[0], slots, parseScore).value], RunSpec(pages[1..], next, parseScore).handed,
                   RunSpec(more, SlotsAfter(pages, slots), parseScore));
      }
    }
  }

  lemma RunUnfold(pages: seq<seq<Word>>, slots: seq<Option<Interval>>, parseScore: string -> Option<real>)
    requires |slots| == 3 && |pages| > 0
    ensures PageResult(pages[0], slots, parseScore).Err? ==>
              RunSpec(pages, slots, parseScore) == Run([], Some(PageResult(pages[0], slots, parseScore).error))
    ensures PageResult(pages[0], slots, parseScore).Ok? ==>
              RunSpec(pages, slots, parseScore) ==
              After([PageResult(pages[0], slots, parseScore).value],
                    RunSpec(pages[1..], Calibrate(pages[0], slots, |pages[0]|), parseScore))
  {
  }

  lemma AfterTwice(first: seq<Batch>, second: seq<Batch>, rest: Run)
    ensures After(first, After(second, rest)) == After(first + second, rest)
  {
    assert first + (second + rest.handed) == (first + second) + rest.handed;
  }

  lemma ExtractUnfold(pages: seq<seq<Word>>, slots: seq<Option<Interval>>, parseScore: string -> Option<real>)
    requires |slots| == 3 && |pages| > 0
    ensures PageResult(pages[0], slots, parseScore).Err? ==>
              ExtractSpec(pages, slots, parseScore) == Err(PageResult(pages[0], slots, parseScore).error)
    ensures PageResult(pages[0], slots, parseScore).Ok? ==>
              ExtractSpec(pages, slots, parseScore) ==
              Prepend([PageResult(pages[0], slots, parseScore).value],
                      ExtractSpec(pages[1..], Calibrate(pages[0], slots, |pages[0]|), parseScore))
  {
  }

  lemma PrependTwice(first: seq<Batch>, second: seq<Batch>, rest: Result<seq<Batch>>)
    ensures Prepend(first, Prepend(second, rest)) == Prepend(first + second, rest)
  {
    if rest.Ok? {
      assert first + (second + rest.value) == (first + second) + rest.value;
    }
  }

  lemma PrependNothing(rest: Result<seq<Batch>>)
    ensures Prepend([], rest) == rest
  {
    if rest.Ok? {
      assert [] + rest.value == rest.value;
    }
  }

  /**
   * The run's page loop: one fresh calibration, then every page in order,
   * each page's batch handed over (`insert_records`) before the next page is
   * read; the first page that raises stops the run.
   */
  method ExtractPages(pages: seq<seq<Word>>, parseScore: string -> Option<real>)
    returns (handed: seq<Batch>, failure: Option<Error>)
    ensures Run(handed, failure) == RunSpec(pages, [None, None, None], parseScore)
  {
    var extractor := new Extractor();
    handed := [];
    var p := 0;
    assert pages[p..] == pages;
    assert [] + RunSpec(pages, extractor.yesXRange[..], parseScore).handed == RunSpec(pages, extractor.yesXRange[..], parseScore).handed;
    while p < |pages|
      invariant 0 <= p <= |pages|
      invariant extractor.Valid() && fresh(extractor.yesXRange)
      invariant RunSpec(pages, [None, None, None], parseScore) ==
                After(handed, RunSpec(pages[p..], extractor.yesXRange[..], parseScore))
    {
      ghost var slots := extractor.yesXRange[..];
      var batch := extractor.ScanPage(pages[p], parseScore);
      assert pages[p..][0] == pages[p] && pages[p..][1..] == pages[p + 1..];
      if batch.Err? {
        assert RunSpec(pages[p..], slots, parseScore) == Run([], Some(batch.error));
        assert handed + [] == handed;
        return handed, Some(batch.error);
      }
      AfterTwice(handed, [batch.value], RunSpec(pages[p + 1..], extractor.yesXRange[..], parseScore));
      handed := handed + [batch.value];
      p := p + 1;
    }
    assert pages[p..] == [];
    assert handed + [] == handed;
    failure := None;
  }
}
