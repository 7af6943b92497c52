/**
 The body of `main`'s loop: for one classification result, fill the review's
 output row and adjust the merit ledger, then the fold of that step over a
 sequence of results.

 Any Python exception the loop body does not catch aborts the run before
 either table is written, so a step either succeeds or ends the run with a
 `RunError`. The `KeyError` raised when the ledger has no `Hotel` column is
 caught and leaves the merits alone.
 */
module Aggregation {
  import opened Wrappers
  import opened Text
  import opened Schema

  /** One row of the output table: the review text, the two result columns
      and the category cells written so far (an absent key is an empty cell). */
  datatype OutputRow = OutputRow(text: string, classify: Value, rating: int, cells: map<string, Value>)

  /** The merit file as read: a row count and the `Hotel` and `Merit` columns, either possibly missing. */
  datatype MeritSheet = MeritSheet(height: nat, hotels: Option<seq<string>>, merits: Option<seq<int>>)
  {
    predicate Valid()
    {
      && (hotels.Some? ==> |hotels.value| == height)
      && (merits.Some? ==> |merits.value| == height)
    }
  }

  /** The merit ledger once the `Merit` column exists. */
  datatype Ledger = Ledger(hotels: Option<seq<string>>, merits: seq<int>)
  {
    predicate Valid()
    {
      hotels.Some? ==> |hotels.value| == |merits|
    }
  }

  /** What `main` fixes for the loop: the hotel whose merit moves and the
      category names copied into the output table. */
  datatype Config = Config(target: string, categories: seq<string>)

  /** Both in-memory tables of a run. */
  datatype Tables = Tables(table: seq<OutputRow>, ledger: Ledger)

  /** Why a run stopped: an uncaught model error or an exception on a malformed result. */
  datatype RunError =
    | BackendFailed(call: nat)  // the model call raised
    | NotAnObject               // subscripting a non-dict (TypeError)
    | MissingKey(key: string)   // `analysis_data[key]` (KeyError)
    | RatingNotInt              // `int(rating)` on a non-integer
    | LabelNotText              // `.lower()` on a non-string label (AttributeError)

  /** The fields of a result that the loop body reads. */
  datatype Reading = Reading(sentiment: string, rating: int, fields: map<string, Value>)

  /** A result the loop body processes without raising. */
  predicate WellFormed(d: Doc)
  {
    && d.Object?
    && ClassifyKey in d.fields && d.fields[ClassifyKey].Str?
    && RatingKey in d.fields && d.fields[RatingKey].Int?
  }

  /** Ledger row j belongs to the target hotel, so merit updates reach it. */
  predicate Credited(l: Ledger, j: int, target: string)
  {
    l.hotels.Some? && 0 <= j < |l.hotels.value| && l.hotels.value[j] == target
  }

  /** The `Merit` column after lines 66-67: kept when present, all zero when missing. */
  function InitLedger(sheet: MeritSheet): (l: Ledger)
    requires sheet.Valid()
    ensures l.Valid() && l.hotels == sheet.hotels && |l.merits| == sheet.height
    ensures sheet.merits.Some? ==> l.merits == sheet.merits.value
    ensures sheet.merits.None? ==> forall j :: 0 <= j < |l.merits| ==> l.merits[j] == 0
  {
    match sheet.merits
    case Some(m) => Ledger(sheet.hotels, m)
    case None => Ledger(sheet.hotels, seq(sheet.height, _ => 0))
  }

  /** The output table after lines 70-71: `classify` empty and `rating` 0 on every row. */
  function InitTable(texts: seq<string>): (t: seq<OutputRow>)
    ensures |t| == |texts|
    ensures forall k :: 0 <= k < |t| ==> t[k] == OutputRow(texts[k], Str(""), 0, map[])
  {
    seq(|texts|, k requires 0 <= k < |texts| => OutputRow(texts[k], Str(""), 0, map[]))
  }

  /** Reads `classify` and `rating` in the order the loop body does, raising as it would. */
  function Read(d: Doc): (r: Result<Reading, RunError>)
    ensures r.Success? <==> WellFormed(d)
    ensures r.Success? ==> && d.fields[ClassifyKey] == Str(r.value.sentiment)
                           && d.fields[RatingKey] == Int(r.value.rating)
                           && r.value.fields == d.fields
    ensures d.NotObject? ==> r == Failure(NotAnObject)
    ensures d.Object? && ClassifyKey !in d.fields ==> r == Failure(MissingKey(ClassifyKey))
    ensures d.Object? && ClassifyKey in d.fields && RatingKey !in d.fields ==> r == Failure(MissingKey(RatingKey))
    ensures (d.Object? && ClassifyKey in d.fields && RatingKey in d.fields && !d.fields[RatingKey].Int?)
              ==> r == Failure(RatingNotInt)
    ensures (d.Object? && ClassifyKey in d.fields && RatingKey in d.fields && d.fields[RatingKey].Int?
             && !d.fields[ClassifyKey].Str?) ==> r == Failure(LabelNotText)
  {
    match d
    case NotObject(_) => Failure(NotAnObject)
    case Object(f) =>
      if ClassifyKey !in f then Failure(MissingKey(ClassifyKey))
      else if RatingKey !in f then Failure(MissingKey(RatingKey))
      else if !f[RatingKey].Int? then Failure(RatingNotInt)
      else if !f[ClassifyKey].Str? then Failure(LabelNotText)
      else Success(Reading(f[ClassifyKey].text, f[RatingKey].number, f))
  }

  /** The merit change for one label: the positive test comes first, so a
      label mentioning both counts as positive. */
  function MeritDelta(sentiment: string): int
  {
    if Contains(Lower(sentiment), "positive") then 1
    else if Contains(Lower(sentiment), "negative") then -1
    else 0
  }

  /** A result whose label counts as positive. */
  predicate IsPositive(d: Doc)
  {
    WellFormed(d) && Contains(Lower(d.fields[ClassifyKey].text), "positive")
  }

  /** A result whose label counts as negative: it says negative and not positive. */
  predicate IsNegative(d: Doc)
  {
    && WellFormed(d)
    && !Contains(Lower(d.fields[ClassifyKey].text), "positive")
    && Contains(Lower(d.fields[ClassifyKey].text), "negative")
  }

  /** Number of results counting as positive. */
  function Positives(docs: seq<Doc>): nat
  {
    if docs == [] then 0 else (if IsPositive(docs[0]) then 1 else 0) + Positives(docs[1..])
  }

  /** Number of results counting as negative. */
  function Negatives(docs: seq<Doc>): nat
  {
    if docs == [] then 0 else (if IsNegative(docs[0]) then 1 else 0) + Negatives(docs[1..])
  }

  /** The merit column after adding delta to the rows whose hotel is target. */
  function Credit(hotels: seq<string>, merits: seq<int>, target: string, delta: int): (r: seq<int>)
    requires |hotels| == |merits|
    ensures |r| == |merits|
    ensures forall j :: 0 <= j < |merits| ==> r[j] == merits[j] + (if hotels[j] == target then delta else 0)
  {
    if merits == [] then []
    else [merits[0] + (if hotels[0] == target then delta else 0)] + Credit(hotels[1..], merits[1..], target, delta)
  }

  /** `df_merit.loc[df_merit['Hotel'] == target, 'Merit'] += delta`; without a
      `Hotel` column the `KeyError` is caught and nothing changes. */
  function AdjustMerit(l: Ledger, target: string, delta: int): (l': Ledger)
    requires l.Valid()
    ensures l'.Valid() && l'.hotels == l.hotels && |l'.merits| == |l.merits|
    ensures forall j :: 0 <= j < |l.merits| ==>
              l'.merits[j] == l.merits[j] + (if Credited(l, j, target) then delta else 0)
  {
    match l.hotels
    case None => l
    case Some(h) => Ledger(l.hotels, Credit(h, l.merits, target, delta))
  }

  /** The category loop of lines 92-100 over the names in `cats`: a cell is
      written exactly for the listed names that are keys of the result. */
  function CopyCategories(cells: map<string, Value>, fields: map<string, Value>, cats: seq<string>): (r: map<string, Value>)
    ensures forall c :: c in r <==> c in cells || (c in cats && c in fields)
    ensures forall c :: c in r ==> r[c] == if c in cats && c in fields then fields[c] else cells[c]
    decreases |cats|
  {
    if cats == [] then cells
    else
      var cells' := if cats[0] in fields then cells[cats[0] := fields[cats[0]]] else cells;
      CopyCategories(cells', fields, cats[1..])
  }

  /** No category cell is written for a result none of whose keys is a category. */
  lemma NoCategoryKeysFillNothing(cells: map<string, Value>, fields: map<string, Value>, cats: seq<string>)
    requires forall c :: c in fields ==> c !in cats
    ensures CopyCategories(cells, fields, cats) == cells
  {
  }

  /** Of a result with the two fixed keys and Cleanliness, only the Cleanliness cell is copied. */
  lemma CleanlinessCellOnly(cats: seq<string>, verdict: Value, rating: Value, v: Value)
    requires "Cleanliness" in cats && ClassifyKey !in cats && RatingKey !in cats
    ensures CopyCategories(map[], map[ClassifyKey := verdict, RatingKey := rating, "Cleanliness" := v], cats)
              == map["Cleanliness" := v]
  {
  }

  /** How one output row records one well-formed result: label verbatim,
      rating as an integer, category cells for the listed keys only. */
  ghost predicate Records(before: OutputRow, after: OutputRow, d: Doc, cats: seq<string>)
  {
    && WellFormed(d)
    && after.text == before.text
    && after.classify == d.fields[ClassifyKey]
    && Int(after.rating) == d.fields[RatingKey]
    && (forall c :: c in after.cells <==> c in before.cells || (c in cats && c in d.fields))
    && (forall c :: c in after.cells ==>
          after.cells[c] == if c in cats && c in d.fields then d.fields[c] else before.cells[c])
  }

  /** Lines 79-80 and 92-100 for one well-formed result. */
  function Fill(row: OutputRow, d: Doc, cats: seq<string>): (row': OutputRow)
    requires WellFormed(d)
    ensures Records(row, row', d, cats)
  {
    row.(classify := d.fields[ClassifyKey], rating := d.fields[RatingKey].number,
         cells := CopyCategories(row.cells, d.fields, cats))
  }

  /** A result moves the merit up exactly when it counts as positive and down
      exactly when it counts as negative. */
  lemma NetCounts(d: Doc)
    requires WellFormed(d)
    ensures MeritDelta(d.fields[ClassifyKey].text) == (if IsPositive(d) then 1 else 0) - (if IsNegative(d) then 1 else 0)
  {
  }

  /** One iteration of `main`'s loop for row i with result d. */
  function Step(t: Tables, i: nat, d: Doc, cfg: Config): (r: Result<Tables, RunError>)
    requires i < |t.table| && t.ledger.Valid()
    ensures r.Success? <==> WellFormed(d)
    ensures r.Failure? ==> r.error == Read(d).error
    ensures r.Success? ==> |r.value.table| == |t.table| && r.value.ledger.Valid()
    ensures r.Success? ==> r.value.ledger.hotels == t.ledger.hotels && |r.value.ledger.merits| == |t.ledger.merits|
  {
    match Read(d)
    case Failure(e) => Failure(e)
    case Success(reading) =>
      Success(Tables(t.table[i := Fill(t.table[i], d, cfg.categories)], AdjustMerit(t.ledger, cfg.target, MeritDelta(reading.sentiment))))
  }

  /** The output-table half of `StepEffect`. */
  lemma StepTable(t: Tables, i: nat, d: Doc, cfg: Config)
    requires i < |t.table| && t.ledger.Valid()
    requires WellFormed(d)
    ensures var r := Step(t, i, d, cfg).value;
      && (forall j :: 0 <= j < |t.table| && j != i ==> r.table[j] == t.table[j])
      && Records(t.table[i], r.table[i], d, cfg.categories)
  {
  }

  /** What one successful step changes: row i records the result, every other
      row is untouched, and the target's ledger rows move by the result's net
      contribution while the others keep their merit. */
  lemma StepEffect(t: Tables, i: nat, d: Doc, cfg: Config)
    requires i < |t.table| && t.ledger.Valid()
    requires WellFormed(d)
    ensures var r := Step(t, i, d, cfg).value;
      && (forall j :: 0 <= j < |t.table| && j != i ==> r.table[j] == t.table[j])
      && Records(t.table[i], r.table[i], d, cfg.categories)
      && (forall j :: 0 <= j < |t.ledger.merits| ==>
            r.ledger.merits[j] == t.ledger.merits[j] + (if Credited(t.ledger, j, cfg.target) then MeritDelta(d.fields[ClassifyKey].text) else 0))
  {
  }

  /** The loop of `main` over rows from, from + 1, ... with the given results. */
  function Aggregate(t: Tables, from: nat, docs: seq<Doc>, cfg: Config): (r: Result<Tables, RunError>)
    requires from + |docs| <= |t.table| && t.ledger.Valid()
    ensures r.Success? ==> |r.value.table| == |t.table| && r.value.ledger.Valid()
    decreases |docs|
  {
    if docs == [] then Success(t)
    else
      match Step(t, from, docs[0], cfg)
      case Failure(e) => Failure(e)
      case Success(t') => Aggregate(t', from + 1, docs[1..], cfg)
  }

  /** A run over well-formed results only always succeeds. */
  lemma {:induction false} WellFormedAggregates(t: Tables, from: nat, docs: seq<Doc>, cfg: Config)
    requires from + |docs| <= |t.table| && t.ledger.Valid()
    requires forall k :: 0 <= k < |docs| ==> WellFormed(docs[k])
    ensures Aggregate(t, from, docs, cfg).Success?
    decreases |docs|
  {
    if docs != [] {
      var s := Step(t, from, docs[0], cfg);
      WellFormedAggregates(s.value, from + 1, docs[1..], cfg);
    }
  }

  /** A run that succeeds saw only well-formed results. */
  lemma {:induction false} AggregateSawWellFormed(t: Tables, from: nat, docs: seq<Doc>, cfg: Config)
    requires from + |docs| <= |t.table| && t.ledger.Valid()
    requires Aggregate(t, from, docs, cfg).Success?
    ensures forall k :: 0 <= k < |docs| ==> WellFormed(docs[k])
    decreases |docs|
  {
    if docs != [] {
      var s := Step(t, from, docs[0], cfg);
      AggregateSawWellFormed(s.value, from + 1, docs[1..], cfg);
      assert forall k :: 1 <= k < |docs| ==> docs[k] == docs[1..][k - 1];
    }
  }

  /** The run of rows survives exactly when every result is well-formed. */
  lemma AggregateSucceedsIff(t: Tables, from: nat, docs: seq<Doc>, cfg: Config)
    requires from + |docs| <= |t.table| && t.ledger.Valid()
    ensures Aggregate(t, from, docs, cfg).Success? <==> forall k :: 0 <= k < |docs| ==> WellFormed(docs[k])
  {
    if Aggregate(t, from, docs, cfg).Success? {
      AggregateSawWellFormed(t, from, docs, cfg);
    }
    if forall k :: 0 <= k < |docs| ==> WellFormed(docs[k]) {
      WellFormedAggregates(t, from, docs, cfg);
    }
  }

  /** The run stops at the first malformed result, with the exception reading it raises. */
  lemma {:induction false} AggregateStopsAtFirstDefect(t: Tables, from: nat, docs: seq<Doc>, cfg: Config, k: nat)
    requires from + |docs| <= |t.table| && t.ledger.Valid()
    requires k < |docs| && !WellFormed(docs[k])
    requires forall j :: 0 <= j < k ==> WellFormed(docs[j])
    ensures Aggregate(t, from, docs, cfg) == Failure(Read(docs[k]).error)
    decreases |docs|
  {
    if k > 0 {
      var s := Step(t, from, docs[0], cfg);
      assert WellFormed(docs[0]);
      assert docs[1..][k - 1] == docs[k];
      AggregateStopsAtFirstDefect(s.value, from + 1, docs[1..], cfg, k - 1);
    }
  }

  /**
   Merit accumulation: every ledger row of the target hotel ends at its initial
   merit plus the positive results minus the negative ones; every other row,
   and the `Hotel` column, are unchanged.
   */
  lemma {:induction false} AggregateMerit(t: Tables, from: nat, docs: seq<Doc>, cfg: Config)
    requires from + |docs| <= |t.table| && t.ledger.Valid()
    requires Aggregate(t, from, docs, cfg).Success?
    ensures Aggregate(t, from, docs, cfg).value.ledger.hotels == t.ledger.hotels
    ensures |Aggregate(t, from, docs, cfg).value.ledger.merits| == |t.ledger.merits|
    ensures forall j :: 0 <= j < |t.ledger.merits| ==>
              Aggregate(t, from, docs, cfg).value.ledger.merits[j]
                == t.ledger.merits[j] + (if Credited(t.ledger, j, cfg.target) then Positives(docs) - Negatives(docs) else 0)
    decreases |docs|
  {
    if docs != [] {
      var s := Step(t, from, docs[0], cfg);
      StepEffect(t, from, docs[0], cfg);
      NetCounts(docs[0]);
      AggregateMerit(s.value, from + 1, docs[1..], cfg);
      assert forall j :: Credited(s.value.ledger, j, cfg.target) == Credited(t.ledger, j, cfg.target);
    }
  }

  /** A ledger with no row for the target hotel, or with no `Hotel` column, is left exactly as it was. */
  lemma UnmatchedLedgerUnchanged(t: Tables, from: nat, docs: seq<Doc>, cfg: Config)
    requires from + |docs| <= |t.table| && t.ledger.Valid()
    requires Aggregate(t, from, docs, cfg).Success?
    requires forall j :: 0 <= j < |t.ledger.merits| ==> !Credited(t.ledger, j, cfg.target)
    ensures Aggregate(t, from, docs, cfg).value.ledger == t.ledger
  {
    AggregateMerit(t, from, docs, cfg);
  }

  /** Rows outside the processed range are untouched. */
  lemma {:induction false} AggregateFrame(t: Tables, from: nat, docs: seq<Doc>, cfg: Config)
    requires from + |docs| <= |t.table| && t.ledger.Valid()
    requires Aggregate(t, from, docs, cfg).Success?
    ensures forall j :: 0 <= j < |t.table| && !(from <= j < from + |docs|) ==>
              Aggregate(t, from, docs, cfg).value.table[j] == t.table[j]
    decreases |docs|
  {
    if docs != [] {
      var s := Step(t, from, docs[0], cfg);
      StepTable(t, from, docs[0], cfg);
      AggregateFrame(s.value, from + 1, docs[1..], cfg);
    }
  }

  /** Every processed row records its own result. */
  lemma {:induction false} AggregateRows(t: Tables, from: nat, docs: seq<Doc>, cfg: Config)
    requires from + |docs| <= |t.table| && t.ledger.Valid()
    requires Aggregate(t, from, docs, cfg).Success?
    ensures forall k :: 0 <= k < |docs| ==>
              Records(t.table[from + k], Aggregate(t, from, docs, cfg).value.table[from + k], docs[k], cfg.categories)
    decreases |docs|
  {
    if docs != [] {
      var s := Step(t, from, docs[0], cfg).value;
      StepTable(t, from, docs[0], cfg);
      var r := Aggregate(s, from + 1, docs[1..], cfg).value;
      AggregateFrame(s, from + 1, docs[1..], cfg);
      AggregateRows(s, from + 1, docs[1..], cfg);
      assert r.table[from] == s.table[from];
      forall k | 1 <= k < |docs|
        ensures Records(t.table[from + k], r.table[from + k], docs[k], cfg.categories)
      {
        var k' := k - 1;
        assert Records(s.table[from + 1 + k'], r.table[from + 1 + k'], docs[1..][k'], cfg.categories);
        assert s.table[from + 1 + k'] == t.table[from + k];
        assert docs[1..][k'] == docs[k];
      }
    }
  }

  /** The output table does not depend on the merit ledger: runs over two
      ledgers succeed together and produce the same rows. */
  lemma {:induction false} AggregateTableIgnoresLedger(table: seq<OutputRow>, l1: Ledger, l2: Ledger, from: nat, docs: seq<Doc>, cfg: Config)
    requires from + |docs| <= |table| && l1.Valid() && l2.Valid()
    ensures (Aggregate(Tables(table, l1), from, docs, cfg).Success?
             <==> Aggregate(Tables(table, l2), from, docs, cfg).Success?)
    ensures Aggregate(Tables(table, l1), from, docs, cfg).Success? ==>
              Aggregate(Tables(table, l1), from, docs, cfg).value.table
                == Aggregate(Tables(table, l2), from, docs, cfg).value.table
    decreases |docs|
  {
    if docs != [] {
      var s1 := Step(Tables(table, l1), from, docs[0], cfg);
      var s2 := Step(Tables(table, l2), from, docs[0], cfg);
      if s1.Success? {
        assert s1.value.table == s2.value.table;
        AggregateTableIgnoresLedger(s1.value.table, s1.value.ledger, s2.value.ledger, from + 1, docs[1..], cfg);
      }
    }
  }

  /** Upper and lower case do not matter to the merit change. */
  lemma MeritDeltaIgnoresCase(sentiment: string)
    ensures MeritDelta(Lower(sentiment)) == MeritDelta(sentiment)
  {
    LowerIdempotent(sentiment);
  }

  /** A "Positive" label raises the merit by one. */
  lemma PositiveLabelDelta()
    ensures MeritDelta("Positive") == 1
  {
    assert Lower("Positive") == "positive";
  }

  /** A "Neutral" label leaves the merit alone. */
  lemma NeutralLabelDelta()
    ensures MeritDelta("Neutral") == 0
  {
    assert Lower("Neutral") == "neutral";
  }

  /** A "Negative" label lowers the merit by one. */
  lemma NegativeLabelDelta()
    ensures MeritDelta("Negative") == -1
  {
    var l := Lower("Negative");
    assert l == "negative";
    assert !Contains(l, "positive");
  }

  /** A label mentioning both words counts as positive: the positive test is made first. */
  lemma MixedLabelDelta(sentiment: string)
    requires Contains(Lower(sentiment), "positive") && Contains(Lower(sentiment), "negative")
    ensures MeritDelta(sentiment) == 1
  {
  }
}
