/**
 `main`: classify each sampled review in turn and fold the results into the
 output table and the merit ledger. Reading and writing the CSV files and the
 random sample are outside the model: the run takes the sampled review texts
 and the merit sheet as read, and returns the modelled columns of the two
 tables it would write.
 */
module Pipeline {
  import opened Wrappers
  import opened Schema
  import opened Classifier
  import opened Aggregation

  /** The hotel whose merit every review of this run moves. */
  const TargetHotel: string := "Metro_Points_Hotel_Washington_North"

  /** The loop's fixed configuration. */
  const MainConfig: Config := Config(TargetHotel, Categories)

  /** The results of n successive `analyze_review` calls, each one reading the
      reply stream from where the previous one stopped. */
  function Classifications(backend: seq<string>, n: nat, decode: Decoder): (r: Result<seq<Doc>, RunError>)
    ensures r.Success? ==> |r.value| == n
    decreases n
  {
    if n == 0 then Success([])
    else
      match Analyze(backend, DefaultRetries, decode)
      case Failure(e) => Failure(BackendFailed(e.call))
      case Success(a) =>
        match Classifications(backend[a.calls..], n - 1, decode)
        case Failure(e) => Failure(e)
        case Success(rest) => Success([a.data] + rest)
  }

  /** The loop of lines 74-100 from row i on: classify, then record, row by row;
      the first uncaught exception ends the run. */
  function RunFrom(t: Tables, i: nat, backend: seq<string>, decode: Decoder, cfg: Config): (r: Result<Tables, RunError>)
    requires i <= |t.table| && t.ledger.Valid()
    ensures r.Success? ==> |r.value.table| == |t.table| && r.value.ledger.Valid()
    decreases |t.table| - i
  {
    if i == |t.table| then Success(t)
    else
      match Analyze(backend, DefaultRetries, decode)
      case Failure(e) => Failure(BackendFailed(e.call))
      case Success(a) =>
        match Step(t, i, a.data, cfg)
        case Failure(e) => Failure(e)
        case Success(t') => RunFrom(t', i + 1, backend[a.calls..], decode, cfg)
  }

  /** The body of `main` after the files are read, for a given configuration. */
  function RunWith(cfg: Config, texts: seq<string>, sheet: MeritSheet, backend: seq<string>, decode: Decoder): (r: Result<Tables, RunError>)
    requires sheet.Valid()
    ensures r.Success? ==> |r.value.table| == |texts| && r.value.ledger.Valid()
  {
    RunFrom(Tables(InitTable(texts), InitLedger(sheet)), 0, backend, decode, cfg)
  }

  /** One run of `main` over the sampled reviews and the merit sheet. */
  function Run(texts: seq<string>, sheet: MeritSheet, backend: seq<string>, decode: Decoder): (r: Result<Tables, RunError>)
    requires sheet.Valid()
    ensures r.Success? ==> |r.value.table| == |texts| && r.value.ledger.Valid()
  {
    RunWith(MainConfig, texts, sheet, backend, decode)
  }

  /** A successful batch of classifications starts with the first review's result. */
  lemma ClassificationsUnfold(backend: seq<string>, n: nat, decode: Decoder)
    requires 0 < n && Classifications(backend, n, decode).Success?
    ensures Analyze(backend, DefaultRetries, decode).Success?
    ensures var a := Analyze(backend, DefaultRetries, decode).value;
      && Classifications(backend[a.calls..], n - 1, decode).Success?
      && Classifications(backend, n, decode).value == [a.data] + Classifications(backend[a.calls..], n - 1, decode).value
  {
  }

  /** The loop on a row whose classification and step succeed moves on to the next row. */
  lemma RunFromUnfold(t: Tables, i: nat, backend: seq<string>, decode: Decoder, cfg: Config)
    requires i < |t.table| && t.ledger.Valid()
    requires Analyze(backend, DefaultRetries, decode).Success?
    requires Step(t, i, Analyze(backend, DefaultRetries, decode).value.data, cfg).Success?
    ensures var a := Analyze(backend, DefaultRetries, decode).value;
      RunFrom(t, i, backend, decode, cfg)
        == RunFrom(Step(t, i, a.data, cfg).value, i + 1, backend[a.calls..], decode, cfg)
  {
  }

  /** The fold over a non-empty batch whose first step succeeds moves on to the next row. */
  lemma AggregateUnfold(t: Tables, i: nat, docs: seq<Doc>, cfg: Config)
    requires docs != [] && i + |docs| <= |t.table| && t.ledger.Valid()
    requires Step(t, i, docs[0], cfg).Success?
    ensures Aggregate(t, i, docs, cfg) == Aggregate(Step(t, i, docs[0], cfg).value, i + 1, docs[1..], cfg)
  {
  }

  /** A loop that runs to completion classified every review, and its tables
      are the fold of those classifications. */
  lemma {:induction false} RunIsAggregate(t: Tables, i: nat, backend: seq<string>, decode: Decoder, cfg: Config)
    requires i <= |t.table| && t.ledger.Valid()
    requires RunFrom(t, i, backend, decode, cfg).Success?
    ensures Classifications(backend, |t.table| - i, decode).Success?
    ensures RunFrom(t, i, backend, decode, cfg)
              == Aggregate(t, i, Classifications(backend, |t.table| - i, decode).value, cfg)
    decreases |t.table| - i
  {
    if i < |t.table| {
      var a := Analyze(backend, DefaultRetries, decode).value;
      var s := Step(t, i, a.data, cfg).value;
      var tail := backend[a.calls..];
      RunFromUnfold(t, i, backend, decode, cfg);
      RunIsAggregate(s, i + 1, tail, decode, cfg);
      var rest := Classifications(tail, |t.table| - i - 1, decode).value;
      var docs := Classifications(backend, |t.table| - i, decode).value;
      assert docs == [a.data] + rest;
      assert docs[0] == a.data && docs[1..] == rest;
      AggregateUnfold(t, i, docs, cfg);
    }
  }

  /** When every review is classified and the fold of the classifications
      succeeds, the interleaved loop succeeds with the same tables. */
  lemma {:induction false} AggregateIsRun(t: Tables, i: nat, backend: seq<string>, decode: Decoder, cfg: Config)
    requires i <= |t.table| && t.ledger.Valid()
    requires Classifications(backend, |t.table| - i, decode).Success?
    requires Aggregate(t, i, Classifications(backend, |t.table| - i, decode).value, cfg).Success?
    ensures RunFrom(t, i, backend, decode, cfg)
              == Aggregate(t, i, Classifications(backend, |t.table| - i, decode).value, cfg)
    decreases |t.table| - i
  {
    if i == |t.table| {
      assert Classifications(backend, 0, decode) == Success([]);
    } else {
      ClassificationsUnfold(backend, |t.table| - i, decode);
      var a := Analyze(backend, DefaultRetries, decode).value;
      var tail := backend[a.calls..];
      var rest := Classifications(tail, |t.table| - i - 1, decode).value;
      var docs := Classifications(backend, |t.table| - i, decode).value;
      assert docs[0] == a.data && docs[1..] == rest;
      assert Step(t, i, a.data, cfg).Success?;
      var s := Step(t, i, a.data, cfg).value;
      AggregateUnfold(t, i, docs, cfg);
      AggregateIsRun(s, i + 1, tail, decode, cfg);
      RunFromUnfold(t, i, backend, decode, cfg);
    }
  }

  /**
   Merit over a whole run: each ledger row of the target hotel ends at its
   merit as read (0 when the sheet had no `Merit` column) plus the number of
   positive results minus the number of negative ones; other rows keep the
   merit they were read with.
   */
  lemma RunMerit(cfg: Config, texts: seq<string>, sheet: MeritSheet, backend: seq<string>, decode: Decoder)
    requires sheet.Valid()
    requires RunWith(cfg, texts, sheet, backend, decode).Success?
    ensures Classifications(backend, |texts|, decode).Success?
    ensures RunWith(cfg, texts, sheet, backend, decode).value.ledger.hotels == sheet.hotels
    ensures |RunWith(cfg, texts, sheet, backend, decode).value.ledger.merits| == sheet.height
    ensures forall j :: 0 <= j < sheet.height ==>
              RunWith(cfg, texts, sheet, backend, decode).value.ledger.merits[j]
                == (if sheet.merits.Some? then sheet.merits.value[j] else 0)
                   + (if sheet.hotels.Some? && sheet.hotels.value[j] == cfg.target
                      then Positives(Classifications(backend, |texts|, decode).value)
                           - Negatives(Classifications(backend, |texts|, decode).value)
                      else 0)
  {
    var t := Tables(InitTable(texts), InitLedger(sheet));
    RunIsAggregate(t, 0, backend, decode, cfg);
    var docs := Classifications(backend, |texts|, decode).value;
    assert RunWith(cfg, texts, sheet, backend, decode) == Aggregate(t, 0, docs, cfg);
    AggregateMerit(t, 0, docs, cfg);
  }

  /** The source's run: rows of `Metro_Points_Hotel_Washington_North` end at
      their merit as read (0 without a `Merit` column) plus the positive
      results minus the negative ones; other rows keep their merit. */
  lemma MainRunMerit(texts: seq<string>, sheet: MeritSheet, backend: seq<string>, decode: Decoder)
    requires sheet.Valid()
    requires Run(texts, sheet, backend, decode).Success?
    ensures Classifications(backend, |texts|, decode).Success?
    ensures |Run(texts, sheet, backend, decode).value.ledger.merits| == sheet.height
    ensures forall j :: 0 <= j < sheet.height ==>
              Run(texts, sheet, backend, decode).value.ledger.merits[j]
                == (if sheet.merits.Some? then sheet.merits.value[j] else 0)
                   + (if sheet.hotels.Some? && sheet.hotels.value[j] == TargetHotel
                      then Positives(Classifications(backend, |texts|, decode).value)
                           - Negatives(Classifications(backend, |texts|, decode).value)
                      else 0)
  {
    var cfg := MainConfig;
    assert cfg.target == TargetHotel;
    assert Run(texts, sheet, backend, decode) == RunWith(cfg, texts, sheet, backend, decode);
    RunMerit(cfg, texts, sheet, backend, decode);
  }

  /**
   The output table of a run: row k is the blank row for review k (empty
   label, rating 0, no cells) recording the k-th result, so it keeps its text,
   holds the label verbatim and the rating, and has a category cell exactly for
   the configured categories that are keys of that result.
   */
  lemma RunRows(cfg: Config, texts: seq<string>, sheet: MeritSheet, backend: seq<string>, decode: Decoder)
    requires sheet.Valid()
    requires RunWith(cfg, texts, sheet, backend, decode).Success?
    ensures Classifications(backend, |texts|, decode).Success?
    ensures forall k :: 0 <= k < |texts| ==>
              Records(OutputRow(texts[k], Str(""), 0, map[]), RunWith(cfg, texts, sheet, backend, decode).value.table[k],
                      Classifications(backend, |texts|, decode).value[k], cfg.categories)
  {
    var t := Tables(InitTable(texts), InitLedger(sheet));
    RunIsAggregate(t, 0, backend, decode, cfg);
    var docs := Classifications(backend, |texts|, decode).value;
    AggregateRows(t, 0, docs, cfg);
    forall k | 0 <= k < |texts|
      ensures t.table[k] == OutputRow(texts[k], Str(""), 0, map[])
    {
      assert t.table[0 + k] == t.table[k];
    }
  }

  /**
   Re-running over the same reviews with the same replies gives the same
   output table whatever the merit sheet holds: the ledger only accumulates.
   */
  lemma RunTableIgnoresLedger(cfg: Config, texts: seq<string>, s1: MeritSheet, s2: MeritSheet, backend: seq<string>, decode: Decoder)
    requires s1.Valid() && s2.Valid()
    ensures RunWith(cfg, texts, s1, backend, decode).Success? <==> RunWith(cfg, texts, s2, backend, decode).Success?
    ensures RunWith(cfg, texts, s1, backend, decode).Success? ==>
              RunWith(cfg, texts, s1, backend, decode).value.table == RunWith(cfg, texts, s2, backend, decode).value.table
  {
    var t1 := Tables(InitTable(texts), InitLedger(s1));
    var t2 := Tables(InitTable(texts), InitLedger(s2));
    var c := Classifications(backend, |texts|, decode);
    if RunFrom(t1, 0, backend, decode, cfg).Success? {
      RunIsAggregate(t1, 0, backend, decode, cfg);
    }
    if RunFrom(t2, 0, backend, decode, cfg).Success? {
      RunIsAggregate(t2, 0, backend, decode, cfg);
    }
    if c.Success? {
      AggregateTableIgnoresLedger(InitTable(texts), InitLedger(s1), InitLedger(s2), 0, c.value, cfg);
      if Aggregate(t1, 0, c.value, cfg).Success? {
        AggregateIsRun(t1, 0, backend, decode, cfg);
        AggregateIsRun(t2, 0, backend, decode, cfg);
      }
    }
  }

  /** A one-review run whose classification succeeds is one step of the loop. */
  lemma {:induction false} SingleReview(cfg: Config, text: string, sheet: MeritSheet, backend: seq<string>, decode: Decoder)
    requires sheet.Valid()
    requires Analyze(backend, DefaultRetries, decode).Success?
    ensures RunWith(cfg, [text], sheet, backend, decode)
              == Step(Tables([OutputRow(text, Str(""), 0, map[])], InitLedger(sheet)), 0,
                      Analyze(backend, DefaultRetries, decode).value.data, cfg)
  {
    var t := Tables(InitTable([text]), InitLedger(sheet));
    assert t.table == [OutputRow(text, Str(""), 0, map[])];
    var a := Analyze(backend, DefaultRetries, decode).value;
    var s := Step(t, 0, a.data, cfg);
    if s.Success? {
      assert RunFrom(s.value, 1, backend[a.calls..], decode, cfg) == Success(s.value);
    }
  }

  /** The main configuration meets the scenarios' assumptions: Cleanliness is
      a category, and the fixed `classify` and `rating` keys are not, so they
      never become category cells. */
  lemma MainConfigCategories()
    ensures "Cleanliness" in MainConfig.categories
    ensures ClassifyKey !in MainConfig.categories && RatingKey !in MainConfig.categories
  {
  }

  /** The loop step for a positive result naming Cleanliness. */
  lemma PositiveStep(cfg: Config, row: OutputRow, l: Ledger, d: Doc)
    requires "Cleanliness" in cfg.categories && ClassifyKey !in cfg.categories && RatingKey !in cfg.categories
    requires l.Valid() && row.cells == map[]
    requires d == Object(map[ClassifyKey := Str("Positive"), RatingKey := Int(5), "Cleanliness" := Str("Positive")])
    ensures Step(Tables([row], l), 0, d, cfg)
              == Success(Tables([row.(classify := Str("Positive"), rating := 5, cells := map["Cleanliness" := Str("Positive")])],
                                AdjustMerit(l, cfg.target, 1)))
  {
    PositiveLabelDelta();
    CleanlinessCellOnly(cfg.categories, Str("Positive"), Int(5), Str("Positive"));
    var f := Fill(row, d, cfg.categories);
    assert f == row.(classify := Str("Positive"), rating := 5, cells := map["Cleanliness" := Str("Positive")]);
    assert [row][0 := f] == [f];
  }

  /**
   A positive review whose first reply decodes, under a configuration whose
   categories include Cleanliness but not the fixed keys (as the main one
   does): the row gets the label, the rating and the Cleanliness cell, and the
   target's merit goes up by one.
   */
  lemma PositiveReviewScenario(cfg: Config, sheet: MeritSheet, backend: seq<string>, decode: Decoder)
    requires "Cleanliness" in cfg.categories && ClassifyKey !in cfg.categories && RatingKey !in cfg.categories
    requires sheet.Valid()
    requires |backend| >= 1
    requires decode(backend[0]) == Some(Object(map[
               ClassifyKey := Str("Positive"), RatingKey := Int(5), "Cleanliness" := Str("Positive")]))
    ensures RunWith(cfg, ["Great stay, spotless room"], sheet, backend, decode)
              == Success(Tables([OutputRow("Great stay, spotless room", Str("Positive"), 5, map["Cleanliness" := Str("Positive")])],
                                AdjustMerit(InitLedger(sheet), cfg.target, 1)))
  {
    FirstSuccessWins(backend, DefaultRetries, decode, 0);
    SingleReview(cfg, "Great stay, spotless room", sheet, backend, decode);
    PositiveStep(cfg, OutputRow("Great stay, spotless room", Str(""), 0, map[]), InitLedger(sheet), decode(backend[0]).value);
  }

  /**
   A review none of whose three replies decodes is recorded as Neutral with
   rating 0 and no category cells, and leaves the ledger as initialised:
   merits as read, or 0 without a `Merit` column.
   */
  lemma UndecodableReviewScenario(cfg: Config, sheet: MeritSheet, backend: seq<string>, decode: Decoder)
    requires ClassifyKey !in cfg.categories && RatingKey !in cfg.categories
    requires sheet.Valid()
    requires |backend| >= 3
    requires forall j :: 0 <= j < 3 ==> decode(backend[j]).None?
    ensures RunWith(cfg, ["Terrible noise all night"], sheet, backend, decode)
              == Success(Tables([OutputRow("Terrible noise all night", Str("Neutral"), 0, map[])], InitLedger(sheet)))
  {
    AllFailGivesFallback(backend, DefaultRetries, decode);
    SingleReview(cfg, "Terrible noise all night", sheet, backend, decode);
    NeutralLabelDelta();
    NoCategoryKeysFillNothing(map[], Fallback.fields, cfg.categories);
    var row := OutputRow("Terrible noise all night", Str(""), 0, map[]);
    var l := InitLedger(sheet);
    assert Fill(row, Fallback, cfg.categories) == OutputRow("Terrible noise all night", Str("Neutral"), 0, map[]);
    assert MeritDelta(Fallback.fields[ClassifyKey].text) == 0;
    assert AdjustMerit(l, cfg.target, 0) == l;
    assert Step(Tables([row], l), 0, Fallback, cfg)
             == Success(Tables([row][0 := Fill(row, Fallback, cfg.categories)], AdjustMerit(l, cfg.target, MeritDelta(Fallback.fields[ClassifyKey].text))));
    assert [row][0 := Fill(row, Fallback, cfg.categories)] == [Fill(row, Fallback, cfg.categories)];
    assert Analyze(backend, DefaultRetries, decode).value.data == Fallback;
  }
}
