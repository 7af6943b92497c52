# Hotel review classifier: a Dafny model

`reviewClassifier.py` sends each sampled hotel review to a language model.
It parses the reply as JSON, retrying a bounded number of times, and falls back
to a neutral verdict when no reply parses. It then folds the verdicts into two
tables:

- an output table holding one row per review, with the `classify` label, the
  `rating`, and a cell for each of eleven fixed categories the verdict names;
- a merit ledger whose target-hotel rows move by +1 for each positive verdict
  and by −1 for each negative one.

This project models those two pieces and proves their contracts. The model
uses immutable datatypes and pure recursive functions.

The project has six modules:

- `Wrappers` (`wrappers.dfy`) defines `Option` and `Result`.
- `Text` (`text.dfy`) models `str.lower()` on ASCII letters and Python's
  substring test `in`. It proves that `Contains` agrees with "occurs at some
  index".
- `Schema` (`schema.dfy`) defines decoded JSON values and documents, the keys
  `classify` and `rating`, the eleven category names, and the fallback verdict.
- `Classifier` (`classifier.dfy`) models `analyze_review`. The language model
  is a stream of replies, one per call. `json.loads` is a decoder parameter of
  type `string -> Option<Doc>`. A call past the end of the stream stands for a
  model call that raises. The source does not catch that, so it is a failure.
- `Aggregation` (`aggregation.dfy`) models the body of `main`'s loop:
  - the initial `Merit` column and the blank output columns;
  - reading the verdict;
  - the merit update;
  - the category copy;
  - the fold of these steps over a sequence of verdicts.

  Python exceptions that the loop does not catch end the whole run before any
  file is written. A run therefore yields `Result<Tables, RunError>`. A
  subscript of a non-dict, a missing `classify` or `rating` key, a non-integer
  rating, or a non-string label each give a `RunError`. The `KeyError` from a
  ledger with no `Hotel` column is caught and leaves every merit unchanged.
- `Pipeline` (`pipeline.dfy`) models `main` after the files are read. It
  classifies review after review, each call reading the reply stream where the
  previous one stopped. It records each verdict before classifying the next
  review. It proves that this interleaved loop equals "classify everything,
  then fold", and from that it derives:
  - the whole-run merit and row properties;
  - two worked runs: a positive review that decodes at once, and a review
    that never decodes.

The loop's configuration is a parameter, `Config(target, categories)`.
`Pipeline.MainConfig` is the source's configuration: the target
`Metro_Points_Hotel_Washington_North` and the eleven categories. `Pipeline.Run`
is `Pipeline.RunWith` at `MainConfig`. The run-level lemmas hold for every
configuration, and `Pipeline.MainRunMerit` states the merit result for
`Pipeline.Run` itself.

A run yields the output table's review text, `classify`, `rating` and
category columns, and the ledger's `Hotel` and `Merit` columns. Other columns
of either file are not modelled.

Three behaviours of `reviewClassifier.py` are easy to miss:

- Only `json.JSONDecodeError` is retried (line 43). `analyze_review` returns
  whatever `json.loads` gives on the first successful parse (lines 41-42). A
  reply that parses to a non-dict, or to a dict without `classify` or
  `rating`, raises in `main` (lines 79-80) and aborts the run. See
  `Aggregation.Read` and `Aggregation.AggregateStopsAtFirstDefect`.
- The `except KeyError` at line 88 fires only when the ledger has no `Hotel`
  column. A ledger that has the column but no row for the target hotel is
  left unchanged, and nothing is printed. Both cases leave the ledger
  unchanged (`Aggregation.UnmatchedLedgerUnchanged`).
- `max_retries` may be any integer. A count of zero or less makes no model
  call and returns the fallback of line 48 (`Classifier.Analyze`).

## Model

| member | source | states |
|---|---|---|
| `Classifier.Analyze` | reviewClassifier.py:34-48 | With no attempts allowed, no call is made and the fallback comes back. A successful result never uses more calls than there are replies or attempts. A failure is the model call one past the end of the reply stream. |
| `Classifier.AnalyzeOutcome` | reviewClassifier.py:34-48 | Exact outcome of the retry loop. It fails exactly when the replies run out before the attempts and none of them decoded. On success, every reply before the last one consumed failed to decode. The result is either the decode of the last consumed reply, or the fallback after all attempts were used and all failed. |
| `Classifier.FirstSuccessWins` | reviewClassifier.py:34-42 | If the first k replies fail to decode, reply k decodes, and k is below the attempt count, then the result is reply k's decode, returned unchanged after exactly k+1 calls. |
| `Classifier.AllFailGivesFallback` | reviewClassifier.py:43-48 | If none of the first `max_retries` replies decodes, the result is exactly `{"classify": "Neutral", "rating": 0}` after `max_retries` calls. |
| `Classifier.RetryBound` | reviewClassifier.py:34-48 | Suppose N undecodable replies are followed by a decodable one, with M attempts. Then the decoded value comes back after N+1 calls if N < M. Otherwise the fallback comes back after M calls. |
| `Classifier.IgnoresUnconsumedReplies` | reviewClassifier.py:40-42 | The loop stops at the first success. Replies after the ones consumed cannot change the outcome. |
| `Aggregation.InitLedger` | reviewClassifier.py:66-67 | The `Merit` column is kept when present. When it is missing, every row starts at 0. The `Hotel` column and the row count are unchanged. |
| `Aggregation.InitTable` | reviewClassifier.py:70-71 | Every output row starts with its review text, an empty `classify`, rating 0 and no category cells. |
| `Aggregation.Read` | reviewClassifier.py:79-84 | Reading a verdict succeeds exactly for an object with a string `classify` and an integer `rating`. On success it yields those two values. Otherwise it raises what the loop body raises first: non-dict, missing `classify`, missing `rating`, non-integer rating, non-string label. |
| `Aggregation.AdjustMerit` | reviewClassifier.py:83-89 | Each ledger row whose hotel is the target moves by the delta. Every other row keeps its merit. Without a `Hotel` column nothing changes. |
| `Aggregation.CopyCategories` | reviewClassifier.py:92-100 | A cell exists afterwards exactly when it existed before, or its name is a listed category that is a key of the verdict. Such a cell holds the verdict's value for that key. Every other cell keeps its old value. |
| `Aggregation.Fill` | reviewClassifier.py:79-100 | The row records the verdict. The label is copied verbatim and the rating as an integer. Category cells are written only for listed categories present in the verdict. The review text is kept. |
| `Aggregation.NetCounts` | reviewClassifier.py:84-87 | A verdict changes the merit by +1 exactly when its lower-cased label contains "positive". It changes it by −1 exactly when the label contains "negative" but not "positive". Otherwise the change is 0. |
| `Aggregation.Step` | reviewClassifier.py:74-100 | One loop iteration survives exactly when the verdict is well-formed. Otherwise the run fails with the exception reading the verdict raises. The table size, the `Hotel` column and the ledger size are unchanged. |
| `Aggregation.StepEffect` | reviewClassifier.py:79-100 | One iteration changes only its own output row, which records the verdict. It moves the target hotel's ledger rows by the verdict's contribution and leaves the other rows alone. |
| `Aggregation.Aggregate` | reviewClassifier.py:74-100 | The loop over a sequence of verdicts keeps the output table's size and a valid ledger whenever it completes. Its meaning is stated by the fold lemmas below. |
| `Aggregation.AggregateSucceedsIff` | reviewClassifier.py:74-100 | A run over a sequence of verdicts succeeds if and only if every verdict is well-formed. |
| `Aggregation.AggregateStopsAtFirstDefect` | reviewClassifier.py:79-84 | A run stops at the first malformed verdict, with the error that verdict raises, whatever follows it. |
| `Aggregation.AggregateMerit` | reviewClassifier.py:74-87 | After a run, each target-hotel ledger row equals its initial merit plus the positive verdicts minus the negative ones. Other rows and the `Hotel` column are unchanged. |
| `Aggregation.UnmatchedLedgerUnchanged` | reviewClassifier.py:83-89 | A ledger with no target-hotel row, or without a `Hotel` column, ends exactly as it began. |
| `Aggregation.AggregateFrame` | reviewClassifier.py:74-79 | Output rows outside the processed range are untouched. |
| `Aggregation.AggregateRows` | reviewClassifier.py:74-100 | Every processed output row records its own verdict. |
| `Aggregation.AggregateTableIgnoresLedger` | reviewClassifier.py:74-100 | Runs over two different ledgers succeed together and produce the same output table. |
| `Aggregation.MeritDeltaIgnoresCase` | reviewClassifier.py:84-87 | Lower-casing the label first does not change the merit delta. |
| `Aggregation.PositiveLabelDelta` | reviewClassifier.py:84-85 | The label "Positive" raises the merit by one. |
| `Aggregation.NeutralLabelDelta` | reviewClassifier.py:84-87 | The label "Neutral" leaves the merit unchanged. |
| `Aggregation.NegativeLabelDelta` | reviewClassifier.py:86-87 | The label "Negative" lowers the merit by one. |
| `Aggregation.MixedLabelDelta` | reviewClassifier.py:84-87 | A label containing both "positive" and "negative" counts as positive, because the positive test comes first. |
| `Text.Lower` | reviewClassifier.py:84 | Lower-casing keeps the length and maps each character independently. Only `A`-`Z` change. |
| `Text.LowerIdempotent` | reviewClassifier.py:84 | Lower-casing twice is the same as once. |
| `Text.ContainsIffOccurs` | reviewClassifier.py:84-86 | The substring test holds exactly when the needle occurs at some index of the text. |
| `Pipeline.Classifications` | reviewClassifier.py:74-76 | Classifying n reviews in turn yields exactly n verdicts when no model call fails. |
| `Pipeline.RunFrom` | reviewClassifier.py:74-100 | The loop keeps the table size and a valid ledger whenever it completes. |
| `Pipeline.RunWith` | reviewClassifier.py:66-100 | `main` after the reads, for a given configuration. A completed run has one output row per review and a valid ledger. |
| `Pipeline.Run` | reviewClassifier.py:66-100 | `main` after the reads, with the source's target hotel and categories. A completed run has one output row per review and a valid ledger. |
| `Pipeline.RunIsAggregate` | reviewClassifier.py:74-100 | A completed run classified every review. Its tables are the fold of those verdicts, so classifying and recording in turn is the same as classifying first and recording afterwards. |
| `Pipeline.AggregateIsRun` | reviewClassifier.py:74-100 | Conversely, if every review classifies and the fold succeeds, then the interleaved loop succeeds with the same tables. |
| `Pipeline.RunMerit` | reviewClassifier.py:66-87 | After a whole run, a target-hotel row holds its merit as read, or 0 when the column was missing, plus the positive verdicts minus the negative ones. Every other row holds its merit as read. |
| `Pipeline.MainRunMerit` | reviewClassifier.py:66-87 | For the source's own run, each `Metro_Points_Hotel_Washington_North` row holds its merit as read, or 0 when the column was missing, plus the positive verdicts minus the negative ones. Every other row holds its merit as read. |
| `Pipeline.RunRows` | reviewClassifier.py:70-100 | Row k of the output table is the blank row for review k, recording the k-th verdict. |
| `Pipeline.RunTableIgnoresLedger` | reviewClassifier.py:66-100 | Re-running the same reviews against the same replies gives the same output table whatever the merit sheet holds. Only the ledger accumulates. |
| `Pipeline.SingleReview` | reviewClassifier.py:74-100 | A one-review run whose classification succeeds is exactly one loop step. |
| `Pipeline.MainConfigCategories` | reviewClassifier.py:92-96 | The source's category list contains "Cleanliness" and contains neither `classify` nor `rating`. |
| `Aggregation.NoCategoryKeysFillNothing` | reviewClassifier.py:98-100 | A verdict none of whose keys is a category writes no category cell. |
| `Aggregation.CleanlinessCellOnly` | reviewClassifier.py:98-100 | From a verdict with `classify`, `rating` and `Cleanliness`, only the Cleanliness cell is copied. |
| `Pipeline.PositiveStep` | reviewClassifier.py:79-100 | A positive verdict with rating 5 and a Cleanliness verdict fills the row with those values and raises the target's merit by one. |
| `Pipeline.PositiveReviewScenario` | reviewClassifier.py:34-100 | "Great stay, spotless room" decodes at once as Positive, rating 5, Cleanliness Positive. The row has exactly those values and the target's merit goes up by one. |
| `Pipeline.UndecodableReviewScenario` | reviewClassifier.py:43-100 | "Terrible noise all night" never decodes in three attempts. The row is Neutral with rating 0 and no category cells. The ledger stays as initialised: merits as read, or 0 without a `Merit` column. |

## Left out

- The language-model client, the prompt text, environment loading, `print`
  and `time.sleep` (lines 1-13, 16-32, 36-38, 44-45, 89). They are I/O and a
  foreign network call. The model call is a reply stream instead, and a call
  past its end is a call that raises.
- The JSON grammar of `json.loads` (line 41). It is a decoder parameter. A
  decoded value is a string, an integer, or some other value held opaquely.
- `Classifier.Analyze`: the decoder either parses a reply or fails with
  `json.JSONDecodeError`, which line 43 catches and retries. `json.loads` can
  also raise other exceptions. Examples are `RecursionError` on deeply nested
  arrays and `ValueError` on an integer literal beyond Python's digit limit.
  Line 43 does not catch these, so they would end the run with no file
  written. The model has no such outcome: every reply is either retried or
  returned.
- Reading the CSV files, sampling 20 rows, the read-error handlers and writing
  the results (lines 51-63, 103-104). These are file I/O. The run takes the
  sampled review texts and the merit sheet as read. It returns the modelled
  columns of the two tables it would write. A failed run writes nothing,
  which is why it has no tables.
- The other columns of the review file (line 53). `df` keeps them and writes
  them back unchanged. `Aggregation.OutputRow` keeps only the review text.
- `Aggregation.InitTable`: every row starts with no category cells. A review
  file that already has a column named like a category (say `Location`) keeps
  that column's value on rows whose verdict lacks the key. The model, and so
  `Pipeline.RunRows`, shows no cell there. The model covers only review files
  without such columns.
- `Aggregation.AdjustMerit`: merits are unbounded integers, and
  `Aggregation.MeritSheet` accepts merits that an int64 column could not
  hold. The pandas `Merit` column is int64, both when read and when created
  by `= 0` at line 67. The `+= 1` and `-= 1` at lines 85 and 87 wrap
  silently at the int64 bounds, which is arithmetic modulo 2^64. So a
  target row's final pandas merit differs from the model's exactly when its
  merit as read plus the positive verdicts minus the negative ones leaves
  [−2^63, 2^63). Pandas then holds that sum reduced modulo 2^64 into the
  range. A single positive verdict on a row read as 2^63 − 1 is enough.
  `Aggregation.AggregateMerit`, `Pipeline.RunMerit` and
  `Pipeline.MainRunMerit` state the exact, unwrapped sum.
- `Aggregation.CopyCategories` keeps every category value exactly as
  decoded, as do `Aggregation.Fill`, `Aggregation.StepEffect`,
  `Aggregation.AggregateRows` and `Pipeline.RunRows`, which build on it. At
  line 100 pandas stores a value through `df.at`. The first write to a
  category column creates it by enlargement, and pandas may store a
  non-string value differently or raise. Examples: a JSON integer becomes a
  float (`3.0`), a one-element array is stored as its element, and an array
  of any other length raises `ValueError`, which ends the run. The model
  covers category values that are strings, which is the form the classifier
  is asked for.
- `Aggregation.Fill`: the rating is an unbounded integer. The pandas `rating`
  column (line 71) is int64, and a JSON rating outside that range would not
  be stored as the same number.
- A `reviews_text` column missing from the review file (line 75). This is
  part of the file format. The texts arrive as a sequence.
- `int()` coercion of ratings that are strings, floats or booleans (line 80).
  Only a JSON integer counts as a rating. Any other rating value aborts the
  run (`RatingNotInt`). Python would convert some of these values instead.
- `NaN` entries in the `Merit` column, and pandas type promotion. Merits are
  integers.
- `Text.Lower` maps only `A`-`Z`, while Python's `str.lower()` also lowers
  non-ASCII letters. This never changes a merit. The only non-ASCII
  characters whose Python lowercase contains ASCII letters are U+0130,
  which lowers to "i" followed by U+0307, and the Kelvin sign, which lowers
  to "k". Neither can complete "positive" or "negative", so both tests at
  lines 84 and 86 give Python's answer on every label. The lower-cased
  label itself is not stored.
- Pandas index labels. Rows are addressed by position in the sample, and
  `df.at[index, …]` writes the row that `iterrows` is visiting.
- `Aggregation.MeritDelta`: it has no contract of its own. Its meaning is
  stated by `Aggregation.NetCounts` and the label lemmas.
- `Pipeline.PositiveReviewScenario` and `Pipeline.UndecodableReviewScenario`:
  these are stated for any configuration whose categories leave out
  `classify` and `rating`. The first also needs "Cleanliness" among the
  categories. `Pipeline.MainConfigCategories` shows that the source's
  configuration meets both conditions.
