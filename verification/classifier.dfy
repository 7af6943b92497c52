/**
 `analyze_review`: ask the language model up to `max_retries` times and return
 the first reply that decodes as JSON, or a neutral default when none does.

 The model is a stream of raw replies, one per call; a call made after the
 stream has run out stands for a model call that raises, which the source
 does not catch. `json.loads` is an arbitrary partial decoder.
 */
module Classifier {
  import opened Wrappers
  import opened Schema

  /** The retry budget `main` passes (the parameter's default). */
  const DefaultRetries: int := 3

  /** Partial decoding of a raw reply (`json.loads`); None is a `JSONDecodeError`. */
  type Decoder = string -> Option<Doc>

  /** The returned document and how many replies were consumed to get it. */
  datatype Analysis = Analysis(data: Doc, calls: nat)

  /** The model call with this 1-based number raised. */
  datatype BackendError = BackendError(call: nat)

  /** Number of iterations of `for attempt in range(retries)`. */
  function Budget(retries: int): nat
  {
    if retries < 0 then 0 else retries
  }

  /** None of the first n replies (those that exist) decodes. */
  ghost predicate FailsBefore(replies: seq<string>, n: int, decode: Decoder)
  {
    forall j :: 0 <= j < n && j < |replies| ==> decode(replies[j]).None?
  }

  /** Reply k is the first one that decodes. */
  ghost predicate FirstDecodable(replies: seq<string>, k: nat, decode: Decoder)
  {
    k < |replies| && decode(replies[k]).Some? && FailsBefore(replies, k, decode)
  }

  /**
   One call of `analyze_review(review, retries)` against the reply stream:
   no call at all without a budget, never more calls than the budget or the
   stream allows, and a model error only on the call just past the stream.
   */
  function Analyze(replies: seq<string>, retries: int, decode: Decoder): (r: Result<Analysis, BackendError>)
    ensures retries <= 0 ==> r == Success(Analysis(Fallback, 0))
    ensures r.Success? ==> r.value.calls <= |replies| && r.value.calls <= Budget(retries)
    ensures r.Failure? ==> r.error.call == |replies| + 1
    decreases |replies|
  {
    if retries <= 0 then Success(Analysis(Fallback, 0))
    else if replies == [] then Failure(BackendError(1))
    else match decode(replies[0])
      case Some(d) => Success(Analysis(d, 1))
      case None =>
        match Analyze(replies[1..], retries - 1, decode)
        case Success(a) => Success(a.(calls := a.calls + 1))
        case Failure(e) => Failure(BackendError(e.call + 1))
  }

  /**
   The outcome of `analyze_review`, exactly: a model error exactly when the
   stream ends inside the budget with nothing decoded; otherwise every reply
   before the last consumed one failed to decode, and either that last reply
   decoded and is returned unchanged, or none did, the whole budget was spent
   and the fallback is returned.
   */
  lemma {:induction false} AnalyzeOutcome(replies: seq<string>, retries: int, decode: Decoder)
    ensures var r := Analyze(replies, retries, decode);
      && (r.Failure? <==> |replies| < retries && FailsBefore(replies, |replies|, decode))
      && (r.Success? ==> FailsBefore(replies, r.value.calls - 1, decode))
      && (r.Success? && 0 < r.value.calls && decode(replies[r.value.calls - 1]).Some? ==>
            r.value.data == decode(replies[r.value.calls - 1]).value)
      && (r.Success? && !(0 < r.value.calls && decode(replies[r.value.calls - 1]).Some?) ==>
            r.value.data == Fallback && r.value.calls == Budget(retries) && FailsBefore(replies, r.value.calls, decode))
    decreases |replies|
  {
    if retries > 0 && replies != [] && decode(replies[0]).None? {
      AnalyzeOutcome(replies[1..], retries - 1, decode);
      assert forall j :: 1 <= j < |replies| ==> replies[j] == replies[1..][j - 1];
    }
  }

  /** The first decodable reply within the budget is returned unchanged,
      after exactly one call per reply up to and including it. */
  lemma {:induction false} FirstSuccessWins(replies: seq<string>, retries: int, decode: Decoder, k: nat)
    requires FirstDecodable(replies, k, decode)
    requires k < retries
    ensures Analyze(replies, retries, decode) == Success(Analysis(decode(replies[k]).value, k + 1))
  {
    AnalyzeOutcome(replies, retries, decode);
    var r := Analyze(replies, retries, decode);
    assert r.Success?;
    var c := r.value.calls;
    if 0 < c && decode(replies[c - 1]).Some? {
      assert c - 1 == k;
    }
  }

  /** When none of the budgeted replies decodes, the fallback comes back after
      the whole budget; with no budget, no call is made at all. */
  lemma {:induction false} AllFailGivesFallback(replies: seq<string>, retries: int, decode: Decoder)
    requires Budget(retries) <= |replies|
    requires FailsBefore(replies, retries, decode)
    ensures Analyze(replies, retries, decode) == Success(Analysis(Fallback, Budget(retries)))
  {
    AnalyzeOutcome(replies, retries, decode);
    var r := Analyze(replies, retries, decode);
    assert r.Success?;
  }

  /**
   N undecodable replies followed by a decodable one: with budget M the
   classifier returns that reply when N < M and the fallback otherwise,
   using min(N + 1, M) calls.
   */
  lemma {:induction false} RetryBound(replies: seq<string>, n: nat, m: nat, decode: Decoder)
    requires n < |replies| && decode(replies[n]).Some?
    requires FailsBefore(replies, n, decode)
    ensures n < m ==> Analyze(replies, m, decode) == Success(Analysis(decode(replies[n]).value, n + 1))
    ensures m <= n ==> Analyze(replies, m, decode) == Success(Analysis(Fallback, m))
  {
    if n < m {
      FirstSuccessWins(replies, m, decode, n);
    } else {
      AllFailGivesFallback(replies, m, decode);
    }
  }

  /** Replies after the last consumed one are never looked at: any stream that
      agrees on the consumed prefix gives the same outcome. */
  lemma {:induction false} IgnoresUnconsumedReplies(replies: seq<string>, other: seq<string>, retries: int, decode: Decoder)
    requires Analyze(replies, retries, decode).Success?
    requires Analyze(replies, retries, decode).value.calls <= |other|
    requires other[..Analyze(replies, retries, decode).value.calls] == replies[..Analyze(replies, retries, decode).value.calls]
    ensures Analyze(other, retries, decode) == Analyze(replies, retries, decode)
    decreases |replies|
  {
    var a := Analyze(replies, retries, decode).value;
    if retries > 0 {
      assert replies != [] && 1 <= a.calls;
      assert replies[0] == replies[..a.calls][0] == other[0];
      if decode(replies[0]).None? {
        var b := Analyze(replies[1..], retries - 1, decode).value;
        assert a == b.(calls := b.calls + 1);
        assert replies[1..][..b.calls] == replies[..a.calls][1..];
        assert other[1..][..b.calls] == other[..a.calls][1..];
        IgnoresUnconsumedReplies(replies[1..], other[1..], retries - 1, decode);
      }
    }
  }
}
