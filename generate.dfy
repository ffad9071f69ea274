/** `generate_questions_v1` (utils/gemini_client.py): clamp the wanted
    number of questions to 1..10, answer from the fallback pool when no API
    key is configured, and otherwise repair the generated list and top it up
    to the count. The text-generation call is an input: `generated` is the
    list `list(data.get("questions", []))` of the values it produced, or
    `None` when the call, the parsing of its answer or that list raised.
    Reading those values can raise outside the `try`; the call then fails
    with the exception (`Err`) and the route answers 500. */
module Generate {
  import opened Wrappers
  import opened Questions
  import opened TopUp
  import Json

  /** `max(1, min(10, int(desired_count or 10)))`: a missing or zero count
      means ten. */
  function EffectiveCount(desired: Option<int>): (count: int)
    ensures 1 <= count <= 10
    ensures desired.None? || desired == Some(0) ==> count == 10
    ensures desired.Some? && 1 <= desired.value <= 10 ==> count == desired.value
    ensures desired.Some? && desired.value < 0 ==> count == 1
    ensures desired.Some? && desired.value > 10 ==> count == 10
  {
    var d := if desired.None? || desired.value == 0 then 10 else desired.value;
    Max(1, Min(10, d))
  }

  /** The questions returned with a key: the first `count` repaired
      questions, then as many unused fallback-pool questions as are
      missing. */
  function KeyedQuestions(repaired: seq<Question>, count: int): (qs: seq<Question>)
    requires 1 <= count <= 12
    ensures |qs| == count
  {
    PoolTitlesDistinct();
    KeyedFrom(FallbackPool(), repaired, count)
  }

  /** The same over any pool of questions with distinct titles. */
  function KeyedFrom(pool: seq<Question>, repaired: seq<Question>, count: nat): (qs: seq<Question>)
    requires DistinctTitles(pool) && count <= |pool|
    ensures |qs| == count
  {
    var m := Min(|repaired|, count);
    PoolSuffices(pool, repaired, count);
    repaired[..m] + Fresh(pool, TitlesOf(repaired), 0)[..count - m]
  }

  /** The question list returned under "questions", or the exception that
      ended the call. */
  method GenerateQuestionsV1(desired: Option<int>, apiKey: string, generated: Option<seq<Json.Value>>)
    returns (r: Result<seq<Question>, string>)
    // without a key: the first `count` pool questions, in pool order
    ensures apiKey == "" ==> r == Ok(FallbackPool()[..EffectiveCount(desired)])
    // with a key the call fails exactly when a generated record cannot be read
    ensures apiKey != "" ==> (r.Err? <==> ReadRecords(generated.GetOr([])).Err?)
    ensures apiKey != "" && r.Err? ==> r.error == ReadRecords(generated.GetOr([])).error
    // otherwise: exactly `count` questions, the repaired ones first, then unused pool questions
    ensures r.Ok? ==> |r.value| == EffectiveCount(desired)
    ensures apiKey != "" && r.Ok? ==>
      r.value == KeyedQuestions(Normalized(ReadRecords(generated.GetOr([])).value), EffectiveCount(desired))
  {
    var count := EffectiveCount(desired);
    if apiKey == "" {
      return Ok(FallbackPool()[..count]);
    }
    r := RepairAndTopUp(generated.GetOr([]), count);
  }

  /** The path with a key, after the generation call: repair the records,
      top them up when there are too few, and keep the first `count`. */
  method RepairAndTopUp(raw: seq<Json.Value>, count: int) returns (r: Result<seq<Question>, string>)
    requires 1 <= count <= 10
    ensures ReadRecords(raw).Err? ==> r == Err(ReadRecords(raw).error)
    ensures ReadRecords(raw).Ok? ==> r == Ok(KeyedQuestions(Normalized(ReadRecords(raw).value), count))
  {
    var normalized := NormalizeQs(raw);
    if normalized.Err? {
      return Err(normalized.error);
    }
    var qs := TopUpAndCut(normalized.value, count);
    return Ok(qs);
  }

  /** The repaired questions topped up only when there are too few, then
      cut to `count`. */
  method TopUpAndCut(repaired: seq<Question>, count: int) returns (qs: seq<Question>)
    requires 1 <= count <= 10
    ensures qs == KeyedQuestions(repaired, count)
  {
    ghost var offered := Fresh(FallbackPool(), TitlesOf(repaired), 0);
    var all := repaired;
    if |all| < count {
      all := TopUpToCount(all, count);
    }
    qs := all[..count];
    KeyedResult(repaired, offered, all, count);
  }

  /** The list kept under a key, over plain sequences: the repaired
      questions, topped up only when there are too few, then cut to
      `count`. */
  lemma KeyedResult(repaired: seq<Question>, offered: seq<Question>, all: seq<Question>, count: int)
    requires 1 <= count
    requires |repaired| < count ==>
      Max(0, count - |repaired|) <= |offered| && all == repaired + offered[..Max(0, count - |repaired|)]
    requires |repaired| >= count ==> all == repaired
    ensures count <= |all|
    ensures var m := Min(|repaired|, count);
      count - m <= |offered| && all[..count] == repaired[..m] + offered[..count - m]
  {
    if |repaired| < count {
      assert all[..count] == all;
      assert repaired[..|repaired|] == repaired;
    } else {
      assert offered[..0] == [];
    }
  }

  /** What a keyed call returns: the repaired questions come first and
      are cut only when there are more than `count`; every question added
      after them is a pool question whose title none of the repaired
      questions carries, and no two added questions share a title. */
  lemma KeyedFromShape(pool: seq<Question>, repaired: seq<Question>, count: nat)
    requires DistinctTitles(pool) && count <= |pool|
    ensures var qs := KeyedFrom(pool, repaired, count);
      var m := Min(|repaired|, count);
      && qs[..m] == repaired[..m]
      && (forall j :: m <= j < count ==> qs[j].title !in TitlesOf(repaired))
      && (forall j :: m <= j < count ==> qs[j] in pool)
      && (forall j, j' :: m <= j < j' < count ==> qs[j].title != qs[j'].title)
  {
    var m, used := Min(|repaired|, count), TitlesOf(repaired);
    var offered := Fresh(pool, used, 0);
    PoolSuffices(pool, repaired, count);
    FreshDistinct(pool, used, 0);
    FreshFromPool(pool, used, 0);
    assert pool[0..] == pool;
    CutAndAppend(repaired, offered, m, count - m, KeyedFrom(pool, repaired, count), used, pool);
  }

  /** A cut list followed by a prefix of distinct, unused questions drawn
      from `pool`, over plain sequences. */
  lemma CutAndAppend(repaired: seq<Question>, offered: seq<Question>, m: nat, n: nat,
                     qs: seq<Question>, used: set<string>, pool: seq<Question>)
    requires m <= |repaired| && n <= |offered| && qs == repaired[..m] + offered[..n]
    requires DistinctTitles(offered)
    requires forall j :: 0 <= j < |offered| ==> offered[j].title !in used
    requires forall q :: q in offered ==> q in pool
    ensures |qs| == m + n && qs[..m] == repaired[..m]
    ensures forall j :: m <= j < |qs| ==> qs[j].title !in used && qs[j] in pool
    ensures forall j, j' :: m <= j < j' < |qs| ==> qs[j].title != qs[j'].title
  {
    assert forall j :: m <= j < |qs| ==> qs[j] == offered[j - m];
  }

  /** A failed generation call still yields `count` questions: the first
      `count` pool questions, exactly as without a key. */
  lemma FailedGenerationUsesPool(count: int)
    requires 1 <= count <= 10
    ensures Fresh(FallbackPool(), TitlesOf([]), 0)[..count] == FallbackPool()[..count]
  {
    FreshAll(0);
  }

  /** With nothing used, the pool offers all of itself. */
  lemma {:induction false} FreshAll(k: nat)
    requires k <= 12
    ensures Fresh(FallbackPool(), {}, k) == FallbackPool()[k..]
    decreases 12 - k
  {
    if k < 12 {
      FreshAll(k + 1);
      assert FallbackPool()[k..] == [FallbackPool()[k]] + FallbackPool()[k + 1..];
    }
  }
}
