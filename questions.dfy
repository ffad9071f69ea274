/** The question records of the quiz (utils/gemini_client.py): the
    five-step answer scale, the fixed pool of twelve fallback questions, and
    the repair of generated question records into well-formed questions. */
module Questions {
  import opened Wrappers
  import opened Text
  import opened Markers
  import Json

  /** A well-formed question as the quiz page receives it. */
  datatype Question = Question(id: string, title: string, traitId: string, options: seq<string>)

  /** A generated record before repair. `None` stands for a missing or
      null field; `options` is empty when the record has none. */
  datatype RawQuestion = RawQuestion(
    id: Option<string>, title: Option<string>, traitId: Option<string>, options: seq<Option<string>>)

  /** `LIKERT5`: the five answer texts, from disagree to agree. */
  const Likert5: seq<string> := [
    "全くそう思わない",
    "どちらかといえばそう思わない",
    "どちらとも言えない",
    "どちらかといえばそう思う",
    "そう思う"
  ]

  /** The text a missing option is padded with, the scale's middle. */
  const NeutralOption: string := "どちらとも言えない"

  /** `TRAIT_ORDER`. */
  const TraitOrder: seq<string> := ["energy", "imagination", "decision", "order"]

  // ---- The fallback pool

  /** The twelve pool questions as (title, trait) pairs, in the order they
      are added. */
  const PoolEntries: seq<(string, string)> := [
    ("初対面が多いイベントに誘われたら、どう感じますか？", "energy"),
    ("雑談が続く集まりに参加するのは好きですか？", "energy"),
    ("休み時間や休憩中は、人と話すほうですか？", "energy"),
    ("新しいアイデアを考えるとき、現実性より発想の面白さを優先しますか？", "imagination"),
    ("企画のブレストでは、飛躍した案も歓迎しますか？", "imagination"),
    ("説明書よりも、直感的に触って覚えるほうですか？", "imagination"),
    ("人の相談に乗るとき、気持ちより解決策を重視しますか？", "decision"),
    ("判断に迷ったら、データや客観性を優先しますか？", "decision"),
    ("議論では、筋道が通っていることを最重視しますか？", "decision"),
    ("旅行の計画は、綿密に立てるほうですか？", "order"),
    ("締め切りのあるタスク、早めに終わらせるほうですか？", "order"),
    ("予定変更より、事前の計画どおり進めるほうが安心ですか？", "order")
  ]

  /** The title of the k-th pool question. */
  function PoolTitle(k: nat): string
    requires k < 12
  {
    PoolEntries[k].0
  }

  /** `f"q{len(F)+1}"` for the pool question at 0-based position `k`. */
  function PoolId(k: nat): string {
    "q" + NatToString(k + 1)
  }

  /** The ids the pool questions get, written out. */
  const PoolIds: seq<string> := ["q1", "q2", "q3", "q4", "q5", "q6", "q7", "q8", "q9", "q10", "q11", "q12"]

  /** The written-out ids are the numbered ones. */
  lemma PoolIdsNumbered(k: nat)
    requires k < 12
    ensures PoolIds[k] == PoolId(k)
  {
    assert NatToString(k + 1) == PoolIds[k][1..];
  }

  /** The k-th pool question, as the `add` helper of `_fallback_pool`
      builds it: its id is "q" followed by its 1-based position, and its
      options are the LIKERT5 texts. */
  function PoolQuestion(k: nat): (q: Question)
    requires k < 12
    ensures q.title == PoolTitle(k)
    ensures q.traitId == TraitOrder[k / 3]
    ensures q.options == Likert5
  {
    Question(PoolIds[k], PoolEntries[k].0, PoolEntries[k].1, Likert5)
  }

  /** `_fallback_pool()`. */
  function FallbackPool(): (pool: seq<Question>)
    ensures |pool| == 12
    ensures forall k :: 0 <= k < 12 ==> pool[k] == PoolQuestion(k)
  {
    seq(12, k requires 0 <= k < 12 => PoolQuestion(k))
  }

  /** Pool question k carries id "q" followed by k + 1. */
  lemma PoolQuestionId(k: nat)
    requires k < 12
    ensures FallbackPool()[k].id == PoolId(k)
  {
    PoolIdsNumbered(k);
  }

  /** No two questions of `qs` share a title. */
  predicate DistinctTitles(qs: seq<Question>) {
    forall j, k :: 0 <= j < k < |qs| ==> qs[j].title != qs[k].title
  }

  /** The position in the pool of the title that starts with `c`. */
  function PoolIndexOf(c: char): int {
    if c == '初' then 0 else if c == '雑' then 1 else if c == '休' then 2
    else if c == '新' then 3 else if c == '企' then 4 else if c == '説' then 5
    else if c == '人' then 6 else if c == '判' then 7 else if c == '議' then 8
    else if c == '旅' then 9 else if c == '締' then 10 else if c == '予' then 11
    else -1
  }

  /** The pool titles start with twelve different characters, so no two
      pool questions share a title. */
  lemma PoolTitlesDistinct()
    ensures DistinctTitles(FallbackPool())
  {
    var pool := FallbackPool();
    assert forall k :: 0 <= k < 12 ==> PoolIndexOf(pool[k].title[0]) == k;
    forall j, k | 0 <= j < k < 12
      ensures pool[j].title != pool[k].title
    {
      assert PoolIndexOf(pool[j].title[0]) != PoolIndexOf(pool[k].title[0]);
    }
  }

  /** No two pool questions share an id either. */
  lemma {:induction false} PoolIdsDistinct(j: nat, k: nat)
    requires j < 12 && k < 12 && j != k
    ensures FallbackPool()[j].id != FallbackPool()[k].id
  {
    PoolQuestionId(j);
    PoolQuestionId(k);
    var pool := FallbackPool();
    if pool[j].id == pool[k].id {
      assert NatToString(j + 1) == PoolId(j)[1..] == PoolId(k)[1..] == NatToString(k + 1);
      NatToStringInjective(j + 1, k + 1);
    }
  }

  /** Three pool questions per trait, in trait order. */
  lemma PoolTraitCounts(t: nat)
    requires t < 4
    ensures forall k :: 0 <= k < 12 ==> (FallbackPool()[k].traitId == TraitOrder[t] <==> 3 * t <= k < 3 * t + 3)
  {
    assert forall i, j :: 0 <= i < j < 4 ==> TraitOrder[i] != TraitOrder[j];
  }

  // ---- Repairing generated records

  function Min(a: int, b: int): int { if a <= b then a else b }

  /** The options of a repaired question: the first five given options with
      markers stripped (a null option counting as empty text), padded with
      the neutral option up to five. */
  function RepairedOptions(raw: seq<Option<string>>): (opts: seq<string>)
    ensures |opts| == 5
    ensures forall k :: 0 <= k < Min(5, |raw|) ==> opts[k] == StripMarkers(raw[k].GetOr(""))
    ensures forall k :: Min(5, |raw|) <= k < 5 ==> opts[k] == NeutralOption
  {
    var n := Min(5, |raw|);
    seq(5, k requires 0 <= k < 5 => if k < n then StripMarkers(raw[k].GetOr("")) else NeutralOption)
  }

  /** One record at 1-based position `i` of the generated list: dropped when
      its trimmed trait id is not one of the four, otherwise repaired. */
  function RepairOne(q: RawQuestion, i: nat): (r: Option<Question>)
    ensures r.Some? <==> Trim(q.traitId.GetOr("")) in TraitOrder
    ensures r.Some? ==> r.value.traitId == Trim(q.traitId.GetOr(""))
    ensures r.Some? ==> r.value.options == RepairedOptions(q.options)
    ensures r.Some? && StripMarkers(q.title.GetOr("")) != "" ==> r.value.title == StripMarkers(q.title.GetOr(""))
    ensures r.Some? && StripMarkers(q.title.GetOr("")) == "" ==> r.value.title == "質問 " + NatToString(i)
    ensures r.Some? && q.id.Some? && q.id.value != "" ==> r.value.id == q.id.value
    ensures r.Some? && (q.id.None? || q.id.value == "") ==> r.value.id == "q" + NatToString(i)
  {
    var title := StripMarkers(q.title.GetOr(""));
    var traitName := Trim(q.traitId.GetOr(""));
    if traitName !in TraitOrder then None
    else
      Some(Question(
        if q.id.None? || q.id.value == "" then "q" + NatToString(i) else q.id.value,
        if title == "" then "質問 " + NatToString(i) else title,
        traitName,
        RepairedOptions(q.options)))
  }

  /** What `_normalize_qs` returns: the repaired records in their original
      order, each numbered by its position in the input. Every question has
      one of the four trait ids and five options, and none is added. */
  function Normalized(qs: seq<RawQuestion>): (out: seq<Question>)
    ensures |out| <= |qs|
    ensures forall k :: 0 <= k < |out| ==> out[k].traitId in TraitOrder && |out[k].options| == 5
  {
    if qs == [] then []
    else
      var init := Normalized(qs[..|qs| - 1]);
      match RepairOne(qs[|qs| - 1], |qs|)
      case None => init
      case Some(q) => init + [q]
  }

  /** When every record has a valid trait, nothing is dropped, and the k-th
      question is the repair of the k-th record. */
  lemma {:induction false} NormalizedKeepsValid(qs: seq<RawQuestion>)
    requires forall k :: 0 <= k < |qs| ==> Trim(qs[k].traitId.GetOr("")) in TraitOrder
    ensures |Normalized(qs)| == |qs|
    ensures forall k :: 0 <= k < |qs| ==> Some(Normalized(qs)[k]) == RepairOne(qs[k], k + 1)
  {
    if qs != [] {
      var init := qs[..|qs| - 1];
      NormalizedKeepsValid(init);
      var r := RepairOne(qs[|qs| - 1], |qs|);
      assert r.Some?;
      RepairsExtend(RepairOne, Normalized(init), init, qs, Normalized(qs), r.value);
    }
  }

  /** The induction step of NormalizedKeepsValid, for any repair `f`. */
  lemma RepairsExtend<X, Y>(f: (X, nat) -> Option<Y>, prev: seq<Y>, init: seq<X>, xs: seq<X>, out: seq<Y>, y: Y)
    requires |prev| == |init| && |xs| == |init| + 1 && init == xs[..|init|]
    requires forall k :: 0 <= k < |init| ==> Some(prev[k]) == f(init[k], k + 1)
    requires Some(y) == f(xs[|init|], |xs|)
    requires out == prev + [y]
    ensures |out| == |xs|
    ensures forall k :: 0 <= k < |xs| ==> Some(out[k]) == f(xs[k], k + 1)
  {
    forall k | 0 <= k < |xs|
      ensures Some(out[k]) == f(xs[k], k + 1)
    {
      if k < |init| {
        assert out[k] == prev[k];
        assert xs[k] == init[k];
      }
    }
  }

  /** A record with an invalid trait leaves the result as it was. */
  lemma NormalizedDropsInvalid(qs: seq<RawQuestion>, q: RawQuestion)
    requires Trim(q.traitId.GetOr("")) !in TraitOrder
    ensures Normalized(qs + [q]) == Normalized(qs)
  {
    assert (qs + [q])[..|qs|] == qs;
  }

  /** The options list of `_normalize_qs`: the first five options with
      markers stripped, then a loop that pads with the neutral option. */
  method RepairOptions(raw: seq<Option<string>>) returns (opts: seq<string>)
    ensures opts == RepairedOptions(raw)
  {
    var n := Min(5, |raw|);
    opts := seq(n, k requires 0 <= k < n => StripMarkers(raw[k].GetOr("")));
    while |opts| < 5
      invariant n <= |opts| <= 5
      invariant forall k :: 0 <= k < n ==> opts[k] == StripMarkers(raw[k].GetOr(""))
      invariant forall k :: n <= k < |opts| ==> opts[k] == NeutralOption
      decreases 5 - |opts|
    {
      opts := opts + [NeutralOption];
    }
  }

  // ---- Reading generated records
  //
  // The generated records are whatever the model's JSON held. The loop of
  // `_normalize_qs` reads each one with `q.get(...)`, `_strip_markers`,
  // `.strip()` and `list(...)`, which raise on values of the wrong type;
  // the call sits outside the `try` of `generate_questions_v1`, so the
  // exception ends the request (the error handler answers 500 with the
  // exception's class name).

  const AttributeError: string := "AttributeError"
  const TypeError: string := "TypeError"

  /** The text a field contributes when reading it does not raise. */
  function TextOf(v: Json.Value): string {
    if v.Str? then v.s else ""
  }

  /** `x or ""` handed to `_strip_markers` or `.strip()`: a falsy value is
      missing, a string is itself, and any other value raises `err`. */
  function TextField(v: Json.Value, err: string): (r: Result<Option<string>, string>)
    ensures r.Err? <==> Json.Truthy(v) && !v.Str?
    ensures r.Err? ==> r.error == err
    ensures r.Ok? ==> r.value.GetOr("") == TextOf(v)
  {
    if !Json.Truthy(v) then Ok(None)
    else if v.Str? then Ok(Some(v.s))
    else Err(err)
  }

  /** `list(s)` for a string: its characters, each a one-character string. */
  function CharValues(s: string): (r: seq<Json.Value>)
    ensures |r| == |s| && forall k :: 0 <= k < |s| ==> r[k] == Json.Str([s[k]])
  {
    if s == [] then [] else [Json.Str([s[0]])] + CharValues(s[1..])
  }

  /** `list(q.get("options") or [])`: a list is itself, a string its
      characters, a falsy value no options; a number, `True` or a
      timestamp raises `TypeError`. */
  function OptionValues(v: Json.Value): (r: Result<seq<Json.Value>, string>)
    ensures r.Err? <==> Json.Truthy(v) && (v.Bool? || v.Int? || v.Real? || v.Time?)
    ensures r.Err? ==> r.error == TypeError
    ensures v.List? ==> r == Ok(v.items)
    ensures v.Str? ==> r.Ok? && |r.value| == |v.s| && forall k :: 0 <= k < |v.s| ==> r.value[k] == Json.Str([v.s[k]])
  {
    match v
    case List(xs) => Ok(xs)
    case Str(s) => Ok(CharValues(s))
    case Obj(_) => Ok([])
    case _ => if Json.Truthy(v) then Err(TypeError) else Ok([])
  }

  /** `_strip_markers(o)` over the first five listed options: each must be
      a string or falsy, or `TypeError` is raised. */
  function ReadOptions(vs: seq<Json.Value>): (r: Result<seq<Option<string>>, string>)
    ensures r.Ok? <==> forall k :: 0 <= k < Min(5, |vs|) ==> TextField(vs[k], TypeError).Ok?
    ensures r.Err? ==> r.error == TypeError
    ensures r.Ok? ==> |r.value| == Min(5, |vs|) && forall k :: 0 <= k < |r.value| ==> r.value[k].GetOr("") == TextOf(vs[k])
  {
    var n := Min(5, |vs|);
    if forall k :: 0 <= k < n ==> TextField(vs[k], TypeError).Ok? then
      Ok(seq(n, k requires 0 <= k < n => TextField(vs[k], TypeError).value))
    else
      Err(TypeError)
  }

  /** A record as the prompt asks for it: an object whose title, trait id
      and id are strings and whose options are a list of strings. */
  predicate WellTyped(v: Json.Value) {
    v.Obj?
    && Json.Get(v.fields, "title").Str? && Json.Get(v.fields, "trait_id").Str?
    && Json.Get(v.fields, "id").Str? && Json.Get(v.fields, "options").List?
    && forall o :: o in Json.Get(v.fields, "options").items ==> o.Str?
  }

  /** One turn of the loop of `_normalize_qs` up to the point where it can
      raise: the title is read, then the trait id, and only for a record
      that is kept the options and the id. A record whose trait is not one
      of the four is skipped before its options are looked at. */
  function ReadRecord(v: Json.Value): (r: Result<RawQuestion, string>)
    // a record that is not a dict has no `get`
    ensures !v.Obj? ==> r == Err(AttributeError)
    // a truthy non-string title, then a truthy non-string trait id, raise
    ensures v.Obj? && TextField(Json.Get(v.fields, "title"), TypeError).Err? ==> r == Err(TypeError)
    ensures (v.Obj? && TextField(Json.Get(v.fields, "title"), TypeError).Ok?
             && TextField(Json.Get(v.fields, "trait_id"), AttributeError).Err?) ==> r == Err(AttributeError)
    // a record with a valid trait raises on options that are not a list of texts
    ensures v.Obj? && r.Ok? && Trim(TextOf(Json.Get(v.fields, "trait_id"))) in TraitOrder ==>
      OptionValues(Json.Get(v.fields, "options")).Ok? && ReadOptions(OptionValues(Json.Get(v.fields, "options")).value).Ok?
    // a well-formed record is read, with the texts it holds
    ensures WellTyped(v) ==> r.Ok?
    ensures r.Ok? ==>
      (v.Obj?
       && r.value.title.GetOr("") == TextOf(Json.Get(v.fields, "title"))
       && r.value.traitId.GetOr("") == TextOf(Json.Get(v.fields, "trait_id")))
    ensures r.Ok? && Trim(r.value.traitId.GetOr("")) in TraitOrder ==>
      (r.value.id.GetOr("") == TextOf(Json.Get(v.fields, "id"))
       && (Json.Get(v.fields, "options").List? ==>
             var items := Json.Get(v.fields, "options").items;
             |r.value.options| == Min(5, |items|)
             && forall k :: 0 <= k < |r.value.options| ==> r.value.options[k].GetOr("") == TextOf(items[k])))
  {
    if !v.Obj? then Err(AttributeError)
    else
      var d := v.fields;
      var title := TextField(Json.Get(d, "title"), TypeError);
      var traitId := TextField(Json.Get(d, "trait_id"), AttributeError);
      if title.Err? then Err(title.error)
      else if traitId.Err? then Err(traitId.error)
      else if Trim(traitId.value.GetOr("")) !in TraitOrder then
        Ok(RawQuestion(None, title.value, traitId.value, []))
      else
        var listed := OptionValues(Json.Get(d, "options"));
        if listed.Err? then Err(listed.error)
        else
          var opts := ReadOptions(listed.value);
          if opts.Err? then Err(opts.error)
          else
            var id := Json.Get(d, "id");
            Ok(RawQuestion(if id.Str? && id.s != "" then Some(id.s) else None, title.value, traitId.value, opts.value))
  }

  /** The records read in order; the first one that raises decides the
      error. */
  function ReadRecords(vs: seq<Json.Value>): (r: Result<seq<RawQuestion>, string>)
    ensures r.Ok? <==> forall k :: 0 <= k < |vs| ==> ReadRecord(vs[k]).Ok?
    ensures r.Ok? ==> |r.value| == |vs| && forall k :: 0 <= k < |vs| ==> ReadRecord(vs[k]) == Ok(r.value[k])
  {
    if vs == [] then Ok([])
    else
      var init := vs[..|vs| - 1];
      var prev := ReadRecords(init);
      var last := ReadRecord(vs[|vs| - 1]);
      assert forall k :: 0 <= k < |init| ==> init[k] == vs[k];
      if prev.Err? then prev
      else if last.Err? then Err(last.error)
      else Ok(prev.value + [last.value])
  }

  /** The error is the one raised by the first record that raises. */
  lemma {:induction false} ReadRecordsFirstError(vs: seq<Json.Value>) returns (k: nat)
    requires ReadRecords(vs).Err?
    ensures k < |vs| && ReadRecord(vs[k]) == Err(ReadRecords(vs).error)
    ensures forall j :: 0 <= j < k ==> ReadRecord(vs[j]).Ok?
  {
    var init := vs[..|vs| - 1];
    if ReadRecords(init).Err? {
      k := ReadRecordsFirstError(init);
      assert vs[k] == init[k];
      assert forall j :: 0 <= j < k ==> vs[j] == init[j];
    } else {
      k := |vs| - 1;
      assert forall j :: 0 <= j < k ==> vs[j] == init[j];
    }
  }

  /** Reading one more record extends the records read, or raises. */
  lemma ReadRecordsStep(vs: seq<Json.Value>, i: nat, raws: seq<RawQuestion>)
    requires i < |vs| && ReadRecords(vs[..i]) == Ok(raws)
    ensures ReadRecord(vs[i]).Err? ==> ReadRecords(vs[..i + 1]) == Err(ReadRecord(vs[i]).error)
    ensures ReadRecord(vs[i]).Ok? ==> ReadRecords(vs[..i + 1]) == Ok(raws + [ReadRecord(vs[i]).value])
  {
    assert vs[..i + 1][..i] == vs[..i];
  }

  /** Once a prefix raises, so does the whole list, with the same error. */
  lemma {:induction false} ReadRecordsPrefixErr(vs: seq<Json.Value>, i: nat)
    requires i <= |vs| && ReadRecords(vs[..i]).Err?
    ensures ReadRecords(vs) == ReadRecords(vs[..i])
    decreases |vs| - i
  {
    if i < |vs| {
      assert vs[..i + 1][..i] == vs[..i];
      ReadRecordsPrefixErr(vs, i + 1);
    } else {
      assert vs[..i] == vs;
    }
  }

  /** `_normalize_qs`: a loop over the records that appends each repaired
      one and skips the others, and stops with the exception of the first
      record it cannot read. */
  method NormalizeQs(qs: seq<Json.Value>) returns (r: Result<seq<Question>, string>)
    ensures ReadRecords(qs).Err? ==> r == Err(ReadRecords(qs).error)
    ensures ReadRecords(qs).Ok? ==> r == Ok(Normalized(ReadRecords(qs).value))
  {
    var out := [];
    ghost var raws: seq<RawQuestion> := [];
    var i := 0;
    while i < |qs|
      invariant 0 <= i <= |qs|
      invariant ReadRecords(qs[..i]) == Ok(raws) && |raws| == i
      invariant out == Normalized(raws)
    {
      var read := ReadRecord(qs[i]);
      ReadRecordsStep(qs, i, raws);
      if read.Err? {
        ReadRecordsPrefixErr(qs, i + 1);
        return Err(read.error);
      }
      var q := read.value;
      var title := StripMarkers(q.title.GetOr(""));
      var traitName := Trim(q.traitId.GetOr(""));
      NormalizedStep(raws, q);
      if traitName in TraitOrder {
        var opts := RepairOptions(q.options);
        var id := if q.id.None? || q.id.value == "" then "q" + NatToString(i + 1) else q.id.value;
        out := out + [Question(id, if title == "" then "質問 " + NatToString(i + 1) else title, traitName, opts)];
      }
      raws := raws + [q];
      i := i + 1;
    }
    assert qs[..i] == qs;
    return Ok(out);
  }

  /** One more record extends the result by its repair, if any. */
  lemma NormalizedStep(raws: seq<RawQuestion>, q: RawQuestion)
    ensures Normalized(raws + [q]) == match RepairOne(q, |raws| + 1)
      case None => Normalized(raws)
      case Some(r) => Normalized(raws) + [r]
  {
    assert (raws + [q])[..|raws|] == raws;
  }
}
