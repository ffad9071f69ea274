/** `_topup_to_count` and `_synthetic_title` (utils/gemini_client.py):
    a question list that is too short is filled up, first with pool
    questions whose titles are not used yet, in pool order, then with
    synthetic questions, one fixed title per trait. */
module TopUp {
  import opened Text
  import opened Questions

  function Max(a: int, b: int): int { if a >= b then a else b }

  /** `{q["title"] for q in qs}`. */
  function TitlesOf(qs: seq<Question>): (titles: set<string>)
    ensures forall k :: 0 <= k < |qs| ==> qs[k].title in titles
    ensures forall t :: t in titles ==> exists k :: 0 <= k < |qs| && qs[k].title == t
  {
    if qs == [] then {}
    else
      var init := qs[..|qs| - 1];
      var rest := TitlesOf(init);
      assert forall k :: 0 <= k < |init| ==> init[k] == qs[k];
      rest + {qs[|qs| - 1].title}
  }

  /** There are no more titles than questions. */
  lemma {:induction false} TitlesOfSize(qs: seq<Question>)
    ensures |TitlesOf(qs)| <= |qs|
  {
    if qs != [] {
      TitlesOfSize(qs[..|qs| - 1]);
    }
  }

  // ---- The pool step
  //
  // The pool step is stated for any pool whose titles are distinct; the
  // top-up applies it to `_fallback_pool()`.

  /** The pool step as the loop runs it: from pool position `k`, stop once
      the list has `count` questions, skip a question whose title is used,
      and otherwise append it and mark its title used. */
  function PoolFill(pool: seq<Question>, qs: seq<Question>, used: set<string>, count: int, k: nat): seq<Question>
    requires k <= |pool|
    decreases |pool| - k
  {
    if k == |pool| || |qs| >= count then qs
    else if pool[k].title in used then PoolFill(pool, qs, used, count, k + 1)
    else PoolFill(pool, qs + [pool[k]], used + {pool[k].title}, count, k + 1)
  }

  /** The pool questions from position `k` on whose titles are not in
      `used`, in pool order: what the pool step can offer. */
  function Fresh(pool: seq<Question>, used: set<string>, k: nat): (offered: seq<Question>)
    requires k <= |pool|
    ensures |offered| <= |pool| - k
    ensures forall j :: 0 <= j < |offered| ==> offered[j].title !in used
    decreases |pool| - k
  {
    if k == |pool| then []
    else (if pool[k].title in used then [] else [pool[k]]) + Fresh(pool, used, k + 1)
  }

  /** The number of pool titles from position `k` on that are in `used`. */
  function UsedFrom(pool: seq<Question>, used: set<string>, k: nat): nat
    requires k <= |pool|
    decreases |pool| - k
  {
    if k == |pool| then 0 else (if pool[k].title in used then 1 else 0) + UsedFrom(pool, used, k + 1)
  }

  /** A title that no later pool question carries does not change what the
      pool offers from there. */
  lemma {:induction false} FreshIgnores(pool: seq<Question>, used: set<string>, t: string, k: nat)
    requires k <= |pool|
    requires forall j :: k <= j < |pool| ==> pool[j].title != t
    ensures Fresh(pool, used + {t}, k) == Fresh(pool, used, k)
    ensures UsedFrom(pool, used - {t}, k) == UsedFrom(pool, used, k)
    decreases |pool| - k
  {
    if k < |pool| {
      FreshIgnores(pool, used, t, k + 1);
    }
  }

  /** What the pool offers and what it skips make up the rest of the pool. */
  lemma {:induction false} FreshCount(pool: seq<Question>, used: set<string>, k: nat)
    requires k <= |pool|
    ensures |Fresh(pool, used, k)| + UsedFrom(pool, used, k) == |pool| - k
    decreases |pool| - k
  {
    if k < |pool| {
      FreshCount(pool, used, k + 1);
    }
  }

  /** Since pool titles are distinct, each used title blocks at most one
      pool question. */
  lemma {:induction false} UsedFromBound(pool: seq<Question>, used: set<string>, k: nat)
    requires k <= |pool| && DistinctTitles(pool)
    ensures UsedFrom(pool, used, k) <= |used|
    decreases |pool| - k
  {
    if k < |pool| {
      var t := pool[k].title;
      if t in used {
        FreshIgnores(pool, used, t, k + 1);
        UsedFromBound(pool, used - {t}, k + 1);
      } else {
        UsedFromBound(pool, used, k + 1);
      }
    }
  }

  /** The pool step appends exactly the first questions the pool offers,
      as many as are missing. */
  lemma {:induction false} PoolFillTakesFresh(pool: seq<Question>, qs: seq<Question>, used: set<string>, count: int, k: nat)
    requires k <= |pool| && DistinctTitles(pool)
    ensures var offered := Fresh(pool, used, k);
      PoolFill(pool, qs, used, count, k) == qs + offered[..Max(0, Min(|offered|, count - |qs|))]
    decreases |pool| - k
  {
    var offered := Fresh(pool, used, k);
    if k == |pool| || |qs| >= count {
      assert qs + offered[..0] == qs;
    } else if pool[k].title in used {
      assert offered == Fresh(pool, used, k + 1);
      PoolFillTakesFresh(pool, qs, used, count, k + 1);
    } else {
      var t := pool[k].title;
      FreshIgnores(pool, used, t, k + 1);
      PoolFillTakesFresh(pool, qs + [pool[k]], used + {t}, count, k + 1);
      var rest := Fresh(pool, used, k + 1);
      var m := Max(0, Min(|rest|, count - |qs| - 1));
      assert offered == [pool[k]] + rest;
      assert Max(0, Min(|offered|, count - |qs|)) == m + 1;
      ConsPrefix(qs, pool[k], rest, m);
    }
  }

  /** Taking one more of `[x] + rest` is appending `x` first. */
  lemma ConsPrefix(qs: seq<Question>, x: Question, rest: seq<Question>, m: nat)
    requires m <= |rest|
    ensures (qs + [x]) + rest[..m] == qs + ([x] + rest)[..m + 1]
  {
    assert ([x] + rest)[..m + 1] == [x] + rest[..m];
  }

  /** For at most as many wanted questions as the pool holds, the pool alone
      is enough: every question already present blocks at most one pool
      title. */
  lemma PoolSuffices(pool: seq<Question>, qs: seq<Question>, count: int)
    requires count <= |pool| && DistinctTitles(pool)
    ensures |Fresh(pool, TitlesOf(qs), 0)| >= count - |qs|
  {
    FreshCount(pool, TitlesOf(qs), 0);
    UsedFromBound(pool, TitlesOf(qs), 0);
    TitlesOfSize(qs);
  }

  // ---- The synthetic step

  /** `_synthetic_title`: one fixed question per trait, a numbered
      placeholder for any other trait id. */
  function SyntheticTitle(traitName: string, i: int): string {
    if traitName == "energy" then "大人数の集まりに参加するとき、気持ちはどうですか？"
    else if traitName == "imagination" then "新しいことを始めるとき、発想はどちらに寄りますか？"
    else if traitName == "decision" then "物事を決めるとき、何を優先しますか？"
    else if traitName == "order" then "予定やタスクの進め方はどちらに近いですか？"
    else "質問 " + IntToString(i)
  }

  /** The fixed synthetic title of the trait at position `x` of
      `TRAIT_ORDER`. */
  function SyntheticTitleAt(x: nat): string
    requires x < 4
  {
    ["大人数の集まりに参加するとき、気持ちはどうですか？",
     "新しいことを始めるとき、発想はどちらに寄りますか？",
     "物事を決めるとき、何を優先しますか？",
     "予定やタスクの進め方はどちらに近いですか？"][x]
  }

  /** For the four traits the title does not depend on the step number. */
  lemma SyntheticTitleOfTrait(x: nat, i: int)
    requires x < 4
    ensures SyntheticTitle(TraitOrder[x], i) == SyntheticTitleAt(x)
  {
  }

  /** The titles the synthetic step can produce. */
  function SyntheticTitles(): set<string>
  {
    set x | 0 <= x < 4 :: SyntheticTitleAt(x)
  }

  /** The synthetic title tried at step `i` while the list has `n` questions
      is already used. */
  predicate Skipped(used: set<string>, n: nat, i: nat) {
    SyntheticTitleAt((n + i) % 4) in used
  }

  /** Four consecutive steps try all four traits. */
  lemma FourStepsCoverTraits(used: set<string>, n: nat, s: nat)
    requires forall m :: s <= m < s + 4 ==> Skipped(used, n, m)
    ensures SyntheticTitles() <= used
    ensures |SyntheticTitles() - used| == 0
  {
    forall x | 0 <= x < 4
      ensures SyntheticTitleAt(x) in used
    {
      var m := s + (x - n - s) % 4;
      assert (n + m) % 4 == x;
      assert Skipped(used, n, m);
    }
    assert SyntheticTitles() - used == {};
  }

  /** The title the synthetic step gives each of the four traits. */
  function SyntheticTitleOf(traitName: string): string {
    SyntheticTitle(traitName, 0)
  }

  /** One step of the synthetic loop: the trait `TRAIT_ORDER[(n + i) % 4]`
      and its `_synthetic_title`. */
  method NextSynthetic(n: nat, i: nat) returns (traitName: string, title: string)
    ensures traitName == TraitOrder[(n + i) % 4]
    ensures title == SyntheticTitleAt((n + i) % 4) && title == SyntheticTitleOf(traitName)
    ensures title in SyntheticTitles()
  {
    traitName := TraitOrder[(n + i) % 4];
    title := SyntheticTitle(traitName, i);
    SyntheticTitleOfTrait((n + i) % 4, i);
    SyntheticTitleOfTrait((n + i) % 4, 0);
  }

  /** While some synthetic title is unused, at most three steps in a row
      are skipped. */
  lemma SkipBound(used: set<string>, n: nat, start: nat, i: nat, count: int)
    requires start <= i <= start + 3
    requires forall m :: start <= m < i ==> Skipped(used, n, m)
    requires Skipped(used, n, i)
    requires 0 < count - n <= |SyntheticTitles() - used|
    ensures i < start + 3
  {
    if i == start + 3 {
      FourStepsCoverTraits(used, n, start);
    }
  }

  /** `f"g{len(qs)+1}"` for a question appended at 0-based position `pos`. */
  function SyntheticId(pos: nat): string {
    "g" + NatToString(pos + 1)
  }

  /** A question the synthetic loop appends at 0-based position `pos`. */
  predicate SyntheticQuestion(q: Question, pos: nat, used0: set<string>) {
    && q.traitId in TraitOrder && q.title == SyntheticTitleOf(q.traitId)
    && q.title in SyntheticTitles() && q.title !in used0
    && q.id == SyntheticId(pos) && q.options == Likert5
  }

  /** What the synthetic loop has appended to `qs` so far: questions with
      the synthetic title of their trait, titles not used before and
      distinct from each other, ids "g" followed by their 1-based position,
      and the LIKERT5 options; `used` holds the old titles and the new
      ones. */
  predicate SyntheticTail(qs: seq<Question>, used0: set<string>, r: seq<Question>, used: set<string>) {
    && |qs| <= |r| && r[..|qs|] == qs
    && used0 <= used
    && (forall j :: |qs| <= j < |r| ==> r[j].title in used)
    && (forall j :: |qs| <= j < |r| ==> SyntheticQuestion(r[j], j, used0))
    && (forall j, j' :: |qs| <= j < j' < |r| ==> r[j].title != r[j'].title)
  }

  /** Appending the question for an unused synthetic title keeps the tail
      well-formed. */
  lemma SyntheticTailAppend(qs: seq<Question>, used0: set<string>, r: seq<Question>, used: set<string>,
                            traitName: string, title: string)
    requires SyntheticTail(qs, used0, r, used)
    requires traitName in TraitOrder && title == SyntheticTitleOf(traitName)
    requires title in SyntheticTitles() && title !in used
    ensures SyntheticTail(qs, used0, r + [Question(SyntheticId(|r|), title, traitName, Likert5)], used + {title})
  {
    var q := Question(SyntheticId(|r|), title, traitName, Likert5);
    var r' := r + [q];
    assert r'[..|qs|] == r[..|qs|];
    assert title !in used0;
    assert SyntheticQuestion(q, |r|, used0);
    assert r'[|r|] == q;
    forall j | |qs| <= j < |r'|
      ensures SyntheticQuestion(r'[j], j, used0) && r'[j].title in used + {title}
    {
      if j < |r| {
        assert r'[j] == r[j];
      }
    }
    forall j, j' | |qs| <= j < j' < |r'|
      ensures r'[j].title != r'[j'].title
    {
      assert r'[j] == r[j];
      if j' < |r| {
        assert r'[j'] == r[j'];
      }
    }
  }

  /** Using one more synthetic title leaves one fewer unused. */
  lemma UnusedShrinks(used: set<string>, title: string)
    requires title in SyntheticTitles() && title !in used
    ensures |SyntheticTitles() - (used + {title})| == |SyntheticTitles() - used| - 1
  {
    assert SyntheticTitles() - (used + {title}) == (SyntheticTitles() - used) - {title};
  }

  /** The synthetic loop of `_topup_to_count`: while questions are missing,
      try the title of trait `TRAIT_ORDER[(len + i) % 4]`, skip it when used,
      and otherwise append it with id "g" followed by the new length. The
      code loops for ever once every synthetic title is used, so as many
      unused synthetic titles as missing questions are demanded. */
  method SyntheticFill(qs: seq<Question>, used0: set<string>, count: int) returns (r: seq<Question>, used: set<string>)
    requires count - |qs| <= |SyntheticTitles() - used0|
    ensures |r| == Max(|qs|, count)
    ensures SyntheticTail(qs, used0, r, used)
  {
    r := qs;
    used := used0;
    var i: nat := 1;
    ghost var start: nat := i;
    while |r| < count
      invariant |r| <= Max(|qs|, count)
      invariant SyntheticTail(qs, used0, r, used)
      invariant count - |r| <= |SyntheticTitles() - used|
      invariant start <= i <= start + 3
      invariant forall m :: start <= m < i ==> Skipped(used, |r|, m)
      decreases count - |r|, start + 4 - i
    {
      var traitName, title := NextSynthetic(|r|, i);
      if title in used {
        SkipBound(used, |r|, start, i, count);
        i := i + 1;
      } else {
        UnusedShrinks(used, title);
        SyntheticTailAppend(qs, used0, r, used, traitName, title);
        r := r + [Question(SyntheticId(|r|), title, traitName, Likert5)];
        used := used + {title};
        i := i + 1;
        start := i;
      }
    }
  }

  // ---- The whole top-up

  /** `_topup_to_count(qs, count)` for a count of at most twelve, as the
      question generator guarantees: the pool loop, then the synthetic loop.
      Under that bound the pool loop alone reaches the count, so the
      synthetic loop appends nothing. The existing questions stay as they
      are, and the appended ones are the first unused pool questions in pool
      order, with titles distinct from each other and from the existing
      ones. */
  method TopUpToCount(qs: seq<Question>, count: int) returns (r: seq<Question>)
    requires count <= 12
    ensures Max(0, count - |qs|) <= |Fresh(FallbackPool(), TitlesOf(qs), 0)|
    ensures r == qs + Fresh(FallbackPool(), TitlesOf(qs), 0)[..Max(0, count - |qs|)]
  {
    var pool := FallbackPool();
    PoolTitlesDistinct();
    var used := TitlesOf(qs);
    r := qs;
    var k := 0;
    while k < |pool|
      invariant 0 <= k <= |pool|
      invariant PoolFill(pool, r, used, count, k) == PoolFill(pool, qs, TitlesOf(qs), count, 0)
      decreases |pool| - k
    {
      if |r| >= count {
        break;
      }
      var cand := pool[k];
      if cand.title in used {
        k := k + 1;
        continue;
      }
      r := r + [cand];
      used := used + {cand.title};
      k := k + 1;
    }
    assert r == PoolFill(pool, qs, TitlesOf(qs), count, 0);
    PoolStepResult(pool, qs, r, count);
    var pooled := r;
    r, used := SyntheticFill(r, used, count);
    assert r == r[..|pooled|] == pooled;
  }

  /** What the pool step of the top-up leaves: the missing questions, taken
      from what the pool offers, which has enough of them. */
  lemma PoolStepResult(pool: seq<Question>, qs: seq<Question>, r: seq<Question>, count: int)
    requires count <= |pool| && DistinctTitles(pool)
    requires r == PoolFill(pool, qs, TitlesOf(qs), count, 0)
    ensures Max(0, count - |qs|) <= |Fresh(pool, TitlesOf(qs), 0)|
    ensures r == qs + Fresh(pool, TitlesOf(qs), 0)[..Max(0, count - |qs|)]
    ensures |r| == Max(|qs|, count)
  {
    PoolFillTakesFresh(pool, qs, TitlesOf(qs), count, 0);
    PoolSuffices(pool, qs, count);
  }

  /** The top-up keeps the questions it is given, reaches the count, and
      appends only titles that were not used, each once. */
  lemma TopUpShape(qs: seq<Question>, count: int, r: seq<Question>)
    requires count <= 12
    requires Max(0, count - |qs|) <= |Fresh(FallbackPool(), TitlesOf(qs), 0)|
    requires r == qs + Fresh(FallbackPool(), TitlesOf(qs), 0)[..Max(0, count - |qs|)]
    ensures |r| == Max(|qs|, count)
    ensures r[..|qs|] == qs
    ensures forall j :: |qs| <= j < |r| ==> r[j].title !in TitlesOf(qs)
    ensures forall j, j' :: |qs| <= j < j' < |r| ==> r[j].title != r[j'].title
  {
    var offered := Fresh(FallbackPool(), TitlesOf(qs), 0);
    PoolTitlesDistinct();
    FreshDistinct(FallbackPool(), TitlesOf(qs), 0);
    AppendShape(qs, offered, Max(0, count - |qs|), r, TitlesOf(qs));
  }

  /** Appending a prefix of a list of distinct, unused titles, over plain
      sequences. */
  lemma AppendShape(qs: seq<Question>, offered: seq<Question>, n: nat, r: seq<Question>, used: set<string>)
    requires n <= |offered| && r == qs + offered[..n]
    requires DistinctTitles(offered)
    requires forall j :: 0 <= j < |offered| ==> offered[j].title !in used
    ensures |r| == |qs| + n
    ensures r[..|qs|] == qs
    ensures forall j :: |qs| <= j < |r| ==> r[j].title !in used
    ensures forall j, j' :: |qs| <= j < j' < |r| ==> r[j].title != r[j'].title
  {
    assert forall j :: |qs| <= j < |r| ==> r[j] == offered[j - |qs|];
  }

  /** Everything the pool offers is one of its questions. */
  lemma {:induction false} FreshFromPool(pool: seq<Question>, used: set<string>, k: nat)
    requires k <= |pool|
    ensures forall q :: q in Fresh(pool, used, k) ==> q in pool[k..]
    decreases |pool| - k
  {
    if k < |pool| {
      FreshFromPool(pool, used, k + 1);
      assert pool[k..] == [pool[k]] + pool[k + 1..];
    }
  }

  /** What the pool offers has distinct titles when the pool has. */
  lemma {:induction false} FreshDistinct(pool: seq<Question>, used: set<string>, k: nat)
    requires k <= |pool| && DistinctTitles(pool)
    ensures DistinctTitles(Fresh(pool, used, k))
    decreases |pool| - k
  {
    if k < |pool| {
      FreshDistinct(pool, used, k + 1);
      var t := pool[k].title;
      FreshIgnores(pool, used, t, k + 1);
      var rest := Fresh(pool, used, k + 1);
      assert forall j :: 0 <= j < |rest| ==> rest[j].title != t;
      if t !in used {
        assert Fresh(pool, used, k) == [pool[k]] + rest;
      }
    }
  }
}
