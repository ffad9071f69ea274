/** `_fallback_summary` (utils/gemini_client.py): the three-sentence
    Japanese summary of a profile written without the text-generation
    service. It names at most two tendencies, the strongest first, then up
    to two strengths and two matching points of care, and mentions the
    vibe, theme and colour of the profile in Japanese.

    Normalised values are exact reals here; for the values the deriver
    produces (integer scores divided by 20) the double comparisons of the
    source come out the same. */
module Summary {
  import opened Text
  import opened Profile

  /** One entry of `axes`: its key and the words for its two sides. */
  datatype Axis = Axis(key: string, left: string, right: string)

  const Axes: seq<Axis> := [
    Axis("energy", "内向的", "外向的"),
    Axis("imagination", "現実的", "直感的"),
    Axis("decision", "感情的", "論理的"),
    Axis("order", "柔軟", "計画的")
  ]

  function Abs(v: real): (r: real)
    ensures r >= 0.0 && (r == v || r == -v)
  {
    if v < 0.0 then -v else v
  }

  /** `adj(v, left, right)`: the side's word from 0.45 on, the same word
      softened by "やや" from 0.20 on, and nothing in between. */
  function Adj(v: real, left: string, right: string): (a: string)
    requires left != "" && right != ""
    ensures a != "" <==> Abs(v) >= 0.20
    ensures v >= 0.45 ==> a == right
    ensures 0.20 <= v < 0.45 ==> a == "やや" + right
    ensures v <= -0.45 ==> a == left
    ensures -0.45 < v <= -0.20 ==> a == "やや" + left
  {
    if v >= 0.45 then right
    else if 0.20 <= v < 0.45 then "やや" + right
    else if v <= -0.45 then left
    else if -0.45 < v <= -0.20 then "やや" + left
    else ""
  }

  // ---- Tendencies

  /** An entry of `pairs`: `(abs(v), adj)`; `axis` records which of the four
      axes produced it, which is the order the entries are appended in. */
  datatype Tendency = Tendency(weight: real, axis: nat, text: string)

  /** A table of axes whose side words are non-empty, as `axes` is. */
  predicate WordedAxes(axes: seq<Axis>) {
    forall k :: 0 <= k < |axes| ==> axes[k].left != "" && axes[k].right != ""
  }

  lemma AxesWorded()
    ensures |Axes| == 4 && WordedAxes(Axes)
  {
  }

  /** The value the summary reads for axis `k`, 0 when the norm lacks it. */
  function AxisValue(n: Norm, axes: seq<Axis>, k: nat): real
    requires k < |axes|
  {
    NormOf(n, axes[k].key)
  }

  /** Axis `k` is described: its value is at least 0.20 away from 0. */
  predicate Qualifies(n: Norm, axes: seq<Axis>, k: nat)
    requires k < |axes|
  {
    Abs(AxisValue(n, axes, k)) >= 0.20
  }

  /** The entry of axis `k`: `(abs(v), adj(v, left, right))`. */
  function Entry(n: Norm, axes: seq<Axis>, k: nat): Tendency
    requires k < |axes| && WordedAxes(axes)
  {
    var v := AxisValue(n, axes, k);
    Tendency(Abs(v), k, Adj(v, axes[k].left, axes[k].right))
  }

  /** What axis `k` appends: its entry when its description is non-empty. */
  function TendencyOf(n: Norm, axes: seq<Axis>, k: nat): (r: seq<Tendency>)
    requires k < |axes| && WordedAxes(axes)
    ensures r == if Qualifies(n, axes, k) then [Entry(n, axes, k)] else []
  {
    var v := AxisValue(n, axes, k);
    var a := Adj(v, axes[k].left, axes[k].right);
    if a != "" then [Tendency(Abs(v), k, a)] else []
  }

  /** `pairs` after the loop has visited the first `i` axes. */
  function TendenciesUpTo(n: Norm, axes: seq<Axis>, i: nat): seq<Tendency>
    requires i <= |axes| && WordedAxes(axes)
  {
    if i == 0 then [] else TendenciesUpTo(n, axes, i - 1) + TendencyOf(n, axes, i - 1)
  }

  function Tendencies(n: Norm): seq<Tendency> {
    AxesWorded();
    TendenciesUpTo(n, Axes, 4)
  }

  predicate AxesIncreasing(ts: seq<Tendency>) {
    forall i, j :: 0 <= i < j < |ts| ==> ts[i].axis < ts[j].axis
  }

  /** The entries of `pairs` come in axis order. */
  lemma {:induction false} TendenciesIncreasing(n: Norm, axes: seq<Axis>, i: nat)
    requires i <= |axes| && WordedAxes(axes)
    ensures var ts := TendenciesUpTo(n, axes, i);
      AxesIncreasing(ts) && forall j :: 0 <= j < |ts| ==> ts[j].axis < i
  {
    if i > 0 {
      TendenciesIncreasing(n, axes, i - 1);
      var prev := TendenciesUpTo(n, axes, i - 1);
      var ts := TendenciesUpTo(n, axes, i);
      assert forall j :: 0 <= j < |prev| ==> ts[j] == prev[j];
      assert forall j :: |prev| <= j < |ts| ==> ts[j].axis == i - 1;
    }
  }

  /** `t` is the entry of an axis that is described. */
  predicate EntryOfDescribed(n: Norm, axes: seq<Axis>, t: Tendency)
    requires WordedAxes(axes)
  {
    t.axis < |axes| && Qualifies(n, axes, t.axis) && t == Entry(n, axes, t.axis)
  }

  /** Every entry of `pairs` is the entry of a described axis. */
  lemma {:induction false} TendenciesSound(n: Norm, axes: seq<Axis>, i: nat)
    requires i <= |axes| && WordedAxes(axes)
    ensures forall t :: t in TendenciesUpTo(n, axes, i) ==> EntryOfDescribed(n, axes, t)
  {
    if i > 0 {
      TendenciesSound(n, axes, i - 1);
      assert TendenciesUpTo(n, axes, i) == TendenciesUpTo(n, axes, i - 1) + TendencyOf(n, axes, i - 1);
    }
  }

  /** Every described axis has its entry in `pairs`. */
  lemma {:induction false} TendenciesComplete(n: Norm, axes: seq<Axis>, i: nat)
    requires i <= |axes| && WordedAxes(axes)
    ensures forall k :: 0 <= k < i && Qualifies(n, axes, k) ==> Entry(n, axes, k) in TendenciesUpTo(n, axes, i)
  {
    if i > 0 {
      TendenciesComplete(n, axes, i - 1);
      var prev := TendenciesUpTo(n, axes, i - 1);
      var add := TendencyOf(n, axes, i - 1);
      assert TendenciesUpTo(n, axes, i) == prev + add;
      forall k | 0 <= k < i && Qualifies(n, axes, k)
        ensures Entry(n, axes, k) in prev + add
      {
        if k == i - 1 {
          assert add == [Entry(n, axes, k)];
        } else {
          assert Entry(n, axes, k) in prev;
        }
      }
    }
  }

  // ---- Ordering: `pairs.sort(key=lambda x: x[0], reverse=True)`

  /** `a` comes before `b` in the sorted list: a larger weight, or the same
      weight and an earlier axis (the sort is stable). */
  predicate Precedes(a: Tendency, b: Tendency) {
    a.weight > b.weight || (a.weight == b.weight && a.axis < b.axis)
  }

  predicate Ordered(ts: seq<Tendency>) {
    forall i, j :: 0 <= i < j < |ts| ==> Precedes(ts[i], ts[j])
  }

  /** Insertion of an entry in front of every entry that does not weigh
      more. */
  function Insert(x: Tendency, s: seq<Tendency>): (r: seq<Tendency>)
    ensures multiset(r) == multiset(s) + multiset{x}
  {
    if s == [] || x.weight >= s[0].weight then [x] + s
    else
      assert s == [s[0]] + s[1..];
      [s[0]] + Insert(x, s[1..])
  }

  /** The stable descending sort of the entries by weight. */
  function SortByWeight(ts: seq<Tendency>): (r: seq<Tendency>)
    ensures multiset(r) == multiset(ts)
  {
    if ts == [] then []
    else
      assert ts == [ts[0]] + ts[1..];
      Insert(ts[0], SortByWeight(ts[1..]))
  }

  lemma {:induction false} InsertOrdered(x: Tendency, s: seq<Tendency>)
    requires Ordered(s)
    requires forall y :: y in s ==> x.axis < y.axis
    ensures Ordered(Insert(x, s))
  {
    if s != [] && x.weight < s[0].weight {
      var rest := Insert(x, s[1..]);
      InsertOrdered(x, s[1..]);
      forall k | 0 <= k < |rest|
        ensures Precedes(s[0], rest[k])
      {
        assert rest[k] in multiset(rest);
        if rest[k] != x {
          assert rest[k] in multiset(s[1..]);
          var j :| 0 <= j < |s[1..]| && s[1..][j] == rest[k];
          assert Precedes(s[0], s[j + 1]);
        }
      }
    } else if s != [] {
      forall j | 0 <= j < |s|
        ensures Precedes(x, s[j])
      {
        if j > 0 {
          assert Precedes(s[0], s[j]);
        }
        assert s[j] in s;
      }
    }
  }

  /** Sorting entries that come in axis order puts them in `Precedes`
      order. */
  lemma {:induction false} SortOrdered(ts: seq<Tendency>)
    requires AxesIncreasing(ts)
    ensures Ordered(SortByWeight(ts))
  {
    if ts != [] {
      var tail := ts[1..];
      SortOrdered(tail);
      forall y | y in SortByWeight(tail)
        ensures ts[0].axis < y.axis
      {
        assert y in multiset(SortByWeight(tail));
        assert y in multiset(tail);
        var j :| 0 <= j < |tail| && tail[j] == y;
        assert ts[j + 1] == y;
      }
      InsertOrdered(ts[0], SortByWeight(tail));
    }
  }

  function Texts(ts: seq<Tendency>): (r: seq<string>)
    ensures |r| == |ts|
    ensures forall i :: 0 <= i < |ts| ==> r[i] == ts[i].text
  {
    if ts == [] then [] else [ts[0].text] + Texts(ts[1..])
  }

  function Min2(k: nat): nat { if k < 2 then k else 2 }

  /** `descs`: the descriptions of the first two sorted entries. */
  function Descriptions(n: Norm): seq<string> {
    var sorted := SortByWeight(Tendencies(n));
    Texts(sorted[..Min2(|sorted|)])
  }

  /** The summary describes the two strongest tendencies, or all of them when
      there are fewer: the descriptions are those of the first entries of a
      list holding exactly the described axes, strongest first and, at equal
      strength, in axis order. */
  lemma TopTendencies(n: Norm)
    ensures var sorted := SortByWeight(Tendencies(n));
      && multiset(sorted) == multiset(Tendencies(n))
      && Ordered(sorted)
      && |Descriptions(n)| == Min2(|Tendencies(n)|)
      && (forall i :: 0 <= i < |Descriptions(n)| ==> Descriptions(n)[i] == sorted[i].text)
  {
    AxesWorded();
    TendenciesIncreasing(n, Axes, 4);
    SortOrdered(Tendencies(n));
    var sorted := SortByWeight(Tendencies(n));
    assert |sorted| == |multiset(sorted)| == |Tendencies(n)|;
  }

  // ---- Strengths and cautions: the eight `add(cond, good, care)` calls

  /** One `add` call: when the axis lies beyond 0.2 on the given side, its
      strength and its point of care are appended together. */
  datatype Rule = Rule(axis: nat, above: bool, good: string, care: string)

  const Rules: seq<Rule> := [
    Rule(0, true, "人を巻き込んで行動できる", "一人の時間を軽視しすぎないこと"),
    Rule(0, false, "集中力が高く深く考えられる", "考えを言語化して伝える意識を持つこと"),
    Rule(1, true, "発想力と新しい切り口", "実現性や詰めの甘さに注意"),
    Rule(1, false, "具体化と実行の強さ", "発想の幅をときどき広げる余白を作ること"),
    Rule(2, true, "客観的な判断と説明の明快さ", "相手の感情面に配慮を忘れないこと"),
    Rule(2, false, "共感力と関係調整のうまさ", "迷いすぎず結論まで進めること"),
    Rule(3, true, "段取りと再現性の高さ", "予定変更に柔軟さを残すこと"),
    Rule(3, false, "臨機応変で変化に強い", "締め切りや優先順位を明確にすること")
  ]

  /** A rule table shaped like `Rules`: for each axis k, rule 2k fires above
      +0.2 and rule 2k + 1 below -0.2. */
  predicate PairedRules(rules: seq<Rule>, axes: seq<Axis>) {
    && |rules| == 2 * |axes|
    && (forall k :: 0 <= k < |axes| ==> rules[2 * k].axis == k && rules[2 * k].above)
    && (forall k :: 0 <= k < |axes| ==> rules[2 * k + 1].axis == k && !rules[2 * k + 1].above)
  }

  lemma RulesPaired()
    ensures PairedRules(Rules, Axes)
  {
  }

  predicate Fires(n: Norm, axes: seq<Axis>, r: Rule)
    requires r.axis < |axes|
  {
    if r.above then AxisValue(n, axes, r.axis) > 0.2 else AxisValue(n, axes, r.axis) < -0.2
  }

  /** The rules among the first `i` that fire, in order. */
  function FiredUpTo(n: Norm, axes: seq<Axis>, rules: seq<Rule>, i: nat): seq<Rule>
    requires i <= |rules| && forall r :: r in rules ==> r.axis < |axes|
  {
    if i == 0 then []
    else
      FiredUpTo(n, axes, rules, i - 1)
        + (if Fires(n, axes, rules[i - 1]) then [rules[i - 1]] else [])
  }

  function Goods(rs: seq<Rule>): (r: seq<string>)
    ensures |r| == |rs| && forall i :: 0 <= i < |rs| ==> r[i] == rs[i].good
  {
    if rs == [] then [] else Goods(rs[..|rs| - 1]) + [rs[|rs| - 1].good]
  }

  function Cares(rs: seq<Rule>): (r: seq<string>)
    ensures |r| == |rs| && forall i :: 0 <= i < |rs| ==> r[i] == rs[i].care
  {
    if rs == [] then [] else Cares(rs[..|rs| - 1]) + [rs[|rs| - 1].care]
  }

  lemma GoodsCaresAppend(rs: seq<Rule>, more: seq<Rule>)
    requires |more| <= 1
    ensures Goods(rs + more) == Goods(rs) + Goods(more)
    ensures Cares(rs + more) == Cares(rs) + Cares(more)
  {
    if more != [] {
      assert (rs + more)[..|rs|] == rs;
    } else {
      assert rs + more == rs;
    }
  }

  /** Every rule of a paired table names an axis of the table. */
  lemma PairedRulesAxes(rules: seq<Rule>, axes: seq<Axis>)
    requires PairedRules(rules, axes)
    ensures forall r :: r in rules ==> r.axis < |axes|
  {
    forall r | r in rules
      ensures r.axis < |axes|
    {
      var i :| 0 <= i < |rules| && rules[i] == r;
      var k := i / 2;
      assert i == 2 * k || i == 2 * k + 1;
    }
  }

  function Fired(n: Norm): seq<Rule> {
    RulesPaired();
    PairedRulesAxes(Rules, Axes);
    FiredUpTo(n, Axes, Rules, 8)
  }

  function Strengths(n: Norm): seq<string> { Goods(Fired(n)) }
  function Cautions(n: Norm): seq<string> { Cares(Fired(n)) }

  /** Strengths and points of care come in pairs: the i-th of each belongs
      to the same rule of the table, and that rule fired. */
  lemma {:induction false} AdviceInPairs(n: Norm, axes: seq<Axis>, rules: seq<Rule>, i: nat)
    requires i <= |rules| && forall r :: r in rules ==> r.axis < |axes|
    ensures forall r :: r in FiredUpTo(n, axes, rules, i) ==> r in rules && Fires(n, axes, r)
  {
    if i > 0 {
      AdviceInPairs(n, axes, rules, i - 1);
      var r := rules[i - 1];
      assert FiredUpTo(n, axes, rules, i)
        == FiredUpTo(n, axes, rules, i - 1) + (if Fires(n, axes, r) then [r] else []);
    }
  }

  /** Every rule among the first `i` that fires is collected: no `add` call
      whose condition holds is lost. */
  lemma {:induction false} AdviceComplete(n: Norm, axes: seq<Axis>, rules: seq<Rule>, i: nat)
    requires i <= |rules| && forall r :: r in rules ==> r.axis < |axes|
    ensures forall k :: 0 <= k < i && Fires(n, axes, rules[k]) ==> rules[k] in FiredUpTo(n, axes, rules, i)
  {
    if i > 0 {
      AdviceComplete(n, axes, rules, i - 1);
      var r := rules[i - 1];
      var prev, fired := FiredUpTo(n, axes, rules, i - 1), FiredUpTo(n, axes, rules, i);
      if Fires(n, axes, r) {
        assert fired == prev + [r];
      } else {
        assert fired == prev;
      }
      forall k | 0 <= k < i - 1 && Fires(n, axes, rules[k])
        ensures rules[k] in fired
      {
        assert rules[k] in prev;
      }
    }
  }

  /** The number of the first `j` axes whose value lies more than 0.2 away
      from 0. */
  function StrongAxes(n: Norm, axes: seq<Axis>, j: nat): (c: nat)
    requires j <= |axes|
    ensures c <= j
  {
    if j == 0 then 0 else StrongAxes(n, axes, j - 1) + (if Abs(AxisValue(n, axes, j - 1)) > 0.2 then 1 else 0)
  }

  /** An axis cannot lie beyond 0.2 on both sides, so each axis yields one
      strength and one point of care when its value is more than 0.2 away
      from 0, and none otherwise. */
  lemma {:induction false} AdviceCount(n: Norm, axes: seq<Axis>, rules: seq<Rule>, j: nat)
    requires PairedRules(rules, axes) && j <= |axes|
    requires forall r :: r in rules ==> r.axis < |axes|
    ensures |FiredUpTo(n, axes, rules, 2 * j)| == StrongAxes(n, axes, j)
  {
    if j > 0 {
      AdviceCount(n, axes, rules, j - 1);
      var k := j - 1;
      assert rules[2 * k].axis == k && rules[2 * k].above;
      assert rules[2 * k + 1].axis == k && !rules[2 * k + 1].above;
      assert 2 * j - 1 == 2 * k + 1;
    }
  }

  // ---- The text

  const ThemeJa: map<string, string> := map[
    StudentUniform := "落ち着いた学生風の雰囲気",
    FantasyMage := "自由で創造的な雰囲気"
  ]

  const ColorJa: map<string, string> := map[
    PastelPink := "パステルピンク",
    MintGreen := "ミントグリーン",
    NavyBlue := "ネイビーブルー",
    Lavender := "ラベンダー"
  ]

  const VibeJaTable: map<string, string> := map[
    Cheerful := "明るく社交的",
    Calm := "落ち着いて思慮深い",
    CoolAndSharp := "論理的でキレがある",
    CuteAndFriendly := "親しみやすく思いやりがある",
    Balanced := "バランスの取れた"
  ]

  /** `table.get(v, v)`: the Japanese wording, or the value itself. */
  function Ja(table: map<string, string>, v: string): string {
    if v in table then table[v] else v
  }

  function VibeJa(vibe: seq<string>): (r: seq<string>)
    ensures |r| == |vibe|
  {
    if vibe == [] then [] else [Ja(VibeJaTable, vibe[0])] + VibeJa(vibe[1..])
  }

  /** The first sentence: the tendencies joined by "で", or a balanced
      reading, extended by the vibe when there is one. */
  function Opening(descs: seq<string>, vibeJp: string): (s1: string)
    ensures |s1| >= 5 && s1[..5] == "あなたは、"
  {
    WithVibe(Reading(descs), vibeJp)
  }

  function Reading(descs: seq<string>): (s: string)
    ensures |s| >= 5 && s[..5] == "あなたは、"
  {
    if descs != [] then "あなたは、" + Join(descs, "で") + "な傾向があります。"
    else "あなたは、各面でバランスが取れています。"
  }

  /** `if s1.endswith("。"): s1 = s1[:-1]`, then the vibe sentence. */
  function WithVibe(s: string, vibeJp: string): (s1: string)
    requires |s| >= 5 && s[..5] == "あなたは、"
    ensures |s1| >= 5 && s1[..5] == "あなたは、"
  {
    if vibeJp != "" then
      var base := if s[|s| - 1] == '。' then s[..|s| - 1] else s;
      assert base[..5] == s[..5];
      base + ("。雰囲気は" + vibeJp + "です。")
    else s
  }

  /** The second sentence: the first two strengths joined by "と", or a
      default one. */
  function Praise(strengths: seq<string>): string {
    var core := if strengths == [] then ["状況に応じて柔軟に動けること"] else strengths[..Min2(|strengths|)];
    "とてもいい点は、" + Join(core, "と") + "です。"
  }

  /** The third sentence: the first two points of care joined by "、", or a
      default one, then the theme and the colour when present. */
  function Caution(cautions: seq<string>, theme: string, color: string): (s3: string)
    ensures |s3| > 0 && s3[|s3| - 1] == '。'
  {
    var core := if cautions == [] then ["得意な型に寄りすぎないこと"] else cautions[..Min2(|cautions|)];
    var tone := (if theme != "" then ["全体のトーンは" + theme] else [])
      + (if color != "" then ["基調色は" + color] else []);
    var tail := if tone != [] then Join(tone, "。") + "。" else "。";
    "しかし、気を付けるべきポイントは、" + Join(core, "、") + "です" + tail
  }

  /** The three sentences, separated by spaces, before `strip()`. */
  function Sentences(p: Profile): string {
    Opening(Descriptions(p.norm), Join(VibeJa(p.vibe), "、")) + Rest(p)
  }

  /** Everything after the first sentence. */
  function Rest(p: Profile): (r: string)
    ensures |r| > 0 && r[|r| - 1] == '。'
  {
    var s3 := Caution(Cautions(p.norm), Ja(ThemeJa, p.theme), Ja(ColorJa, p.color));
    " " + Praise(Strengths(p.norm)) + " " + s3
  }

  /** The summary of `_fallback_summary(profile)`. */
  function SummaryText(p: Profile): string {
    Trim(Sentences(p))
  }

  /** The final `strip()` changes nothing: the summary starts with
      "あなたは" and ends with "。". */
  lemma SummaryUntrimmed(p: Profile)
    ensures SummaryText(p) == Sentences(p)
  {
    Untrimmed(Opening(Descriptions(p.norm), Join(VibeJa(p.vibe), "、")), Rest(p));
  }

  lemma Untrimmed(s1: string, rest: string)
    requires |s1| >= 5 && s1[..5] == "あなたは、"
    requires |rest| > 0 && rest[|rest| - 1] == '。'
    ensures Trim(s1 + rest) == s1 + rest
  {
    var s := s1 + rest;
    assert s[0] == s1[..5][0];
    assert s[|s| - 1] == rest[|rest| - 1];
    TrimOfTrimmed(s);
  }

  /** Every tendency the summary names is written out in it. */
  lemma SummaryNamesTendencies(p: Profile, k: nat)
    requires k < |Descriptions(p.norm)|
    ensures exists at: nat :: ContainsAt(SummaryText(p), Descriptions(p.norm)[k], at)
  {
    var descs := Descriptions(p.norm);
    var vibeJp := Join(VibeJa(p.vibe), "、");
    SummaryUntrimmed(p);
    var at := ReadingNames(descs, k);
    VibeKeeps(Reading(descs), vibeJp, descs[k], at);
    ContainsLeft(Opening(descs, vibeJp), Rest(p), descs[k], at);
  }

  /** The reading writes out every tendency it is given, before its final
      "。". */
  lemma ReadingNames(descs: seq<string>, k: nat) returns (at: nat)
    requires k < |descs|
    ensures ContainsAt(Reading(descs), descs[k], at) && at + |descs[k]| < |Reading(descs)|
  {
    JoinContainsEach(descs, "で", k);
    var j: nat :| ContainsAt(Join(descs, "で"), descs[k], j);
    at := InfixNames("あなたは、", Join(descs, "で"), "な傾向があります。", descs[k], j);
  }

  /** A piece of the middle of three strings occurs in their concatenation
      before the last one starts. */
  lemma InfixNames(lead: string, mid: string, tail: string, needle: string, j: nat) returns (at: nat)
    requires ContainsAt(mid, needle, j) && tail != []
    ensures ContainsAt(lead + mid + tail, needle, at) && at + |needle| < |lead + mid + tail|
  {
    ContainsRight(lead, mid, needle, j);
    ContainsLeft(lead + mid, tail, needle, |lead| + j);
    at := |lead| + j;
  }

  /** Adding the vibe keeps every piece that ends before the last
      character. */
  lemma VibeKeeps(s: string, vibeJp: string, needle: string, at: nat)
    requires |s| >= 5 && s[..5] == "あなたは、"
    requires ContainsAt(s, needle, at) && at + |needle| < |s|
    ensures ContainsAt(WithVibe(s, vibeJp), needle, at)
  {
    if vibeJp != "" {
      var base := if s[|s| - 1] == '。' then s[..|s| - 1] else s;
      ContainsCut(s, |base|, needle, at);
      assert s[..|base|] == base;
      ContainsLeft(base, "。雰囲気は" + vibeJp + "です。", needle, at);
    }
  }

  /** `_fallback_summary`: collect the tendencies axis by axis, sort them,
      keep the first two descriptions, collect strengths and points of care
      rule by rule, and write the three sentences. */
  method FallbackSummary(p: Profile) returns (text: string)
    ensures text == SummaryText(p)
  {
    var n := p.norm;
    AxesWorded();
    RulesPaired();
    PairedRulesAxes(Rules, Axes);
    var pairs := CollectTendencies(n, Axes);
    pairs := SortByWeight(pairs);
    var descs := Texts(pairs[..Min2(|pairs|)]);
    assert descs == Descriptions(n);
    var strengths, cautions := CollectAdvice(n, Axes, Rules);
    var s1 := Opening(descs, Join(VibeJa(p.vibe), "、"));
    var s2 := Praise(strengths);
    var s3 := Caution(cautions, Ja(ThemeJa, p.theme), Ja(ColorJa, p.color));
    text := Trim(s1 + (" " + s2 + " " + s3));
  }

  /** The loop over `axes`, appending `(abs(v), adj)` for every axis with a
      non-empty description. */
  method CollectTendencies(n: Norm, axes: seq<Axis>) returns (pairs: seq<Tendency>)
    requires WordedAxes(axes)
    ensures pairs == TendenciesUpTo(n, axes, |axes|)
  {
    pairs := [];
    for i := 0 to |axes|
      invariant pairs == TendenciesUpTo(n, axes, i)
    {
      var v := NormOf(n, axes[i].key);
      var a := Adj(v, axes[i].left, axes[i].right);
      if a != "" {
        pairs := pairs + [Tendency(Abs(v), i, a)];
      }
    }
  }

  /** The `add` calls, in order: each rule that fires appends its strength
      and its point of care. */
  method CollectAdvice(n: Norm, axes: seq<Axis>, rules: seq<Rule>) returns (strengths: seq<string>, cautions: seq<string>)
    requires forall r :: r in rules ==> r.axis < |axes|
    ensures strengths == Goods(FiredUpTo(n, axes, rules, |rules|))
    ensures cautions == Cares(FiredUpTo(n, axes, rules, |rules|))
  {
    strengths, cautions := [], [];
    for i := 0 to |rules|
      invariant strengths == Goods(FiredUpTo(n, axes, rules, i))
      invariant cautions == Cares(FiredUpTo(n, axes, rules, i))
    {
      var r := rules[i];
      var fired := if Fires(n, axes, r) then [r] else [];
      GoodsCaresAppend(FiredUpTo(n, axes, rules, i), fired);
      if Fires(n, axes, r) {
        strengths := strengths + [r.good];
        cautions := cautions + [r.care];
      }
    }
  }
}
