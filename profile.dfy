/** The profile deriver of the quiz backend (app.py): four trait scores are
    normalised to [-1, 1] and turned into a profile (vibe tags, theme,
    details, colour), a text-to-3D prompt pair and three summary lines; the
    requested art style is mapped onto the two styles the 3D service
    accepts; and the legacy MBTI request is turned into ±1 scores for the
    same deriver. Everything here is a pure function. */
module Profile {
  import opened Wrappers
  import opened Text

  // ---- Art style

  const Realistic: string := "realistic"
  const Sculpture: string := "sculpture"

  /** The styles the 3D service accepts, and the older names that are sent
      as "realistic" instead. */
  const AllowedArtStyles: set<string> := {Realistic, Sculpture}
  const StyleFallbacks: map<string, string> :=
    map["cartoon" := Realistic, "lowpoly" := Realistic, "anime" := Realistic, "toon" := Realistic]

  /** Every fallback name is sent as "realistic". */
  lemma FallbacksAreRealistic()
    ensures forall k :: k in StyleFallbacks ==> StyleFallbacks[k] == Realistic
    ensures Realistic != Sculpture
  {
    assert Realistic[0] != Sculpture[0];
  }

  /** `normalize_art_style`: a missing or empty style is "realistic";
      otherwise the trimmed, lower-cased style is kept when allowed, mapped
      through the fallbacks when known, and "realistic" otherwise. */
  function NormalizeArtStyle(s: Option<string>): (r: string)
    ensures r == Realistic || r == Sculpture
    ensures s.None? || s == Some("") ==> r == Realistic
    ensures r == Sculpture <==> s.Some? && Lower(Trim(s.value)) == Sculpture
  {
    FallbacksAreRealistic();
    if s.None? || s.value == "" then Realistic
    else
      var t := Lower(Trim(s.value));
      if t in AllowedArtStyles then t
      else if t in StyleFallbacks then StyleFallbacks[t]
      else Realistic
  }

  /** A word of small ASCII letters is its own trimmed, lower-cased form. */
  lemma LowercaseFixed(w: string)
    requires forall k :: 0 <= k < |w| ==> 'a' <= w[k] <= 'z'
    ensures Lower(Trim(w)) == w
  {
    if w != [] {
      assert !IsSpace(w[0]) && !IsSpace(w[|w| - 1]);
    }
    TrimOfTrimmed(w);
    LowerOfLowercase(w);
  }

  /** Each accepted style is already trimmed and lower-case. */
  lemma NormalizedStyleIsFixed(r: string)
    requires r == Realistic || r == Sculpture
    ensures Lower(Trim(r)) == r
  {
    if r == Realistic {
      LowercaseFixed("realistic");
    } else {
      LowercaseFixed("sculpture");
    }
  }

  /** Normalising twice changes nothing: the result is already one of the
      accepted styles, in its own normal form. */
  lemma {:induction false} NormalizeArtStyleIdempotent(s: Option<string>)
    ensures NormalizeArtStyle(Some(NormalizeArtStyle(s))) == NormalizeArtStyle(s)
  {
    var r := NormalizeArtStyle(s);
    NormalizedStyleIsFixed(r);
  }

  // ---- Scores and their normalisation

  /** The four personality axes, in the order the code lists them. */
  const TraitIds: seq<string> := ["energy", "imagination", "decision", "order"]

  type Scores = map<string, int>
  type Norm = map<string, real>

  /** `max(-1.0, min(1.0, x))`. */
  function Clamp(x: real): (r: real)
    ensures -1.0 <= r <= 1.0
    ensures -1.0 <= x <= 1.0 ==> r == x
    ensures x > 1.0 ==> r == 1.0
    ensures x < -1.0 ==> r == -1.0
  {
    max(-1.0, min(1.0, x))
  }

  function min(a: real, b: real): real { if a <= b then a else b }
  function max(a: real, b: real): real { if a >= b then a else b }

  /** The normalised value of one integer score, `v / 20.0` clamped. */
  function NormValue(v: int): real {
    Clamp(v as real / 20.0)
  }

  /** `norm.get(k, 0)`: traits the scores do not mention read as 0. */
  function NormOf(n: Norm, k: string): real {
    if k in n then n[k] else 0.0
  }

  /** The integer score of a trait, 0 when absent. */
  function ScoreOf(scores: Scores, k: string): int {
    if k in scores then scores[k] else 0
  }

  /** The thresholds the deriver uses on normalised values, read back as
      thresholds on the integer score. Python compares doubles here; for an
      integer v, v / 20.0 is compared with 0.2 and 0.3 exactly as the reals
      are, so these hold of the source as well. */
  lemma NormThresholds(v: int)
    ensures NormValue(v) > 0.2 <==> v > 4
    ensures NormValue(v) < -0.2 <==> v < -4
    ensures NormValue(v) >= 0.3 <==> v >= 6
    ensures NormValue(v) > 0.3 <==> v > 6
    ensures NormValue(v) < -0.3 <==> v < -6
    ensures NormValue(v) > 0.0 <==> v > 0
    ensures NormValue(v) <= 0.0 <==> v <= 0
  {
  }

  // ---- Profile

  datatype Profile = Profile(vibe: seq<string>, theme: string, details: string, color: string, norm: Norm)

  const Cheerful: string := "cheerful"
  const Calm: string := "calm"
  const CoolAndSharp: string := "cool and sharp"
  const CuteAndFriendly: string := "cute and friendly"
  const Balanced: string := "balanced"
  const FantasyMage: string := "fantasy mage"
  const StudentUniform: string := "student uniform"
  const Tidy: string := "tidy and organized outfit"
  const Playful: string := "playful accessories"
  const PastelPink: string := "pastel pink"
  const MintGreen: string := "mint green"
  const NavyBlue: string := "navy blue"
  const Lavender: string := "lavender"

  /** The tags an energy or decision score can contribute. */
  predicate IsEnergyTag(t: string) { t == Cheerful || t == Calm }
  predicate IsDecisionTag(t: string) { t == CoolAndSharp || t == CuteAndFriendly }

  /** The five vibe tags are pairwise distinct. */
  lemma VibeTagsDistinct()
    ensures Cheerful != Calm && Cheerful != Balanced && Calm != Balanced
    ensures CoolAndSharp != CuteAndFriendly && CoolAndSharp != Balanced && CuteAndFriendly != Balanced
    ensures !IsEnergyTag(CoolAndSharp) && !IsEnergyTag(CuteAndFriendly)
    ensures !IsDecisionTag(Cheerful) && !IsDecisionTag(Calm)
  {
    assert Cheerful[0] != Balanced[0];
  }

  /** The energy tag: "cheerful" above 0.2, "calm" below -0.2. */
  function EnergyTag(e: real): seq<string> {
    if e > 0.2 then [Cheerful] else if e < -0.2 then [Calm] else []
  }

  /** The decision tag: "cool and sharp" above 0.2, "cute and friendly" below -0.2. */
  function DecisionTag(d: real): seq<string> {
    if d > 0.2 then [CoolAndSharp] else if d < -0.2 then [CuteAndFriendly] else []
  }

  /** The vibe list: at most one energy tag followed by at most one decision
      tag, or the single tag "balanced" when neither axis is past ±0.2. */
  function Vibe(e: real, d: real): (v: seq<string>)
    ensures 1 <= |v| <= 2
    ensures Cheerful in v <==> e > 0.2
    ensures Calm in v <==> e < -0.2
    ensures CoolAndSharp in v <==> d > 0.2
    ensures CuteAndFriendly in v <==> d < -0.2
    ensures v == [Balanced] <==> -0.2 <= e <= 0.2 && -0.2 <= d <= 0.2
    ensures (e > 0.2 || e < -0.2) <==> IsEnergyTag(v[0])
    ensures (d > 0.2 || d < -0.2) <==> IsDecisionTag(v[|v| - 1])
    ensures |v| == 2 ==> IsEnergyTag(v[0]) && IsDecisionTag(v[1])
  {
    VibeTagsDistinct();
    var v := EnergyTag(e) + DecisionTag(d);
    if v == [] then [Balanced] else v
  }

  /** The colour table on (energy, decision): four quadrants split at
      energy 0.3 and decision 0. */
  function ColorOf(e: real, d: real): (c: string)
    ensures c == PastelPink <==> e >= 0.3 && d <= 0.0
    ensures c == MintGreen <==> e >= 0.3 && d > 0.0
    ensures c == NavyBlue <==> e < 0.3 && d > 0.0
    ensures c == Lavender <==> e < 0.3 && d <= 0.0
  {
    if e >= 0.3 && d <= 0.0 then PastelPink
    else if e >= 0.3 && d > 0.0 then MintGreen
    else if e < 0.3 && d > 0.0 then NavyBlue
    else Lavender
  }

  /** `scores_to_profile`: every given trait is normalised, and the vibe,
      theme, details and colour are read off the normalised energy,
      imagination, decision and order (0 when absent). */
  function ScoresToProfile(scores: Scores): (p: Profile)
    ensures p.norm.Keys == scores.Keys
    ensures forall k :: k in scores ==> p.norm[k] == NormValue(scores[k]) && -1.0 <= p.norm[k] <= 1.0
    ensures forall k :: NormOf(p.norm, k) == NormValue(ScoreOf(scores, k))
    ensures p.vibe == Vibe(NormOf(p.norm, "energy"), NormOf(p.norm, "decision"))
    ensures p.theme == FantasyMage <==> NormOf(p.norm, "imagination") > 0.0
    ensures p.theme == StudentUniform <==> NormOf(p.norm, "imagination") <= 0.0
    ensures p.details == Tidy <==> NormOf(p.norm, "order") > 0.0
    ensures p.details == Playful <==> NormOf(p.norm, "order") <= 0.0
    ensures p.color == ColorOf(NormOf(p.norm, "energy"), NormOf(p.norm, "decision"))
  {
    var norm := map k | k in scores :: NormValue(scores[k]);
    assert NormValue(0) == 0.0;
    assert FantasyMage != StudentUniform && Tidy != Playful;
    var e := NormOf(norm, "energy");
    var d := NormOf(norm, "decision");
    Profile(
      Vibe(e, d),
      if NormOf(norm, "imagination") > 0.0 then FantasyMage else StudentUniform,
      if NormOf(norm, "order") > 0.0 then Tidy else Playful,
      ColorOf(e, d),
      norm)
  }

  /** The profile read directly off the integer scores: the deriver's real
      thresholds are integer thresholds on the raw scores. */
  lemma ProfileByScores(scores: Scores)
    ensures var p, e, d := ScoresToProfile(scores), ScoreOf(scores, "energy"), ScoreOf(scores, "decision");
      && (Cheerful in p.vibe <==> e > 4)
      && (Calm in p.vibe <==> e < -4)
      && (CoolAndSharp in p.vibe <==> d > 4)
      && (CuteAndFriendly in p.vibe <==> d < -4)
      && (p.vibe == [Balanced] <==> -4 <= e <= 4 && -4 <= d <= 4)
      && (p.theme == FantasyMage <==> ScoreOf(scores, "imagination") > 0)
      && (p.details == Tidy <==> ScoreOf(scores, "order") > 0)
      && (p.color == PastelPink <==> e >= 6 && d <= 0)
      && (p.color == MintGreen <==> e >= 6 && d > 0)
      && (p.color == NavyBlue <==> e < 6 && d > 0)
      && (p.color == Lavender <==> e < 6 && d <= 0)
  {
    NormThresholds(ScoreOf(scores, "energy"));
    NormThresholds(ScoreOf(scores, "decision"));
    NormThresholds(ScoreOf(scores, "imagination"));
    NormThresholds(ScoreOf(scores, "order"));
  }

  /** The first worked example of the design notes: extreme scores. */
  lemma ExtremeScoresExample()
    ensures var p := ScoresToProfile(map["energy" := 20, "imagination" := -20, "decision" := 20, "order" := -20]);
      && p.norm == map["energy" := 1.0, "imagination" := -1.0, "decision" := 1.0, "order" := -1.0]
      && p.vibe == [Cheerful, CoolAndSharp]
      && p.theme == StudentUniform && p.details == Playful && p.color == MintGreen
  {
  }

  /** The second worked example: all-zero scores. */
  lemma ZeroScoresExample()
    ensures var p := ScoresToProfile(map["energy" := 0, "imagination" := 0, "decision" := 0, "order" := 0]);
      && p.vibe == [Balanced] && p.theme == StudentUniform && p.details == Playful && p.color == Lavender
  {
  }

  // ---- Prompt

  const NegativePrompt: string :=
    "super-deformed, chibi, 2.5-heads, big head small body, low quality, low resolution, low poly, deformed hands, extra limbs, photorealistic"

  /** The nine prompt fragments, in order: three fixed ones about a riggable
      humanoid, the vibe tags, the colour scheme, the theme, the details and
      two fixed ones about style and framing. */
  function PromptFragments(p: Profile): seq<string> {
    [ "humanoid bipedal character, humanlike proportions",
      "clear limbs and joints, rig-friendly topology",
      "standing A or T-pose, facing front",
      Join(p.vibe, ", "),
      p.color + " color scheme",
      p.theme,
      p.details,
      "anime or stylized, cel-shaded, clean topology",
      "single character, full-body" ]
  }

  /** `profile_to_prompt`: the fragments joined by ", ", and a negative
      prompt that does not depend on the profile. */
  function ProfileToPrompt(p: Profile): (r: (string, string))
    ensures r.1 == NegativePrompt
    ensures exists at: nat :: ContainsAt(r.0, Join(p.vibe, ", "), at)
    ensures exists at: nat :: ContainsAt(r.0, p.color + " color scheme", at)
    ensures exists at: nat :: ContainsAt(r.0, p.theme, at)
    ensures exists at: nat :: ContainsAt(r.0, p.details, at)
  {
    var fs := PromptFragments(p);
    JoinContainsEach(fs, ", ", 3);
    JoinContainsEach(fs, ", ", 4);
    JoinContainsEach(fs, ", ", 5);
    JoinContainsEach(fs, ", ", 6);
    (Join(fs, ", "), NegativePrompt)
  }

  // ---- Summary lines

  datatype Leaning = LeansLeft | LeansRight | Even

  /** How one axis reads in the summary: past ±0.3 it leans, else it is even. */
  function LeaningOf(v: real): Leaning {
    if v > 0.3 then LeansRight else if v < -0.3 then LeansLeft else Even
  }

  /** The summary's wording of one axis: "<side>寄り" or "バランス型". */
  function SideText(l: Leaning, left: string, right: string): string {
    match l
    case LeansRight => right + "寄り"
    case LeansLeft => left + "寄り"
    case Even => "バランス型"
  }

  /** A line of two axes, `a + x + (b + y)`: both sides are written out. */
  function AxesLine(a: string, x: string, b: string, y: string): (line: string)
    ensures ContainsAt(line, x, |a|)
    ensures ContainsAt(line, y, |a + x| + |b|)
  {
    ContainsInfix(a, x, b + y);
    ContainsInfix(b, y, []);
    assert b + y + [] == b + y;
    ContainsRight(a + x, b + y, y, |b|);
    a + x + (b + y)
  }

  /** The last summary line: the joined vibe, the theme and the colour are
      written out. */
  function LookLine(vibe: string, theme: string, color: string): (line: string)
    ensures ContainsAt(line, vibe, |"雰囲気は "|)
    ensures exists at: nat :: ContainsAt(line, theme, at)
    ensures exists at: nat :: ContainsAt(line, color, at)
  {
    var colorPart := "、基調色は " + color + "。";
    var themePart := "、テーマは " + theme + colorPart;
    ContainsInfix("雰囲気は ", vibe, themePart);
    ContainsInfix("、テーマは ", theme, colorPart);
    ContainsRight("雰囲気は " + vibe, themePart, theme, |"、テーマは "|);
    ContainsInfix("、基調色は ", color, "。");
    ContainsRight("、テーマは " + theme, colorPart, color, |"、基調色は "|);
    ContainsRight("雰囲気は " + vibe, themePart, color, |"、テーマは " + theme| + |"、基調色は "|);
    "雰囲気は " + vibe + themePart
  }

  /** `scores_to_summary_lines`: the energy and imagination axes, the
      decision and order axes, and the vibe, theme and colour. */
  function ScoresToSummaryLines(p: Profile): (lines: seq<string>)
    ensures |lines| == 3
    ensures exists at: nat :: ContainsAt(lines[0], SideText(LeaningOf(NormOf(p.norm, "energy")), "内向", "外向"), at)
    ensures exists at: nat :: ContainsAt(lines[0], SideText(LeaningOf(NormOf(p.norm, "imagination")), "現実", "直感"), at)
    ensures exists at: nat :: ContainsAt(lines[1], SideText(LeaningOf(NormOf(p.norm, "decision")), "感情", "論理"), at)
    ensures exists at: nat :: ContainsAt(lines[1], SideText(LeaningOf(NormOf(p.norm, "order")), "柔軟", "計画"), at)
    ensures exists at: nat :: ContainsAt(lines[2], Join(p.vibe, ", "), at)
    ensures exists at: nat :: ContainsAt(lines[2], p.theme, at)
    ensures exists at: nat :: ContainsAt(lines[2], p.color, at)
  {
    var n := p.norm;
    var energy := SideText(LeaningOf(NormOf(n, "energy")), "内向", "外向");
    var imagination := SideText(LeaningOf(NormOf(n, "imagination")), "現実", "直感");
    var decision := SideText(LeaningOf(NormOf(n, "decision")), "感情", "論理");
    var order := SideText(LeaningOf(NormOf(n, "order")), "柔軟", "計画");
    var lines := [
      AxesLine("エネルギー: ", energy, " / 発想: ", imagination),
      AxesLine("判断: ", decision, " / 進め方: ", order),
      LookLine(Join(p.vibe, ", "), p.theme, p.color)];
    assert ContainsAt(lines[0], energy, |"エネルギー: "|);
    assert ContainsAt(lines[0], imagination, |"エネルギー: " + energy| + |" / 発想: "|);
    assert ContainsAt(lines[1], decision, |"判断: "|);
    assert ContainsAt(lines[1], order, |"判断: " + decision| + |" / 進め方: "|);
    assert ContainsAt(lines[2], Join(p.vibe, ", "), |"雰囲気は "|);
    lines
  }

  /** An axis leans right exactly when its raw score is above 6, left
      exactly when it is below -6, and is even otherwise. */
  lemma LeaningByScore(v: int)
    ensures LeaningOf(NormValue(v)) == LeansRight <==> v > 6
    ensures LeaningOf(NormValue(v)) == LeansLeft <==> v < -6
    ensures LeaningOf(NormValue(v)) == Even <==> -6 <= v <= 6
  {
    NormThresholds(v);
  }

  // ---- Legacy MBTI request

  /** The scores of the legacy request: the type string (upper-cased,
      "ENFP" when missing or empty) gives each axis +1 or -1 according to
      whether it contains E, N, T and J. */
  function MbtiScores(mbti: Option<string>): (scores: Scores)
    ensures scores.Keys == {"energy", "imagination", "decision", "order"}
    ensures forall k :: k in scores ==> scores[k] == 1 || scores[k] == -1
    // E drives energy, N imagination, T decision and J order
    ensures scores["energy"] == 1 <==> 'E' in MbtiType(mbti)
    ensures scores["imagination"] == 1 <==> 'N' in MbtiType(mbti)
    ensures scores["decision"] == 1 <==> 'T' in MbtiType(mbti)
    ensures scores["order"] == 1 <==> 'J' in MbtiType(mbti)
  {
    var m := MbtiType(mbti);
    map["energy" := Sign('E' in m),
        "imagination" := Sign('N' in m),
        "decision" := Sign('T' in m),
        "order" := Sign('J' in m)]
  }

  /** The type string of the legacy request, upper-cased, "ENFP" when
      missing or empty. */
  function MbtiType(mbti: Option<string>): string {
    Upper(if mbti.None? || mbti.value == "" then "ENFP" else mbti.value)
  }

  /** +1 for a letter that is present, -1 for one that is not. */
  function Sign(b: bool): (v: int)
    ensures v == 1 || v == -1
    ensures v == 1 <==> b
  {
    if b then 1 else -1
  }

  /** Scores of ±1 are far inside every vibe threshold, so a legacy request
      always gets the single "balanced" tag; the theme follows N, the details
      follow J, and the colour is navy blue for T types and lavender
      otherwise. */
  lemma MbtiProfile(mbti: Option<string>)
    ensures var m := MbtiType(mbti);
      var p := ScoresToProfile(MbtiScores(mbti));
      && p.vibe == [Balanced]
      && (p.theme == FantasyMage <==> 'N' in m)
      && (p.details == Tidy <==> 'J' in m)
      && p.color == (if 'T' in m then NavyBlue else Lavender)
  {
    ProfileByScores(MbtiScores(mbti));
  }

  /** With no type given the request is read as ENFP. */
  lemma MbtiDefault()
    ensures var p := ScoresToProfile(MbtiScores(None));
      p.vibe == [Balanced] && p.theme == FantasyMage && p.details == Playful && p.color == Lavender
  {
    var m := MbtiType(None);
    assert m == "ENFP" by {
      UpperOfUppercase("ENFP");
    }
    assert 'N' in m && 'T' !in m && 'J' !in m by {
      assert m[1] == 'N';
    }
    MbtiProfile(None);
  }
}
