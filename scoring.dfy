/** The answer-scoring loop of the quiz submission (app.py): every trait
    starts at 0, and each answer adds twice the Likert weight of its
    (clamped) choice to its own trait, if that trait is one of the four. */
module Scoring {
  import opened Wrappers
  import Profile

  /** One submitted answer: `str(a.get("trait_id") or "")` and the
      `choice_index` field, `None` when the answer does not carry one. */
  datatype Answer = Answer(traitId: string, choice: Option<int>)

  /** `FIVE_CHOICES_SCORES`. */
  const FiveChoicesScores: seq<int> := [-2, -1, 0, 1, 2]

  /** `max(0, min(4, choice))`, the missing choice read as the middle one. */
  function ChoiceIndex(choice: Option<int>): (i: nat)
    ensures i <= 4
    ensures choice.None? ==> i == 2
    ensures choice.Some? && 0 <= choice.value <= 4 ==> i == choice.value
    ensures choice.Some? && choice.value < 0 ==> i == 0
    ensures choice.Some? && choice.value > 4 ==> i == 4
  {
    var c := choice.GetOr(2);
    if c < 0 then 0 else if c > 4 then 4 else c
  }

  /** What one answer adds to its trait. */
  function Contribution(a: Answer): (w: int)
    ensures w in {-4, -2, 0, 2, 4}
    ensures w == 2 * (ChoiceIndex(a.choice) - 2)
  {
    FiveChoicesScores[ChoiceIndex(a.choice)] * 2
  }

  /** The total the answers give trait `t`: the contributions of the answers
      whose trait id is `t`, in the order they were given. */
  function TraitTotal(answers: seq<Answer>, t: string): int
  {
    if answers == [] then 0
    else
      var last := answers[|answers| - 1];
      TraitTotal(answers[..|answers| - 1], t) + (if last.traitId == t then Contribution(last) else 0)
  }

  /** The number of answers given for trait `t`. */
  function CountFor(answers: seq<Answer>, t: string): nat
  {
    if answers == [] then 0
    else CountFor(answers[..|answers| - 1], t) + (if answers[|answers| - 1].traitId == t then 1 else 0)
  }

  /** The scores the loop builds: exactly the four traits, each holding its
      total. */
  function Scores(answers: seq<Answer>): (scores: map<string, int>)
    ensures scores.Keys == set t | t in Profile.TraitIds
    ensures forall t :: t in scores ==> scores[t] == TraitTotal(answers, t)
  {
    map t | t in Profile.TraitIds :: TraitTotal(answers, t)
  }

  /** The loop of the submission handler: start every trait at 0, and for
      each answer in turn add its contribution to its trait when the trait
      is known. */
  method AccumulateScores(answers: seq<Answer>) returns (scores: map<string, int>)
    ensures scores == Scores(answers)
  {
    scores := map t | t in Profile.TraitIds :: 0;
    var i := 0;
    while i < |answers|
      invariant 0 <= i <= |answers|
      invariant forall t :: t in scores <==> t in Profile.TraitIds
      invariant forall t :: t in scores ==> scores[t] == TraitTotal(answers[..i], t)
    {
      var a := answers[i];
      assert answers[..i + 1] == answers[..i] + [a];
      forall t {
        OwnTraitOnly(answers[..i], a, t);
      }
      if a.traitId in scores {
        scores := scores[a.traitId := scores[a.traitId] + Contribution(a)];
      }
      i := i + 1;
    }
    assert answers[..i] == answers;
  }

  /** Totals add up over consecutive batches of answers: each answer counts
      once, towards its own trait, wherever it stands. */
  lemma {:induction false} TraitTotalAppend(xs: seq<Answer>, ys: seq<Answer>, t: string)
    ensures TraitTotal(xs + ys, t) == TraitTotal(xs, t) + TraitTotal(ys, t)
    decreases |ys|
  {
    if ys == [] {
      assert xs + ys == xs;
    } else {
      assert (xs + ys)[..|xs + ys| - 1] == xs + ys[..|ys| - 1];
      TraitTotalAppend(xs, ys[..|ys| - 1], t);
    }
  }

  /** An answer whose trait id is not one of the four changes no score. */
  lemma UnknownTraitIgnored(answers: seq<Answer>, a: Answer)
    requires a.traitId !in Profile.TraitIds
    ensures Scores(answers + [a]) == Scores(answers)
  {
    forall t | t in Profile.TraitIds
      ensures TraitTotal(answers + [a], t) == TraitTotal(answers, t)
    {
      TraitTotalAppend(answers, [a], t);
      assert [a][..0] == [];
    }
  }

  /** An answer changes its own trait only, and by its contribution. */
  lemma OwnTraitOnly(answers: seq<Answer>, a: Answer, t: string)
    ensures TraitTotal(answers + [a], t) == TraitTotal(answers, t) + (if a.traitId == t then Contribution(a) else 0)
  {
    assert (answers + [a])[..|answers|] == answers;
  }

  /** Each trait's score lies within ±4 per answer given for it. */
  lemma {:induction false} TraitTotalBounds(answers: seq<Answer>, t: string)
    ensures -4 * CountFor(answers, t) <= TraitTotal(answers, t) <= 4 * CountFor(answers, t)
  {
    if answers != [] {
      TraitTotalBounds(answers[..|answers| - 1], t);
    }
  }

  /** No trait counts more answers than were given, so every score lies
      within ±4 per answer. */
  lemma {:induction false} ScoreBounds(answers: seq<Answer>, t: string)
    ensures CountFor(answers, t) <= |answers|
    ensures -4 * |answers| <= TraitTotal(answers, t) <= 4 * |answers|
  {
    if answers != [] {
      ScoreBounds(answers[..|answers| - 1], t);
    }
  }
}
