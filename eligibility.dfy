/** The scholarship eligibility engine: seven ordered, non-exclusive tiers
    over a grade percentage and an annual family income. */
module Eligibility {

  /** The verdict object: `reason` is filled only when not eligible. */
  datatype Verdict = Verdict(eligible: bool, suggestions: seq<string>, reason: string)

  const Merit := "Merit Scholarship (85%+ grades)"
  const TopPerformer := "Top Performer Scholarship (90%+ grades)"
  const NeedBased := "Need-Based Scholarship (Family income ≤ ₹2.5L)"
  const BelowPovertyLine := "Below Poverty Line Scholarship (Family income ≤ ₹1.5L)"
  const MiddleClassMerit := "Middle Class Merit Scholarship (75%+ grades, income ≤ ₹5L)"
  const SocialWelfare := "Social Welfare Scholarship (60%+ grades, income ≤ ₹2L)"
  const General := "General Scholarship (50%+ grades, income ≤ ₹8L)"

  const GradeTooLow := "Grade percentage below minimum requirement (50%)"
  const IncomeTooHigh := "Family income exceeds eligibility threshold (₹8L/year)"
  const CombinedCriteria := "Does not meet combined eligibility criteria"

  // ---------------------------------------------------------------------
  // The tier table: the specification the engine is proved against
  // ---------------------------------------------------------------------

  const TierCount := 7
  /** A tier, by its position in evaluation order. */
  type Tier = t: nat | t < TierCount
  /** The last tier, whose label is added only when no other label was. */
  const GeneralTier: Tier := 6

  /** Tier labels, in evaluation order. */
  const Labels: seq<string> :=
    [Merit, TopPerformer, NeedBased, BelowPovertyLine, MiddleClassMerit, SocialWelfare, General]

  /** Whether the threshold test of tier t passes. */
  predicate Fires(t: Tier, grade: real, income: real)
  {
    match t
    case 0 => grade >= 85.0
    case 1 => grade >= 90.0
    case 2 => income <= 250000.0
    case 3 => income <= 150000.0
    case 4 => grade >= 75.0 && income <= 500000.0
    case 5 => grade >= 60.0 && income <= 200000.0
    case _ => grade >= 50.0 && income <= 800000.0
  }

  /** Tiers 1 (top performer) and 3 (below poverty line) only add a label. */
  predicate SetsEligible(t: Tier)
  {
    t != 1 && t != 3
  }

  /** Some eligibility-setting tier fires. */
  predicate Eligible(grade: real, income: real)
  {
    exists t: Tier :: SetsEligible(t) && Fires(t, grade, income)
  }

  /** The labels pushed by the tiers below n, in evaluation order. */
  function SuggestedBelow(n: nat, grade: real, income: real): (r: seq<string>)
    requires n <= GeneralTier
    ensures |r| <= n
  {
    if n == 0 then []
    else SuggestedBelow(n - 1, grade, income) + (if Fires(n - 1, grade, income) then [Labels[n - 1]] else [])
  }

  /** The general label is added only when no earlier tier added one. */
  function Suggestions(grade: real, income: real): seq<string>
  {
    var pushed := SuggestedBelow(GeneralTier, grade, income);
    if pushed == [] && Fires(GeneralTier, grade, income) then [General] else pushed
  }

  /** The reason chosen, by priority, when no tier made the applicant eligible. */
  function Reason(grade: real, income: real): string
  {
    if grade < 50.0 then GradeTooLow
    else if income > 800000.0 then IncomeTooHigh
    else CombinedCriteria
  }

  /** The verdict: a reason exactly when not eligible, and at most six suggestions. */
  function Evaluate(grade: real, income: real): (v: Verdict)
    ensures v.reason == "" <==> v.eligible
    ensures |v.suggestions| <= 6
  {
    var eligible := Eligible(grade, income);
    Verdict(eligible, Suggestions(grade, income), if eligible then "" else Reason(grade, income))
  }

  // ---------------------------------------------------------------------
  // The same table by tier index, for reasoning about order
  // ---------------------------------------------------------------------

  /** The tiers below n that fire, in evaluation order. */
  function FiredBelow(n: nat, grade: real, income: real): seq<Tier>
    requires n <= GeneralTier
  {
    if n == 0 then []
    else FiredBelow(n - 1, grade, income) + (if Fires(n - 1, grade, income) then [n - 1] else [])
  }

  /** FiredBelow lists, in increasing order, exactly the tiers below n that fire. */
  lemma {:induction false} FiredBelowExact(n: nat, grade: real, income: real)
    requires n <= GeneralTier
    ensures var r := FiredBelow(n, grade, income);
      |r| <= n &&
      (forall k :: 0 <= k < |r| ==> r[k] < n) &&
      (forall j, k :: 0 <= j < k < |r| ==> r[j] < r[k]) &&
      (forall t: Tier :: t < n ==> (t in r <==> Fires(t, grade, income)))
  {
    if n > 0 {
      FiredBelowExact(n - 1, grade, income);
    }
  }

  /** The tiers whose labels are suggested: the general tier only when no earlier one fired. */
  function SuggestedTiers(grade: real, income: real): seq<Tier>
  {
    var fired := FiredBelow(GeneralTier, grade, income);
    if fired == [] && Fires(GeneralTier, grade, income) then [GeneralTier] else fired
  }

  function LabelsOf(tiers: seq<Tier>): seq<string>
  {
    if tiers == [] then [] else LabelsOf(tiers[..|tiers| - 1]) + [Labels[tiers[|tiers| - 1]]]
  }

  /** LabelsOf names each tier by its label, position by position. */
  lemma {:induction false} LabelsOfAt(tiers: seq<Tier>)
    ensures var r := LabelsOf(tiers);
      |r| == |tiers| && forall k :: 0 <= k < |r| ==> r[k] == Labels[tiers[k]]
  {
    if tiers != [] {
      var init := tiers[..|tiers| - 1];
      LabelsOfAt(init);
      var r := LabelsOf(tiers);
      assert r == LabelsOf(init) + [Labels[tiers[|tiers| - 1]]];
      forall k | 0 <= k < |r| ensures r[k] == Labels[tiers[k]] {
        if k < |init| {
          assert r[k] == LabelsOf(init)[k];
          assert init[k] == tiers[k];
        }
      }
    }
  }

  lemma {:induction false} SuggestedBelowByTier(n: nat, grade: real, income: real)
    requires n <= GeneralTier
    ensures SuggestedBelow(n, grade, income) == LabelsOf(FiredBelow(n, grade, income))
  {
    if n > 0 {
      SuggestedBelowByTier(n - 1, grade, income);
      var fired := FiredBelow(n - 1, grade, income);
      if Fires(n - 1, grade, income) {
        assert (fired + [n - 1])[..|fired|] == fired;
      } else {
        assert FiredBelow(n, grade, income) == fired;
      }
    }
  }

  /** The suggestions are the labels of the suggested tiers. */
  lemma SuggestionsByTier(grade: real, income: real)
    ensures Evaluate(grade, income).suggestions == LabelsOf(SuggestedTiers(grade, income))
  {
    SuggestedBelowByTier(GeneralTier, grade, income);
    LabelsOfAt(FiredBelow(GeneralTier, grade, income));
  }

  // ---------------------------------------------------------------------
  // The engine as the source runs it
  // ---------------------------------------------------------------------

  /** Evaluates the tiers in order, setting `eligible` and pushing labels. */
  method CalculateEligibility(grade: real, income: real) returns (v: Verdict)
    ensures v == Evaluate(grade, income)
  {
    var eligible := false;
    var suggestions: seq<string> := [];
    var reason := "";

    if grade >= 85.0 {
      eligible := true;
      suggestions := suggestions + [Merit];
    }
    assert suggestions == SuggestedBelow(1, grade, income);
    if grade >= 90.0 {
      suggestions := suggestions + [TopPerformer];
    }
    assert suggestions == SuggestedBelow(2, grade, income);
    if income <= 250000.0 {
      eligible := true;
      suggestions := suggestions + [NeedBased];
    }
    assert suggestions == SuggestedBelow(3, grade, income);
    if income <= 150000.0 {
      suggestions := suggestions + [BelowPovertyLine];
    }
    assert suggestions == SuggestedBelow(4, grade, income);
    if grade >= 75.0 && income <= 500000.0 {
      eligible := true;
      suggestions := suggestions + [MiddleClassMerit];
    }
    assert suggestions == SuggestedBelow(5, grade, income);
    if grade >= 60.0 && income <= 200000.0 {
      eligible := true;
      suggestions := suggestions + [SocialWelfare];
    }
    assert suggestions == SuggestedBelow(6, grade, income);
    if grade >= 50.0 && income <= 800000.0 {
      eligible := true;
      if |suggestions| == 0 {
        suggestions := suggestions + [General];
      }
    }

    if !eligible {
      if grade < 50.0 {
        reason := GradeTooLow;
      } else if income > 800000.0 {
        reason := IncomeTooHigh;
      } else {
        reason := CombinedCriteria;
      }
    }
    EligibleIff(grade, income);
    v := Verdict(eligible, suggestions, reason);
  }

  // ---------------------------------------------------------------------
  // Properties of the verdict
  // ---------------------------------------------------------------------

  /** Eligible exactly when one of the five eligibility-setting tiers passes. */
  lemma EligibleIff(grade: real, income: real)
    ensures Evaluate(grade, income).eligible <==>
      grade >= 85.0 || income <= 250000.0 || (grade >= 75.0 && income <= 500000.0) ||
      (grade >= 60.0 && income <= 200000.0) || (grade >= 50.0 && income <= 800000.0)
  {
    if grade >= 85.0 {
      assert SetsEligible(0) && Fires(0, grade, income);
    } else if income <= 250000.0 {
      assert SetsEligible(2) && Fires(2, grade, income);
    } else if grade >= 75.0 && income <= 500000.0 {
      assert SetsEligible(4) && Fires(4, grade, income);
    } else if grade >= 50.0 && income <= 800000.0 {
      assert SetsEligible(6) && Fires(6, grade, income);
    }
  }

  /** The tiers before the general one push nothing exactly when none of them fires. */
  lemma {:induction false} NothingPushed(grade: real, income: real)
    ensures SuggestedBelow(GeneralTier, grade, income) == [] <==>
      !(Fires(0, grade, income) || Fires(1, grade, income) || Fires(2, grade, income) ||
        Fires(3, grade, income) || Fires(4, grade, income) || Fires(5, grade, income))
  {
    assert |SuggestedBelow(1, grade, income)| == if Fires(0, grade, income) then 1 else 0;
    assert |SuggestedBelow(2, grade, income)| ==
      |SuggestedBelow(1, grade, income)| + if Fires(1, grade, income) then 1 else 0;
    assert |SuggestedBelow(3, grade, income)| ==
      |SuggestedBelow(2, grade, income)| + if Fires(2, grade, income) then 1 else 0;
    assert |SuggestedBelow(4, grade, income)| ==
      |SuggestedBelow(3, grade, income)| + if Fires(3, grade, income) then 1 else 0;
    assert |SuggestedBelow(5, grade, income)| ==
      |SuggestedBelow(4, grade, income)| + if Fires(4, grade, income) then 1 else 0;
    assert |SuggestedBelow(6, grade, income)| ==
      |SuggestedBelow(5, grade, income)| + if Fires(5, grade, income) then 1 else 0;
  }

  /** A tier's label is pushed only by that tier, and only when its test passes. */
  lemma {:induction false} PushedOnlyWhenFired(n: nat, t: Tier, grade: real, income: real)
    requires n <= GeneralTier
    ensures Labels[t] in SuggestedBelow(n, grade, income) ==> t < n && Fires(t, grade, income)
  {
    if n > 0 {
      PushedOnlyWhenFired(n - 1, t, grade, income);
      LabelsDistinct();
      assert Labels[n - 1] == Labels[t] ==> n - 1 == t;
    }
  }

  /** Later tiers only add labels after those already pushed. */
  lemma {:induction false} SuggestedBelowGrows(m: nat, n: nat, grade: real, income: real)
    requires m <= n <= GeneralTier
    ensures var early := SuggestedBelow(m, grade, income);
      |early| <= |SuggestedBelow(n, grade, income)| && SuggestedBelow(n, grade, income)[..|early|] == early
    decreases n
  {
    if m < n {
      SuggestedBelowGrows(m, n - 1, grade, income);
      var early := SuggestedBelow(m, grade, income);
      var before := SuggestedBelow(n - 1, grade, income);
      assert SuggestedBelow(n, grade, income)[..|before|] == before;
      assert before[..|early|] == early;
    }
  }

  /** Every tier that sets `eligible` leaves a label behind, and every label comes with eligibility. */
  lemma EligibleIffSuggestions(grade: real, income: real)
    ensures Evaluate(grade, income).eligible <==> |Evaluate(grade, income).suggestions| > 0
  {
    NothingPushed(grade, income);
    EligibleIff(grade, income);
  }

  /** The general label is only ever suggested alone, and exactly when no earlier tier fires. */
  lemma GeneralOnlyAlone(grade: real, income: real)
    ensures var s := Evaluate(grade, income).suggestions;
      (General in s <==> s == [General]) &&
      (s == [General] <==>
        50.0 <= grade < 85.0 && 250000.0 < income <= 800000.0 && (grade < 75.0 || income > 500000.0))
  {
    NothingPushed(grade, income);
    PushedOnlyWhenFired(GeneralTier, GeneralTier, grade, income);
  }

  lemma LabelsDistinct()
    ensures forall i: Tier, j: Tier :: i < j ==> Labels[i] != Labels[j]
  {
  }

  /** The suggestions are the labels of strictly increasing tiers: a subsequence of
      the label list, in tier order, with at most six entries. */
  lemma SuggestionsInTierOrder(grade: real, income: real)
    ensures var tiers := SuggestedTiers(grade, income);
      var s := Evaluate(grade, income).suggestions;
      |tiers| <= 6 &&
      (forall j, k :: 0 <= j < k < |tiers| ==> tiers[j] < tiers[k]) &&
      |s| == |tiers| && (forall k :: 0 <= k < |s| ==> s[k] == Labels[tiers[k]])
  {
    FiredBelowExact(GeneralTier, grade, income);
    SuggestionsByTier(grade, income);
    LabelsOfAt(SuggestedTiers(grade, income));
  }

  /** No label is suggested twice. */
  lemma SuggestionsDistinct(grade: real, income: real)
    ensures var s := Evaluate(grade, income).suggestions;
      forall j, k :: 0 <= j < k < |s| ==> s[j] != s[k]
  {
    var tiers := SuggestedTiers(grade, income);
    var s := Evaluate(grade, income).suggestions;
    SuggestionsInTierOrder(grade, income);
    LabelsDistinct();
    forall j, k | 0 <= j < k < |s| ensures s[j] != s[k] {
      assert s[j] == Labels[tiers[j]] && s[k] == Labels[tiers[k]];
    }
  }

  /** If the top-performer label is suggested, the merit label is suggested first, just before it. */
  lemma TopPerformerFollowsMerit(grade: real, income: real)
    ensures var s := Evaluate(grade, income).suggestions;
      TopPerformer in s ==> |s| >= 2 && s[0] == Merit && s[1] == TopPerformer
  {
    var s := Evaluate(grade, income).suggestions;
    LabelsDistinct();
    PushedOnlyWhenFired(GeneralTier, 1, grade, income);
    if TopPerformer in s {
      assert TopPerformer != General;
      assert s == SuggestedBelow(GeneralTier, grade, income);
      assert Fires(0, grade, income) && Fires(1, grade, income);
      assert SuggestedBelow(1, grade, income) == [Merit];
      assert SuggestedBelow(2, grade, income) == [Merit, TopPerformer];
      SuggestedBelowGrows(2, GeneralTier, grade, income);
    }
  }

  /** If the below-poverty-line label is suggested, the need-based label comes right before it. */
  lemma BelowPovertyLineFollowsNeedBased(grade: real, income: real)
    ensures var s := Evaluate(grade, income).suggestions;
      forall k :: 0 <= k < |s| && s[k] == BelowPovertyLine ==> k > 0 && s[k - 1] == NeedBased
  {
    var s := Evaluate(grade, income).suggestions;
    LabelsDistinct();
    PushedOnlyWhenFired(GeneralTier, 3, grade, income);
    if BelowPovertyLine in s {
      assert BelowPovertyLine != General;
      assert s == SuggestedBelow(GeneralTier, grade, income);
      assert Fires(2, grade, income) && Fires(3, grade, income);
      var early := SuggestedBelow(2, grade, income);
      assert SuggestedBelow(3, grade, income) == early + [NeedBased];
      var upTo := SuggestedBelow(4, grade, income);
      assert upTo == early + [NeedBased, BelowPovertyLine];
      SuggestedBelowGrows(4, GeneralTier, grade, income);
      SuggestionsDistinct(grade, income);
      assert s[|early|] == NeedBased && s[|early| + 1] == BelowPovertyLine;
      forall k | 0 <= k < |s| && s[k] == BelowPovertyLine ensures k > 0 && s[k - 1] == NeedBased {
        assert k == |early| + 1;
      }
    }
  }

  /** The reason is empty exactly when eligible; otherwise it names the grade or the
      income, and the "combined criteria" reason is never given. */
  lemma ReasonWhenNotEligible(grade: real, income: real)
    ensures var v := Evaluate(grade, income);
      (v.reason == "" <==> v.eligible) &&
      (!v.eligible ==> (grade < 50.0 || income > 800000.0) && v.reason != CombinedCriteria) &&
      (!v.eligible ==> (v.reason == GradeTooLow <==> grade < 50.0)) &&
      (!v.eligible ==> v.reason == if grade < 50.0 then GradeTooLow else IncomeTooHigh)
  {
    EligibleIff(grade, income);
  }

  /** A better grade never costs eligibility. */
  lemma MonotoneInGrade(grade: real, better: real, income: real)
    requires grade <= better
    ensures Evaluate(grade, income).eligible ==> Evaluate(better, income).eligible
  {
    EligibleIff(grade, income);
    EligibleIff(better, income);
  }

  /** A lower income never costs eligibility. */
  lemma MonotoneInIncome(grade: real, income: real, lower: real)
    requires lower <= income
    ensures Evaluate(grade, income).eligible ==> Evaluate(grade, lower).eligible
  {
    EligibleIff(grade, income);
    EligibleIff(grade, lower);
  }

  // ---------------------------------------------------------------------
  // Worked verdicts
  // ---------------------------------------------------------------------

  lemma TopStudentLowIncome()
    ensures Evaluate(90.0, 100000.0) ==
      Verdict(true, [Merit, TopPerformer, NeedBased, BelowPovertyLine, MiddleClassMerit, SocialWelfare], "")
  {
    EligibleIff(90.0, 100000.0);
  }

  /** A low grade with a low income is still eligible, through the need-based tiers. */
  lemma LowGradeLowIncome()
    ensures Evaluate(40.0, 100000.0) == Verdict(true, [NeedBased, BelowPovertyLine], "")
  {
    EligibleIff(40.0, 100000.0);
  }

  lemma IncomeOverThreshold()
    ensures Evaluate(55.0, 900000.0) == Verdict(false, [], IncomeTooHigh)
  {
    EligibleIff(55.0, 900000.0);
  }

  lemma OnlyGeneral()
    ensures Evaluate(55.0, 700000.0) == Verdict(true, [General], "")
  {
    EligibleIff(55.0, 700000.0);
  }

  lemma LowGradeHighIncome()
    ensures Evaluate(40.0, 900000.0) == Verdict(false, [], GradeTooLow)
  {
    EligibleIff(40.0, 900000.0);
  }
}
