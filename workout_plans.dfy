/**
 * Fixed workout plans and diet tips: a sentence about the user followed by
 * one of two lists, chosen by whether the lifestyle is "active" ignoring
 * case.
 */
module WorkoutPlans {
  import opened Text

  const ActivePlan := "- High-intensity interval training (HIIT)\n- Strength training 4 times a week"
  const ModeratePlan := "- Moderate aerobic exercises\n- Light strength training 2 times a week"
  const Hydrated := "- Stay hydrated"
  const ActiveTips := "- Increase protein intake\n" + Hydrated + "\n- Balance carbs and fats"
  const ModerateTips := "- Incorporate more fruits and vegetables\n- Reduce sugar intake\n" + Hydrated

  /** `lifestyle.lower() == "active"`. */
  predicate IsActive(lifestyle: string)
  {
    Lower(lifestyle) == "active"
  }

  function PlanPrefix(age: string, gender: string, lifestyle: string): string
  {
    "As a " + age + "-year-old " + gender + " with a " + lifestyle + " lifestyle, your workout plan should include:\n"
  }

  function TipsPrefix(age: string, lifestyle: string): string
  {
    "For a " + age + "-year-old with a " + lifestyle + " lifestyle, consider the following diet tips:\n"
  }

  /** `create_workout_plan`; `age` is the text Python formats the age as. */
  function CreateWorkoutPlan(age: string, gender: string, lifestyle: string): string
  {
    var plan := PlanPrefix(age, gender, lifestyle);
    if IsActive(lifestyle) then plan + ActivePlan else plan + ModeratePlan
  }

  /** `provide_diet_tips`. */
  function ProvideDietTips(age: string, lifestyle: string): string
  {
    var tips := TipsPrefix(age, lifestyle);
    if IsActive(lifestyle) then tips + ActiveTips else tips + ModerateTips
  }

  /** The two plan lists differ in their last lines, so neither ends the other's text. */
  lemma PlansDiffer(s: string)
    ensures !(EndsWith(s, ActivePlan) && EndsWith(s, ModeratePlan))
  {
    if EndsWith(s, ActivePlan) {
      ActiveDigit(s);
    }
    if EndsWith(s, ModeratePlan) {
      ModerateDigit(s);
    }
  }

  lemma ActiveDigit(s: string)
    requires EndsWith(s, ActivePlan)
    ensures s[|s| - 14] == '4'
  {
    assert s[|s| - 14] == ActivePlan[|ActivePlan| - 14];
  }

  lemma ModerateDigit(s: string)
    requires EndsWith(s, ModeratePlan)
    ensures s[|s| - 14] == '2'
  {
    assert s[|s| - 14] == ModeratePlan[|ModeratePlan| - 14];
  }

  /**
   * The plan is the sentence about the user followed by exactly one of the
   * two lists, and it ends with the intensive list exactly when the
   * lifestyle is "active" ignoring case.
   */
  lemma PlanShape(age: string, gender: string, lifestyle: string)
    ensures IsPrefix(PlanPrefix(age, gender, lifestyle), CreateWorkoutPlan(age, gender, lifestyle))
    ensures EndsWith(CreateWorkoutPlan(age, gender, lifestyle), ActivePlan) <==> IsActive(lifestyle)
    ensures EndsWith(CreateWorkoutPlan(age, gender, lifestyle), ModeratePlan) <==> !IsActive(lifestyle)
  {
    var plan := CreateWorkoutPlan(age, gender, lifestyle);
    var prefix := PlanPrefix(age, gender, lifestyle);
    PlansDiffer(plan);
    if IsActive(lifestyle) {
      assert plan[|plan| - |ActivePlan|..] == ActivePlan;
    } else {
      assert plan[|plan| - |ModeratePlan|..] == ModeratePlan;
    }
    assert plan[..|prefix|] == prefix;
  }

  /** Lifestyles equal up to case get the same list. */
  lemma PlanChoiceIgnoresCase(age: string, gender: string, l1: string, l2: string)
    requires Lower(l1) == Lower(l2)
    ensures CreateWorkoutPlan(age, gender, l1)[|PlanPrefix(age, gender, l1)|..]
            == CreateWorkoutPlan(age, gender, l2)[|PlanPrefix(age, gender, l2)|..]
    ensures ProvideDietTips(age, l1)[|TipsPrefix(age, l1)|..] == ProvideDietTips(age, l2)[|TipsPrefix(age, l2)|..]
  {
    var p1, p2 := PlanPrefix(age, gender, l1), PlanPrefix(age, gender, l2);
    var t1, t2 := TipsPrefix(age, l1), TipsPrefix(age, l2);
    var suffix := if IsActive(l1) then ActivePlan else ModeratePlan;
    var tips := if IsActive(l1) then ActiveTips else ModerateTips;
    assert (p1 + suffix)[|p1|..] == suffix;
    assert (p2 + suffix)[|p2|..] == suffix;
    assert (t1 + tips)[|t1|..] == tips;
    assert (t2 + tips)[|t2|..] == tips;
  }

  /** "Active" and "ACTIVE" are active lifestyles. */
  lemma ActiveSpellings()
    ensures IsActive("active") && IsActive("Active") && IsActive("ACTIVE")
    ensures !IsActive("sedentary")
  {
    assert Lower("Active") == "active";
    assert Lower("ACTIVE") == "active";
    assert Lower("sedentary")[0] == 's';
  }

  /**
   * The tips are the sentence about the user followed by the active or the
   * non-active list, and either way they say "- Stay hydrated".
   */
  lemma TipsShape(age: string, lifestyle: string)
    ensures IsPrefix(TipsPrefix(age, lifestyle), ProvideDietTips(age, lifestyle))
    ensures EndsWith(ProvideDietTips(age, lifestyle), if IsActive(lifestyle) then ActiveTips else ModerateTips)
    ensures Contains(ProvideDietTips(age, lifestyle), Hydrated)
  {
    var prefix := TipsPrefix(age, lifestyle);
    var list := if IsActive(lifestyle) then ActiveTips else ModerateTips;
    PrefixOfConcat(prefix, list);
    SuffixOfConcat(prefix, list);
    var lead := if IsActive(lifestyle) then "- Increase protein intake\n" else "- Incorporate more fruits and vegetables\n- Reduce sugar intake\n";
    var tail := if IsActive(lifestyle) then "\n- Balance carbs and fats" else "";
    assert list == lead + Hydrated + tail;
    AppendAssoc(prefix, lead + Hydrated, tail);
    AppendAssoc(prefix, lead, Hydrated);
    OccursInMiddle(prefix + lead, Hydrated, tail);
    OccurrenceContains(prefix + lead + Hydrated + tail, Hydrated, |prefix + lead|);
  }
}
