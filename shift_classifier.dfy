/** The shift filter of the reconciliation handlers (appController.js lines
    181-186, 311-317, 406-411, 536-541): a shift is kept when its display
    name or its notes contain one of the keywords, ignoring case. */
module ShiftClassifier {
  import opened SeqFacts
  import opened Wrappers
  import opened Strings
  import opened Snapshots

  /** Keywords of `getUsersWithLoggedShifts` (lines 182 and 313). */
  const StandardKeywords: seq<string> := ["day", "night", "mid-", "mid-night"]

  /** Keywords of `BonusLoggedShifts` (lines 407 and 538). */
  const BonusKeywords: seq<string> := ["intermediate", "esprit", "vacation"]

  /** `keywords.some(keyword => text.toLowerCase().includes(keyword.toLowerCase()))` */
  function SomeKeyword(text: string, keywords: seq<string>): (r: bool)
    ensures r <==> exists k, i :: k in keywords && OccursAt(ToLower(text), ToLower(k), i)
  {
    if keywords == [] then false
    else
      var rest := SomeKeyword(text, keywords[1..]);
      assert forall k :: k in keywords <==> k == keywords[0] || k in keywords[1..];
      Includes(ToLower(text), ToLower(keywords[0])) || rest
  }

  /** `shift.displayName && …` / `shift.notes && …`: an absent or empty field
      never matches. */
  predicate FieldMatches(field: Option<string>, keywords: seq<string>) {
    field.Some? && field.value != "" && SomeKeyword(field.value, keywords)
  }

  /** The filter callback: display name or notes match. */
  predicate IsKept(shift: Shift, keywords: seq<string>) {
    FieldMatches(shift.displayName, keywords) || FieldMatches(shift.notes, keywords)
  }

  /** `user.shifts.filter(...)`: the kept shifts, in schedule order. */
  function Kept(shifts: seq<Shift>, keywords: seq<string>): (r: seq<Shift>)
    ensures |r| <= |shifts|
    ensures forall s :: s in r <==> s in shifts && IsKept(s, keywords)
  {
    if shifts == [] then []
    else
      var init := shifts[..|shifts| - 1];
      var last := shifts[|shifts| - 1];
      SplitLast(shifts);
      Kept(init, keywords) + (if IsKept(last, keywords) then [last] else [])
  }

  lemma KeptSingle(s: Shift, keywords: seq<string>)
    ensures Kept([s], keywords) == if IsKept(s, keywords) then [s] else []
  {
    assert [s][..0] == [];
  }

  /** Filtering distributes over concatenation, so the kept shifts keep the
      schedule's order. */
  lemma {:induction false} KeptAppend(a: seq<Shift>, b: seq<Shift>, keywords: seq<string>)
    ensures Kept(a + b, keywords) == Kept(a, keywords) + Kept(b, keywords)
    decreases |b|
  {
    if b != [] {
      var b' := b[..|b| - 1];
      assert (a + b)[..|a + b| - 1] == a + b';
      KeptAppend(a, b', keywords);
    } else {
      assert a + b == a;
    }
  }

  lemma {:induction false} ToLowerIdempotent(s: string)
    ensures ToLower(ToLower(s)) == ToLower(s)
  {
    assert forall i :: 0 <= i < |s| ==> LowerChar(LowerChar(s[i])) == LowerChar(s[i]);
  }

  /** Matching ignores case in the shift's text and in the keywords. */
  lemma {:induction false} CaseInsensitive(text: string, keywords: seq<string>)
    ensures SomeKeyword(ToLower(text), keywords) == SomeKeyword(text, keywords)
    ensures SomeKeyword(text, seq(|keywords|, i requires 0 <= i < |keywords| => ToLower(keywords[i])))
            == SomeKeyword(text, keywords)
  {
    ToLowerIdempotent(text);
    var lowered := seq(|keywords|, i requires 0 <= i < |keywords| => ToLower(keywords[i]));
    forall k | k in keywords ensures ToLower(ToLower(k)) == ToLower(k) {
      ToLowerIdempotent(k);
    }
    forall k, i | k in keywords && OccursAt(ToLower(text), ToLower(k), i)
      ensures exists k', i' :: k' in lowered && OccursAt(ToLower(text), ToLower(k'), i')
    {
      var j :| 0 <= j < |keywords| && keywords[j] == k;
      assert lowered[j] in lowered;
    }
  }

  /** "mid-night" adds nothing to the standard list: any text containing it
      contains "mid-". */
  lemma {:induction false} MidNightIsRedundant(shift: Shift)
    ensures IsKept(shift, StandardKeywords) == IsKept(shift, ["day", "night", "mid-"])
  {
    if shift.displayName.Some? {
      SameMatch(shift.displayName.value);
    }
    if shift.notes.Some? {
      SameMatch(shift.notes.value);
    }
  }

  lemma SameMatch(text: string)
    ensures SomeKeyword(text, StandardKeywords) == SomeKeyword(text, ["day", "night", "mid-"])
  {
    StandardMatch(text);
    var ks := ["day", "night", "mid-"];
    assert ToLower("day") == "day" && ToLower("night") == "night" && ToLower("mid-") == "mid-";
    assert ks[1..] == ["night", "mid-"];
    assert ks[1..][1..] == ["mid-"];
    assert ks[1..][1..][1..] == [];
    MidNightHasMid(ToLower(text));
  }

  lemma MidNightHasMid(t: string)
    ensures Includes(t, "mid-night") ==> Includes(t, "mid-")
  {
    if Includes(t, "mid-night") {
      var i :| OccursAt(t, "mid-night", i);
      assert t[i..i + 4] == t[i..i + 9][..4];
      assert OccursAt(t, "mid-", i);
    }
  }

  /** A shift labelled "Day Shift" is a standard shift; "Training" is not. */
  lemma StandardExamples()
    ensures IsKept(Shift("1", Some("Day Shift"), "", "", "", None, None, None), StandardKeywords)
    ensures !IsKept(Shift("2", Some("Training"), "", "", "", None, None, None), StandardKeywords)
  {
    var t := ToLower("Day Shift");
    assert t[0..3] == "day";
    assert ToLower("day") == "day";
    assert OccursAt(t, ToLower("day"), 0);
    assert "day" in StandardKeywords;
    NoStandardKeywordInTraining();
  }

  lemma NoStandardKeywordInTraining()
    ensures !SomeKeyword("Training", StandardKeywords)
  {
    StandardMatch("Training");
    TrainingLower();
    MissingCharNotIncluded("training", "day", 0);
    MissingCharNotIncluded("training", "night", 3);
    MissingCharNotIncluded("training", "mid-", 0);
    MissingCharNotIncluded("training", "mid-night", 0);
  }

  lemma TrainingLower()
    ensures ToLower("Training") == "training"
    ensures 'd' !in "training" && 'h' !in "training" && 'm' !in "training"
  {
  }

  /** The standard list spelled out: its keywords are already lower case. */
  lemma StandardMatch(text: string)
    ensures SomeKeyword(text, StandardKeywords)
            <==> || Includes(ToLower(text), "day") || Includes(ToLower(text), "night")
                 || Includes(ToLower(text), "mid-") || Includes(ToLower(text), "mid-night")
  {
    assert ToLower("day") == "day" && ToLower("night") == "night";
    assert ToLower("mid-") == "mid-" && ToLower("mid-night") == "mid-night";
    var ks := StandardKeywords;
    assert ks[1..] == ["night", "mid-", "mid-night"];
    assert ks[1..][1..] == ["mid-", "mid-night"];
    assert ks[1..][1..][1..] == ["mid-night"];
    assert ks[1..][1..][1..][1..] == [];
  }

  /** Any label containing "day" counts as a standard shift, so a "Holiday"
      shift is validated like a worked day. */
  lemma HolidayIsStandard()
    ensures IsKept(Shift("3", Some("Holiday"), "", "", "", None, None, None), StandardKeywords)
  {
    var t := ToLower("Holiday");
    assert t[4..7] == "day";
    assert ToLower("day") == "day";
    assert OccursAt(t, ToLower("day"), 4);
    assert "day" in StandardKeywords;
  }

  /** The two lists are not exclusive: "Vacation day" is kept by both
      handlers. */
  lemma ListsOverlap()
    ensures IsKept(Shift("4", Some("Vacation day"), "", "", "", None, None, None), StandardKeywords)
    ensures IsKept(Shift("4", Some("Vacation day"), "", "", "", None, None, None), BonusKeywords)
  {
    var t := ToLower("Vacation day");
    assert t[9..12] == "day" && t[0..8] == "vacation";
    assert ToLower("day") == "day" && ToLower("vacation") == "vacation";
    assert OccursAt(t, ToLower("day"), 9);
    assert OccursAt(t, ToLower("vacation"), 0);
    assert "day" in StandardKeywords;
    assert "vacation" in BonusKeywords;
  }
}
