/** How one worklog's `timeSpent` text counts towards a day's logged hours
    (appController.js lines 258-270): the first match of `/(\d+(\.\d+)?)/`,
    read exactly as a decimal, and the `h` / `d` unit markers. */
module Duration {
  import opened Strings
  import opened Wrappers

  /** The credit for any entry that mentions `d`, whatever its number. */
  const FullDayHours: real := 8.0

  /** Length of the run of digits that starts at index i. */
  function DigitRun(s: string, i: nat): (k: nat)
    requires i <= |s|
    ensures i + k <= |s|
    ensures forall j :: i <= j < i + k ==> IsDigit(s[j])
    ensures i + k < |s| ==> !IsDigit(s[i + k])
    decreases |s| - i
  {
    if i < |s| && IsDigit(s[i]) then 1 + DigitRun(s, i + 1) else 0
  }

  /** Index of the first digit at or after `from`. */
  function FirstDigit(s: string, from: nat): (r: Option<nat>)
    requires from <= |s|
    ensures r.None? ==> forall j :: from <= j < |s| ==> !IsDigit(s[j])
    ensures r.Some? ==> from <= r.value < |s| && IsDigit(s[r.value])
    ensures r.Some? ==> forall j :: from <= j < r.value ==> !IsDigit(s[j])
    decreases |s| - from
  {
    if from == |s| then None
    else if IsDigit(s[from]) then Some(from)
    else FirstDigit(s, from + 1)
  }

  /** A match of `\d+(\.\d+)?`: where it starts, its integer digits and its
      fraction digits (empty when there is no fraction). */
  datatype NumberMatch = NumberMatch(start: nat, intDigits: string, fracDigits: string)

  function MatchText(m: NumberMatch): string {
    m.intDigits + (if m.fracDigits == [] then [] else "." + m.fracDigits)
  }

  /** `m` is the match a JavaScript regular expression returns for
      `/(\d+(\.\d+)?)/` on `s`: it starts at the leftmost digit (any digit
      starts a match) and each `+` and the optional group are greedy. */
  predicate IsFirstNumber(s: string, m: NumberMatch) {
    var e := m.start + |m.intDigits|;
    && 1 <= |m.intDigits| && AllDigits(m.intDigits) && AllDigits(m.fracDigits)
    && MaximalDigitsAt(s, m.start, m.intDigits)
    && (forall j :: 0 <= j < m.start ==> !IsDigit(s[j]))
    && if m.fracDigits == [] then !(e + 1 < |s| && s[e] == '.' && IsDigit(s[e + 1]))
       else e < |s| && s[e] == '.' && MaximalDigitsAt(s, e + 1, m.fracDigits)
  }

  /** `ds` is a run of digits at index i of `s` not followed by another digit. */
  predicate MaximalDigitsAt(s: string, i: nat, ds: string) {
    && i + |ds| <= |s| && s[i..i + |ds|] == ds && AllDigits(ds)
    && (i + |ds| < |s| ==> !IsDigit(s[i + |ds|]))
  }

  lemma DigitInRun(s: string, i: nat, ds: string, k: nat)
    requires MaximalDigitsAt(s, i, ds) && k < |ds|
    ensures IsDigit(s[i + k])
  {
    assert s[i + k] == s[i..i + |ds|][k];
  }

  lemma MaximalDigitsUnique(s: string, i: nat, a: string, b: string)
    requires MaximalDigitsAt(s, i, a) && MaximalDigitsAt(s, i, b)
    ensures a == b
  {
    if |a| < |b| {
      DigitInRun(s, i, b, |a|);
      assert false;
    } else if |b| < |a| {
      DigitInRun(s, i, a, |b|);
      assert false;
    }
  }

  /** The matched text occurs in `s` where the match starts. */
  lemma MatchOccurs(s: string, m: NumberMatch)
    requires IsFirstNumber(s, m)
    ensures OccursAt(s, MatchText(m), m.start)
  {
    var e := m.start + |m.intDigits|;
    if m.fracDigits != [] {
      assert s[m.start..e + 1 + |m.fracDigits|]
          == s[m.start..e] + [s[e]] + s[e + 1..e + 1 + |m.fracDigits|];
    }
  }

  /** `timeSpent.match(/(\d+(\.\d+)?)/)`: None when the text has no digit. */
  function FirstNumber(s: string): (r: Option<NumberMatch>)
    ensures r.None? <==> forall j :: 0 <= j < |s| ==> !IsDigit(s[j])
    ensures r.Some? ==> IsFirstNumber(s, r.value)
  {
    match FirstDigit(s, 0)
    case None => None
    case Some(i) =>
      MatchFromIsFirst(s, i);
      Some(MatchFrom(s, i))
  }

  /** The greedy match starting at the digit at index i. */
  function MatchFrom(s: string, i: nat): NumberMatch
    requires i <= |s|
  {
    var intEnd := i + DigitRun(s, i);
    var frac :=
      if intEnd + 1 < |s| && s[intEnd] == '.' && IsDigit(s[intEnd + 1])
      then s[intEnd + 1..intEnd + 1 + DigitRun(s, intEnd + 1)]
      else [];
    NumberMatch(i, s[i..intEnd], frac)
  }

  lemma MatchFromIsFirst(s: string, i: nat)
    requires i < |s| && IsDigit(s[i])
    requires forall j :: 0 <= j < i ==> !IsDigit(s[j])
    ensures IsFirstNumber(s, MatchFrom(s, i))
  {
    var m := MatchFrom(s, i);
    var intEnd := i + DigitRun(s, i);
    RunIsMaximal(s, i);
    assert 1 <= |m.intDigits|;
    if intEnd + 1 < |s| && s[intEnd] == '.' && IsDigit(s[intEnd + 1]) {
      RunIsMaximal(s, intEnd + 1);
    }
  }

  lemma RunIsMaximal(s: string, i: nat)
    requires i <= |s|
    ensures MaximalDigitsAt(s, i, s[i..i + DigitRun(s, i)])
  {
    var ds := s[i..i + DigitRun(s, i)];
    assert forall j :: 0 <= j < |ds| ==> ds[j] == s[i + j];
  }

  function Pow10(n: nat): (p: nat)
    ensures p >= 1
  {
    if n == 0 then 1 else 10 * Pow10(n - 1)
  }

  /** `parseFloat` of the matched text, read as an exact decimal. */
  function Value(m: NumberMatch): (v: real)
    requires AllDigits(m.intDigits) && AllDigits(m.fracDigits)
    ensures v >= 0.0
  {
    NatValue(m.intDigits) as real + NatValue(m.fracDigits) as real / Pow10(|m.fracDigits|) as real
  }

  /** What one `timeSpent` adds to its day's `totalSpentTime`, or None when
      the text has no digit and the entry is not counted at all. */
  function SpentHours(timeSpent: string): (r: Option<real>)
    ensures r.None? <==> forall j :: 0 <= j < |timeSpent| ==> !IsDigit(timeSpent[j])
    ensures r.Some? && 'd' in timeSpent ==> r.value == FullDayHours
    ensures r.Some? && 'h' !in timeSpent && 'd' !in timeSpent ==> r.value == 0.0
    ensures r.Some? && 'h' in timeSpent && 'd' !in timeSpent ==>
              exists m :: IsFirstNumber(timeSpent, m) && r.value == Value(m)
  {
    match FirstNumber(timeSpent)
    case None => None
    case Some(m) =>
      if 'h' in timeSpent && 'd' !in timeSpent then Some(Value(m))
      else if 'd' in timeSpent then Some(FullDayHours)
      else Some(0.0)
  }

  /** There is only one first match, so the hours credited to an `h` entry
      are determined by the text. */
  lemma {:induction false} FirstNumberUnique(s: string, m1: NumberMatch, m2: NumberMatch)
    requires IsFirstNumber(s, m1) && IsFirstNumber(s, m2)
    ensures m1 == m2
  {
    SameStart(s, m1, m2);
    MaximalDigitsUnique(s, m1.start, m1.intDigits, m2.intDigits);
    var e := m1.start + |m1.intDigits|;
    if m1.fracDigits != [] && m2.fracDigits != [] {
      MaximalDigitsUnique(s, e + 1, m1.fracDigits, m2.fracDigits);
    }
  }

  /** Both matches start at the leftmost digit. */
  lemma SameStart(s: string, m1: NumberMatch, m2: NumberMatch)
    requires IsFirstNumber(s, m1) && IsFirstNumber(s, m2)
    ensures m1.start == m2.start
  {
    DigitInRun(s, m1.start, m1.intDigits, 0);
    DigitInRun(s, m2.start, m2.intDigits, 0);
  }

  /** Hour entries add their number. */
  lemma HourEntry()
    ensures SpentHours("3h") == Some(3.0)
  {
    assert FirstDigit("3h", 0) == Some(0);
    assert DigitRun("3h", 1) == 0 && DigitRun("3h", 0) == 1;
    assert "3h"[0..1] == "3";
    ThreeValue();
  }

  lemma ThreeValue()
    ensures Value(NumberMatch(0, "3", "")) == 3.0
  {
    assert NatValue("3") == 3 by { assert "3"[..0] == []; }
  }

  lemma DecimalMatch()
    ensures FirstNumber("1.5h") == Some(NumberMatch(0, "1", "5"))
  {
    assert FirstDigit("1.5h", 0) == Some(0);
    assert DigitRun("1.5h", 1) == 0 && DigitRun("1.5h", 0) == 1;
    assert DigitRun("1.5h", 3) == 0 && DigitRun("1.5h", 2) == 1;
    assert "1.5h"[0..1] == "1" && "1.5h"[2..3] == "5";
  }

  lemma DecimalValue()
    ensures Value(NumberMatch(0, "1", "5")) == 1.5
  {
    assert NatValue("1") == 1 by { assert "1"[..0] == []; }
    assert NatValue("5") == 5 by { assert "5"[..0] == []; }
    assert Pow10(1) == 10;
  }

  /** The fraction of a decimal hour entry is kept exactly. */
  lemma DecimalHourEntry()
    ensures SpentHours("1.5h") == Some(1.5)
  {
    DecimalMatch();
    DecimalValue();
    assert 'h' in "1.5h" by { assert "1.5h"[3] == 'h'; }
  }

  /** Minutes after the hours are ignored: only the first number counts. */
  lemma HoursAndMinutesEntry()
    ensures SpentHours("3h 30m") == Some(3.0)
  {
    HoursAndMinutesMatch();
    ThreeValue();
    assert 'h' in "3h 30m" by { assert "3h 30m"[1] == 'h'; }
    assert 'd' !in "3h 30m";
  }

  lemma HoursAndMinutesMatch()
    ensures FirstNumber("3h 30m") == Some(NumberMatch(0, "3", ""))
  {
    assert FirstDigit("3h 30m", 0) == Some(0);
    assert DigitRun("3h 30m", 1) == 0 && DigitRun("3h 30m", 0) == 1;
    assert "3h 30m"[0..1] == "3";
  }

  /** Any entry mentioning `d` credits a fixed 8 hours: "2d" is 8, not 16,
      and "1d 4h" is 8, not 12. */
  lemma DayEntries()
    ensures SpentHours("1d") == Some(8.0)
    ensures SpentHours("2d") == Some(8.0)
    ensures SpentHours("1d 4h") == Some(8.0)
  {
    assert 'd' in "1d 4h" by { assert "1d 4h"[1] == 'd'; }
    assert IsDigit("1d 4h"[0]);
  }

  /** Minutes count as an entry worth nothing; text without a digit is not
      an entry. */
  lemma OtherEntries()
    ensures SpentHours("30m") == Some(0.0)
    ensures SpentHours("abc") == None
  {
    assert IsDigit("30m"[0]);
  }
}
