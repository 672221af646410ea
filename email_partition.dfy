/** The email partition of `getCurrentWeekData` (appController.js lines
    1011-1015). The two aggregation pipelines yield one row per user of the
    schedule snapshot and one row per in-week worklog; each row is reduced
    here to its `email`, which is absent (`undefined`) when the document has
    none. `===` on two absent emails is true, so an email is an
    `Option<string>` compared with `==`. */
module EmailPartition {
  import opened SeqFacts
  import opened Wrappers

  type Email = Option<string>

  /** `xs.filter(x => ys.some(y => y.email === x.email))` when `present`,
      `xs.filter(x => !ys.some(…))` otherwise: the rows of `xs` whose email
      does (or does not) occur in `ys`, in order and with repetitions. */
  function Select(xs: seq<Email>, ys: seq<Email>, present: bool): (r: seq<Email>)
    ensures |r| <= |xs|
    ensures forall e :: e in r <==> e in xs && (e in ys <==> present)
  {
    if xs == [] then []
    else
      var init := xs[..|xs| - 1];
      var last := xs[|xs| - 1];
      SplitLast(xs);
      Select(init, ys, present) + (if (last in ys) == present then [last] else [])
  }

  /** `commonUsersEmails` (line 1011). */
  function Common(shiftEmails: seq<Email>, issueEmails: seq<Email>): seq<Email> {
    Select(shiftEmails, issueEmails, true)
  }

  /** `usersInShiftsOnlyEmails` (line 1013). */
  function ShiftsOnly(shiftEmails: seq<Email>, issueEmails: seq<Email>): seq<Email> {
    Select(shiftEmails, issueEmails, false)
  }

  /** `usersInIssuesOnlyEmails` (line 1015). */
  function IssuesOnly(shiftEmails: seq<Email>, issueEmails: seq<Email>): seq<Email> {
    Select(issueEmails, shiftEmails, false)
  }

  /** The three lists classify every email of either side: common when it
      occurs on both sides, otherwise on the side where it occurs. */
  lemma Classification(shiftEmails: seq<Email>, issueEmails: seq<Email>, e: Email)
    ensures e in Common(shiftEmails, issueEmails) <==> e in shiftEmails && e in issueEmails
    ensures e in ShiftsOnly(shiftEmails, issueEmails) <==> e in shiftEmails && e !in issueEmails
    ensures e in IssuesOnly(shiftEmails, issueEmails) <==> e in issueEmails && e !in shiftEmails
  {
  }

  /** No email is both common and one-sided, and none is on both one-sided
      lists. */
  lemma Disjoint(shiftEmails: seq<Email>, issueEmails: seq<Email>, e: Email)
    ensures !(e in Common(shiftEmails, issueEmails) && e in ShiftsOnly(shiftEmails, issueEmails))
    ensures !(e in Common(shiftEmails, issueEmails) && e in IssuesOnly(shiftEmails, issueEmails))
    ensures !(e in ShiftsOnly(shiftEmails, issueEmails) && e in IssuesOnly(shiftEmails, issueEmails))
  {
  }

  /** Every shift-side row lands in exactly one of the two shift-side
      lists, as often as it occurs: `Common` and `ShiftsOnly` split the
      shift rows as a multiset. */
  lemma {:induction false} SplitsShiftRows(shiftEmails: seq<Email>, issueEmails: seq<Email>)
    ensures multiset(Common(shiftEmails, issueEmails)) + multiset(ShiftsOnly(shiftEmails, issueEmails))
            == multiset(shiftEmails)
    ensures |Common(shiftEmails, issueEmails)| + |ShiftsOnly(shiftEmails, issueEmails)| == |shiftEmails|
  {
    SelectSplits(shiftEmails, issueEmails);
    assert |multiset(Common(shiftEmails, issueEmails)) + multiset(ShiftsOnly(shiftEmails, issueEmails))| == |multiset(shiftEmails)|;
  }

  /** The two selections from one list split it as a multiset. */
  lemma {:induction false} SelectSplits(xs: seq<Email>, ys: seq<Email>)
    ensures multiset(Select(xs, ys, true)) + multiset(Select(xs, ys, false)) == multiset(xs)
  {
    if xs != [] {
      var init := xs[..|xs| - 1];
      SplitLast(xs);
      SelectSplits(init, ys);
    }
  }

  /** Each row of a selection keeps its multiplicity: an email repeated in
      the shift snapshot is repeated in `Common`. */
  lemma {:induction false} SelectCounts(xs: seq<Email>, ys: seq<Email>, present: bool, e: Email)
    ensures multiset(Select(xs, ys, present))[e] == if (e in ys) == present then multiset(xs)[e] else 0
  {
    if xs != [] {
      var init := xs[..|xs| - 1];
      var last := xs[|xs| - 1];
      SplitLast(xs);
      SelectCounts(init, ys, present, e);
    }
  }

  /** An email the issue side lacks yields no common row: the list of
      common rows is exactly the shift rows when every shift email has a
      worklog, and empty when none has. */
  lemma {:induction false} CommonExtremes(shiftEmails: seq<Email>, issueEmails: seq<Email>)
    ensures (forall e :: e in shiftEmails ==> e in issueEmails) ==> Common(shiftEmails, issueEmails) == shiftEmails
    ensures (forall e :: e in shiftEmails ==> e !in issueEmails) ==> Common(shiftEmails, issueEmails) == []
  {
    if shiftEmails != [] {
      var init := shiftEmails[..|shiftEmails| - 1];
      var last := shiftEmails[|shiftEmails| - 1];
      SplitLast(shiftEmails);
      assert forall e :: e in init ==> e in shiftEmails;
      CommonExtremes(init, issueEmails);
    }
  }

  /** Users without an email on both sides count as common: two absent
      emails compare equal under `===`. */
  lemma AbsentEmailsMatch()
    ensures Common([None], [None]) == [None]
    ensures IssuesOnly([None], [None]) == []
  {
    assert Select([None], [None], true) == Select([], [None], true) + [None];
  }
}
