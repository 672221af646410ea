/** Worklog flattening and per-day aggregation of the reconciliation
    handlers (appController.js lines 211-287): every assignee's worklogs are
    flattened across issues, grouped by UTC date and summed into
    `{totalSpentTime, shiftcount}` per date; the result is stored under the
    assignee's email, replacing what an earlier project stored there. */
module Aggregation {
  import opened SeqFacts
  import opened Wrappers
  import opened Strings
  import opened Snapshots
  import opened Duration

  /** `new Date(started).toISOString().split('T')[0]`, left abstract: None
      when `toISOString` throws on an invalid date. */
  type UtcDateKey = string -> Option<string>

  /** A flattened worklog (`{worklogStarted, worktimeSpent}`, lines 224-227). */
  datatype Entry = Entry(dateKey: string, timeSpent: string)

  /** `{totalSpentTime, shiftcount}` of one date (lines 274-277). */
  datatype DailyTotal = DailyTotal(totalSpentTime: real, shiftcount: nat)

  /** `worklogsData[userEmail]` (lines 281-284). */
  datatype UserWorklogs = UserWorklogs(userDisplayName: string, worklogsTotalTime: map<string, DailyTotal>)

  type WorklogsData = map<string, UserWorklogs>

  // ---------------------------------------------------------------------
  // Specification
  // ---------------------------------------------------------------------

  /** The flatMap callback (lines 218-232) on one worklog. None stands for
      both ways it breaks the request: `toISOString` throwing, and the
      `undefined` returned for a missing or empty `timeSpent` (or an empty
      date key), which the destructuring at line 240 throws on. */
  function EntryOf(w: Worklog, utcKey: UtcDateKey): (r: Option<Entry>)
    ensures r.Some? <==> w.timeSpent.Some? && w.timeSpent.value != ""
                         && utcKey(w.started).Some? && utcKey(w.started).value != ""
    ensures r.Some? ==> r.value.dateKey == utcKey(w.started).value
                        && r.value.timeSpent == w.timeSpent.value
  {
    if w.timeSpent.None? || w.timeSpent.value == "" then None
    else match utcKey(w.started)
      case None => None
      case Some(k) => if k == "" then None else Some(Entry(k, w.timeSpent.value))
  }

  /** All worklogs of the issues, issue by issue (`issues.flatMap`). */
  function IssueWorklogs(issues: seq<WorkIssue>): (ws: seq<Worklog>)
    ensures forall w :: w in ws <==> exists i :: 0 <= i < |issues| && w in issues[i].worklogs
  {
    if issues == [] then []
    else
      var init := issues[..|issues| - 1];
      var rest := IssueWorklogs(init);
      assert forall i :: 0 <= i < |init| ==> init[i] == issues[i];
      rest + issues[|issues| - 1].worklogs
  }

  /** The flattened entries of a list of worklogs, or None as soon as one of
      them breaks the request. */
  function EntriesOf(ws: seq<Worklog>, utcKey: UtcDateKey): (r: Option<seq<Entry>>)
    ensures r.None? <==> exists i :: 0 <= i < |ws| && EntryOf(ws[i], utcKey).None?
    ensures r.Some? ==> |r.value| == |ws|
    ensures r.Some? ==> forall i :: 0 <= i < |ws| ==> Some(r.value[i]) == EntryOf(ws[i], utcKey)
  {
    if ws == [] then Some([])
    else
      var init := ws[..|ws| - 1];
      assert forall i :: 0 <= i < |init| ==> init[i] == ws[i];
      match EntriesOf(init, utcKey)
      case None => None
      case Some(es) =>
        match EntryOf(ws[|ws| - 1], utcKey)
        case None => None
        case Some(e) => Some(es + [e])
  }

  /** `userWorklogs` of one assignee (lines 217-234). */
  function UserEntries(u: WorkUser, utcKey: UtcDateKey): Option<seq<Entry>> {
    EntriesOf(IssueWorklogs(u.issues), utcKey)
  }

  function DateKeys(es: seq<Entry>): set<string> {
    set e | e in es :: e.dateKey
  }

  /** The `timeSpent` texts of the entries dated `key`, in order. */
  function TimesOn(es: seq<Entry>, key: string): (r: seq<string>)
    ensures |r| <= |es|
    ensures key in DateKeys(es) <==> |r| > 0
  {
    if es == [] then []
    else
      var init := es[..|es| - 1];
      var last := es[|es| - 1];
      SplitLast(es);
      assert DateKeys(es) == DateKeys(init) + {last.dateKey};
      TimesOn(init, key) + (if last.dateKey == key then [last.timeSpent] else [])
  }

  /** `worklogsGrouped` (lines 237-247): date key to its `timeSpent` texts. */
  function WorklogsGrouped(es: seq<Entry>): (g: map<string, seq<string>>)
    ensures g.Keys == DateKeys(es)
    ensures forall k :: k in g ==> |g[k]| > 0
  {
    map k | k in DateKeys(es) :: TimesOn(es, k)
  }

  /** `totalSpentTime` and `shiftcount` of one date (lines 254-271). */
  function DayTotal(times: seq<string>): (t: DailyTotal)
    ensures t.totalSpentTime >= 0.0
    ensures t.shiftcount <= |times|
  {
    if times == [] then DailyTotal(0.0, 0)
    else
      var t := DayTotal(times[..|times| - 1]);
      match SpentHours(times[|times| - 1])
      case None => t
      case Some(h) => DailyTotal(t.totalSpentTime + h, t.shiftcount + 1)
  }

  /** `worklogsTotalTime` (lines 250-279): a total for every grouped date
      whose list is non-empty. */
  function WorklogsTotalTime(g: map<string, seq<string>>): map<string, DailyTotal> {
    map k | k in g && |g[k]| > 0 :: DayTotal(g[k])
  }

  /** The assignees of all projects that have a `users` list, in order
      (lines 211-213). */
  function ProjectUsers(projects: seq<Project>): (us: seq<WorkUser>)
    ensures forall u :: u in us <==> exists i :: 0 <= i < |projects| && projects[i].users.Some? && u in projects[i].users.value
  {
    if projects == [] then []
    else
      var init := projects[..|projects| - 1];
      var last := projects[|projects| - 1];
      assert forall i :: 0 <= i < |init| ==> init[i] == projects[i];
      ProjectUsers(init) + (if last.users.Some? then last.users.value else [])
  }

  /** The entry `worklogsData[u.email]` written for assignee `u`. */
  function UserRecord(u: WorkUser, es: seq<Entry>): UserWorklogs {
    UserWorklogs(u.displayName, WorklogsTotalTime(WorklogsGrouped(es)))
  }

  /** `worklogsData` after processing the assignees in order; None when the
      request fails on one of them. */
  function WorklogsDataOf(users: seq<WorkUser>, utcKey: UtcDateKey): Option<WorklogsData> {
    if users == [] then Some(map[])
    else
      match WorklogsDataOf(users[..|users| - 1], utcKey)
      case None => None
      case Some(m) =>
        var u := users[|users| - 1];
        match UserEntries(u, utcKey)
        case None => None
        case Some(es) => Some(m[u.email := UserRecord(u, es)])
  }

  // ---------------------------------------------------------------------
  // Properties
  // ---------------------------------------------------------------------

  /** Every date that some entry carries gets a total, even one whose
      entries add nothing, and no other date does. */
  lemma {:induction false} EveryDateGetsATotal(es: seq<Entry>)
    ensures WorklogsTotalTime(WorklogsGrouped(es)).Keys == DateKeys(es)
  {
    var g := WorklogsGrouped(es);
    assert forall k :: k in g ==> |g[k]| > 0;
  }

  function AddTotals(a: DailyTotal, b: DailyTotal): DailyTotal {
    DailyTotal(a.totalSpentTime + b.totalSpentTime, a.shiftcount + b.shiftcount)
  }

  /** The last entry of a day adds its own total. */
  lemma DayTotalSnoc(times: seq<string>, t: string)
    ensures DayTotal(times + [t]) == AddTotals(DayTotal(times), DayTotal([t]))
  {
    PrefixOfSnoc(times, t);
    assert [t][..0] == [];
  }

  /** One more entry on the right keeps the totals of a split adding up. */
  lemma AppendStep(x: seq<string>, y: seq<string>, t: string)
    requires DayTotal(x + y) == AddTotals(DayTotal(x), DayTotal(y))
    ensures DayTotal(x + (y + [t])) == AddTotals(DayTotal(x), DayTotal(y + [t]))
  {
    assert x + (y + [t]) == (x + y) + [t];
    DayTotalSnoc(x + y, t);
    DayTotalSnoc(y, t);
    AddTotalsAssoc(DayTotal(x), DayTotal(y), DayTotal([t]));
  }

  /** Totals add up over any split of a day's entries. */
  lemma {:induction false} DayTotalAppend(a: seq<string>, b: seq<string>)
    ensures DayTotal(a + b) == AddTotals(DayTotal(a), DayTotal(b))
    decreases |b|
  {
    if b == [] {
      assert a + b == a;
    } else {
      var b' := b[..|b| - 1];
      assert b == b' + [b[|b| - 1]];
      DayTotalAppend(a, b');
      AppendStep(a, b', b[|b| - 1]);
    }
  }

  lemma AddTotalsAssoc(x: DailyTotal, y: DailyTotal, z: DailyTotal)
    ensures AddTotals(AddTotals(x, y), z) == AddTotals(x, AddTotals(y, z))
  {
  }

  /** What one entry contributes, as a total of its own. */
  lemma {:induction false} DayTotalSingle(t: string)
    ensures DayTotal([t]) == match SpentHours(t)
                             case None => DailyTotal(0.0, 0)
                             case Some(h) => DailyTotal(h, 1)
  {
    assert [t][..0] == [];
  }

  /** A day's `shiftcount` is the number of its entries with a digit and
      its `totalSpentTime` the sum of their hours. */
  function CountedHours(times: seq<string>): (r: (real, nat)) {
    if times == [] then (0.0, 0)
    else
      var rest := CountedHours(times[1..]);
      match SpentHours(times[0])
      case None => rest
      case Some(h) => (h + rest.0, 1 + rest.1)
  }

  lemma {:induction false} DayTotalIsSumOfEntries(times: seq<string>)
    ensures DayTotal(times) == DailyTotal(CountedHours(times).0, CountedHours(times).1)
  {
    if times != [] {
      DayTotalIsSumOfEntries(times[1..]);
      DayTotalAppend([times[0]], times[1..]);
      assert [times[0]] + times[1..] == times;
      DayTotalSingle(times[0]);
    }
  }

  /** Adding one entry updates only its own date. */
  lemma {:induction false} GroupedAppend(es: seq<Entry>, e: Entry)
    ensures var g := WorklogsGrouped(es);
            WorklogsGrouped(es + [e])
            == g[e.dateKey := (if e.dateKey in g then g[e.dateKey] else []) + [e.timeSpent]]
  {
    var g := WorklogsGrouped(es);
    var g' := WorklogsGrouped(es + [e]);
    var h := g[e.dateKey := (if e.dateKey in g then g[e.dateKey] else []) + [e.timeSpent]];
    DateKeysSnoc(es, e);
    forall k | k in g' ensures g'[k] == h[k] {
      TimesOnSnoc(es, e, k);
    }
    assert g'.Keys == h.Keys;
  }

  lemma DateKeysSnoc(es: seq<Entry>, e: Entry)
    ensures DateKeys(es + [e]) == DateKeys(es) + {e.dateKey}
  {
    assert forall x :: x in es + [e] <==> x in es || x == e;
  }

  lemma TimesOnSnoc(es: seq<Entry>, e: Entry, k: string)
    ensures TimesOn(es + [e], k) == TimesOn(es, k) + (if e.dateKey == k then [e.timeSpent] else [])
  {
    PrefixOfSnoc(es, e);
  }

  /** A user whose worklogs are processed later replaces an earlier user's
      totals under the same email: the entry for an email comes from the
      LAST assignee with that email, across all projects. */
  lemma {:induction false} LastAssigneeWins(users: seq<WorkUser>, utcKey: UtcDateKey, m: WorklogsData, j: nat)
    requires WorklogsDataOf(users, utcKey) == Some(m)
    requires j < |users|
    requires forall i :: j < i < |users| ==> users[i].email != users[j].email
    ensures UserEntries(users[j], utcKey).Some?
    ensures users[j].email in m
    ensures m[users[j].email] == UserRecord(users[j], UserEntries(users[j], utcKey).value)
    decreases |users|
  {
    var init := users[..|users| - 1];
    var m' :| WorklogsDataOf(init, utcKey) == Some(m');
    if j < |users| - 1 {
      assert forall i :: j < i < |init| ==> init[i] == users[i];
      LastAssigneeWins(init, utcKey, m', j);
      assert init[j] == users[j];
    }
  }

  /** `worklogsData` has exactly the emails of the assignees. */
  lemma {:induction false} WorklogsDataKeys(users: seq<WorkUser>, utcKey: UtcDateKey, m: WorklogsData)
    requires WorklogsDataOf(users, utcKey) == Some(m)
    ensures m.Keys == set u | u in users :: u.email
    decreases |users|
  {
    if users != [] {
      var init := users[..|users| - 1];
      var m' :| WorklogsDataOf(init, utcKey) == Some(m');
      WorklogsDataKeys(init, utcKey, m');
      SplitLast(users);
    }
  }

  /** The request fails exactly when one assignee's worklogs break it. */
  lemma {:induction false} FailsIffSomeAssigneeFails(users: seq<WorkUser>, utcKey: UtcDateKey)
    ensures WorklogsDataOf(users, utcKey).None?
            <==> exists j :: 0 <= j < |users| && UserEntries(users[j], utcKey).None?
    decreases |users|
  {
    if users != [] {
      var init := users[..|users| - 1];
      FailsIffSomeAssigneeFails(init, utcKey);
      assert forall j :: 0 <= j < |init| ==> init[j] == users[j];
      if exists j :: 0 <= j < |users| && UserEntries(users[j], utcKey).None? {
        var j :| 0 <= j < |users| && UserEntries(users[j], utcKey).None?;
        if j < |init| { assert UserEntries(init[j], utcKey).None?; }
      }
    }
  }

  /** A worklog without `timeSpent` makes the whole request fail. */
  lemma {:induction false} MissingTimeSpentFails(users: seq<WorkUser>, utcKey: UtcDateKey, j: nat, w: Worklog)
    requires j < |users| && w in IssueWorklogs(users[j].issues)
    requires w.timeSpent.None? || w.timeSpent == Some("")
    ensures WorklogsDataOf(users, utcKey).None?
  {
    var ws := IssueWorklogs(users[j].issues);
    var i :| 0 <= i < |ws| && ws[i] == w;
    assert EntryOf(ws[i], utcKey).None?;
    FailsIffSomeAssigneeFails(users, utcKey);
  }

  // ---------------------------------------------------------------------
  // The loops of the handler
  // ---------------------------------------------------------------------

  /** Lines 217-234: flatten one assignee's worklogs. */
  method FlattenWorklogs(u: WorkUser, utcKey: UtcDateKey) returns (r: Option<seq<Entry>>)
    ensures r == UserEntries(u, utcKey)
  {
    var entries: seq<Entry> := [];
    ghost var seen: seq<Worklog> := [];
    var i := 0;
    while i < |u.issues|
      invariant 0 <= i <= |u.issues|
      invariant seen == IssueWorklogs(u.issues[..i])
      invariant EntriesOf(seen, utcKey) == Some(entries)
    {
      var worklogs := u.issues[i].worklogs;
      ghost var before := seen;
      var j := 0;
      while j < |worklogs|
        invariant 0 <= j <= |worklogs|
        invariant seen == before + worklogs[..j]
        invariant EntriesOf(seen, utcKey) == Some(entries)
      {
        var e := EntryOf(worklogs[j], utcKey);
        if e.None? {
          BadWorklogFails(u, utcKey, i, j);
          return None;
        }
        EntriesStep(seen, worklogs[j], utcKey);
        TakeSnoc(worklogs, j);
        seen := seen + [worklogs[j]];
        entries := entries + [e.value];
        j := j + 1;
      }
      TakeAll(worklogs);
      IssueWorklogsStep(u.issues, i);
      i := i + 1;
    }
    TakeAll(u.issues);
    return Some(entries);
  }

  /** Lines 237-247: group one assignee's entries by date. */
  method GroupByDate(es: seq<Entry>) returns (g: map<string, seq<string>>)
    ensures g == WorklogsGrouped(es)
  {
    g := map[];
    var i := 0;
    while i < |es|
      invariant 0 <= i <= |es|
      invariant g == WorklogsGrouped(es[..i])
    {
      var e := es[i];
      GroupedAppend(es[..i], e);
      TakeSnoc(es, i);
      var times := if e.dateKey in g then g[e.dateKey] else [];
      g := g[e.dateKey := times + [e.timeSpent]];
      i := i + 1;
    }
    TakeAll(es);
  }

  /** Lines 254-272: add up one date's entries. */
  method SumDay(times: seq<string>) returns (t: DailyTotal)
    ensures t == DayTotal(times)
  {
    var totalSpentTime: real := 0.0;
    var shiftcount: nat := 0;
    var i := 0;
    while i < |times|
      invariant 0 <= i <= |times|
      invariant DailyTotal(totalSpentTime, shiftcount) == DayTotal(times[..i])
    {
      TakeTake(times, i);
      var hours := SpentHours(times[i]);
      if hours.Some? {
        totalSpentTime := totalSpentTime + hours.value;
        shiftcount := shiftcount + 1;
      }
      i := i + 1;
    }
    TakeAll(times);
    t := DailyTotal(totalSpentTime, shiftcount);
  }

  /** Lines 250-279: the total of every grouped date. */
  method SumByDate(g: map<string, seq<string>>) returns (totals: map<string, DailyTotal>)
    ensures totals == WorklogsTotalTime(g)
  {
    totals := map[];
    var remaining := g.Keys;
    while remaining != {}
      invariant remaining <= g.Keys
      invariant totals.Keys == set k | k in g.Keys - remaining && |g[k]| > 0
      invariant forall k :: k in totals ==> totals[k] == DayTotal(g[k])
      decreases |remaining|
    {
      var dateKey :| dateKey in remaining;
      if |g[dateKey]| > 0 {
        var t := SumDay(g[dateKey]);
        totals := totals[dateKey := t];
      }
      remaining := remaining - {dateKey};
    }
    assert totals.Keys == WorklogsTotalTime(g).Keys;
  }

  /** Lines 211-287: `worklogsData` for the projects of the worklog
      snapshot, or None when the request fails. */
  method AggregateWorklogs(projects: seq<Project>, utcKey: UtcDateKey) returns (r: Option<WorklogsData>)
    ensures r == WorklogsDataOf(ProjectUsers(projects), utcKey)
  {
    var worklogsData: WorklogsData := map[];
    var p := 0;
    while p < |projects|
      invariant 0 <= p <= |projects|
      invariant WorklogsDataOf(ProjectUsers(projects[..p]), utcKey) == Some(worklogsData)
    {
      ProjectUsersStep(projects, p);
      if projects[p].users.Some? {
        var next := AddAssignees(ProjectUsers(projects[..p]), projects[p].users.value, worklogsData, utcKey);
        if next.None? {
          FailurePropagates(ProjectUsers(projects[..p + 1]), ProjectUsers(projects), utcKey);
          return None;
        }
        worklogsData := next.value;
      } else {
        assert ProjectUsers(projects[..p + 1]) == ProjectUsers(projects[..p]);
      }
      p := p + 1;
    }
    TakeAll(projects);
    return Some(worklogsData);
  }

  /** The inner loop of lines 212-286: the assignees of one project, added
      to the `worklogsData` of the assignees `done` before them. */
  method AddAssignees(ghost done: seq<WorkUser>, users: seq<WorkUser>, m: WorklogsData, utcKey: UtcDateKey)
    returns (r: Option<WorklogsData>)
    requires WorklogsDataOf(done, utcKey) == Some(m)
    ensures r == WorklogsDataOf(done + users, utcKey)
  {
    var worklogsData := m;
    var k := 0;
    assert done + users[..0] == done;
    while k < |users|
      invariant 0 <= k <= |users|
      invariant WorklogsDataOf(done + users[..k], utcKey) == Some(worklogsData)
    {
      var u := users[k];
      AddAssigneeStep(done, users, k, utcKey, worklogsData);
      var record := AssigneeRecord(u, utcKey);
      if record.None? {
        AssigneePrefixFails(done, users, k + 1, utcKey);
        return None;
      }
      worklogsData := worklogsData[u.email := record.value];
      k := k + 1;
    }
    TakeAll(users);
    return Some(worklogsData);
  }

  /** Lines 217-284 for one assignee: the record stored under their email,
      or None when one of their worklogs fails. */
  method AssigneeRecord(u: WorkUser, utcKey: UtcDateKey) returns (r: Option<UserWorklogs>)
    ensures r.None? <==> UserEntries(u, utcKey).None?
    ensures r.Some? ==> r.value == UserRecord(u, UserEntries(u, utcKey).value)
  {
    var entries := FlattenWorklogs(u, utcKey);
    if entries.None? {
      return None;
    }
    var grouped := GroupByDate(entries.value);
    var totals := SumByDate(grouped);
    return Some(UserWorklogs(u.displayName, totals));
  }

  lemma AddAssigneeStep(done: seq<WorkUser>, users: seq<WorkUser>, k: nat, utcKey: UtcDateKey, m: WorklogsData)
    requires k < |users| && WorklogsDataOf(done + users[..k], utcKey) == Some(m)
    ensures UserEntries(users[k], utcKey).None? ==> WorklogsDataOf(done + users[..k + 1], utcKey).None?
    ensures UserEntries(users[k], utcKey).Some? ==>
              WorklogsDataOf(done + users[..k + 1], utcKey)
              == Some(m[users[k].email := UserRecord(users[k], UserEntries(users[k], utcKey).value)])
  {
    AppendTakeSnoc(done, users, k);
    WorklogsDataStep(done + users[..k], users[k], utcKey);
  }

  lemma AssigneePrefixFails(done: seq<WorkUser>, users: seq<WorkUser>, k: nat, utcKey: UtcDateKey)
    requires k <= |users| && WorklogsDataOf(done + users[..k], utcKey).None?
    ensures WorklogsDataOf(done + users, utcKey).None?
  {
    forall u | u in done + users[..k]
      ensures u in done + users
    {
      if u !in done {
        assert u in users[..k];
      }
    }
    FailurePropagates(done + users[..k], done + users, utcKey);
  }

  // One-step unfoldings of the specification folds, used by the loops.

  lemma {:induction false} EntriesStep(ws: seq<Worklog>, w: Worklog, utcKey: UtcDateKey)
    requires EntriesOf(ws, utcKey).Some? && EntryOf(w, utcKey).Some?
    ensures EntriesOf(ws + [w], utcKey) == Some(EntriesOf(ws, utcKey).value + [EntryOf(w, utcKey).value])
  {
    PrefixOfSnoc(ws, w);
  }

  lemma {:induction false} IssueWorklogsStep(issues: seq<WorkIssue>, i: nat)
    requires i < |issues|
    ensures IssueWorklogs(issues[..i + 1]) == IssueWorklogs(issues[..i]) + issues[i].worklogs
  {
    TakeTake(issues, i);
  }

  lemma {:induction false} ProjectUsersStep(projects: seq<Project>, p: nat)
    requires p < |projects|
    ensures ProjectUsers(projects[..p + 1])
            == ProjectUsers(projects[..p]) + (if projects[p].users.Some? then projects[p].users.value else [])
  {
    TakeTake(projects, p);
  }

  lemma {:induction false} WorklogsDataStep(users: seq<WorkUser>, u: WorkUser, utcKey: UtcDateKey)
    ensures WorklogsDataOf(users + [u], utcKey)
            == match WorklogsDataOf(users, utcKey)
               case None => None
               case Some(m) =>
                 match UserEntries(u, utcKey)
                 case None => None
                 case Some(es) => Some(m[u.email := UserRecord(u, es)])
  {
    PrefixOfSnoc(users, u);
  }

  /** A failure on a prefix of the assignees fails the whole request. */
  lemma {:induction false} FailurePropagates(prefix: seq<WorkUser>, users: seq<WorkUser>, utcKey: UtcDateKey)
    requires WorklogsDataOf(prefix, utcKey).None?
    requires forall u :: u in prefix ==> u in users
    ensures WorklogsDataOf(users, utcKey).None?
  {
    FailsIffSomeAssigneeFails(prefix, utcKey);
    var j :| 0 <= j < |prefix| && UserEntries(prefix[j], utcKey).None?;
    assert prefix[j] in users;
    var k :| 0 <= k < |users| && users[k] == prefix[j];
    FailsIffSomeAssigneeFails(users, utcKey);
  }

  /** One bad worklog fails its assignee, hence the request. */

  lemma {:induction false} BadWorklogFails(u: WorkUser, utcKey: UtcDateKey, i: nat, j: nat)
    requires i < |u.issues| && j < |u.issues[i].worklogs|
    requires EntryOf(u.issues[i].worklogs[j], utcKey).None?
    ensures UserEntries(u, utcKey).None?
  {
    var ws := IssueWorklogs(u.issues);
    var w := u.issues[i].worklogs[j];
    assert w in u.issues[i].worklogs;
    assert w in ws;
    var k :| 0 <= k < |ws| && ws[k] == w;
  }
}
