/** The archived-week helpers of appController.js (lines 1121-1168):
    `isWeekDataComplete`, `updateIncompleteData` and `filterWorklogsData`.
    The calendar test of `filterWorklogsData` (moment's `isBetween` on the
    `created` date) is a parameter. */
module WeekData {
  import opened Wrappers
  import opened SeqFacts

  datatype ArchivedWorklog = ArchivedWorklog(created: string, started: string, timeSpent: Option<string>)

  datatype ArchivedIssue = ArchivedIssue(issueId: string, isComplete: bool, worklogs: seq<ArchivedWorklog>)

  datatype Assignee = Assignee(assigneeName: string, assigneeEmail: string, issues: seq<ArchivedIssue>)

  /** `isWeekDataComplete` (lines 1121-1125). */
  predicate IsWeekDataComplete(data: seq<Assignee>) {
    forall a, issue :: a in data && issue in a.issues ==> issue.isComplete
  }

  function MarkComplete(issues: seq<ArchivedIssue>): (r: seq<ArchivedIssue>)
    ensures |r| == |issues|
    ensures forall i :: 0 <= i < |issues| ==> r[i] == issues[i].(isComplete := true)
  {
    seq(|issues|, i requires 0 <= i < |issues| => issues[i].(isComplete := true))
  }

  /** `updateIncompleteData` (lines 1131-1145): every issue marked complete,
      every other field kept. */
  function UpdateIncompleteData(data: seq<Assignee>): (r: seq<Assignee>)
    ensures |r| == |data|
    ensures forall i :: 0 <= i < |data| ==> r[i] == data[i].(issues := MarkComplete(data[i].issues))
  {
    seq(|data|, i requires 0 <= i < |data| => data[i].(issues := MarkComplete(data[i].issues)))
  }

  /** After the update the week is complete. */
  lemma UpdateCompletes(data: seq<Assignee>)
    ensures IsWeekDataComplete(UpdateIncompleteData(data))
  {
    var r := UpdateIncompleteData(data);
    forall a, issue | a in r && issue in a.issues ensures issue.isComplete {
      var i :| 0 <= i < |r| && r[i] == a;
      var j :| 0 <= j < |a.issues| && a.issues[j] == issue;
    }
  }

  /** The update changes nothing but the `isComplete` flags. */
  lemma UpdateKeepsShape(data: seq<Assignee>, i: nat, j: nat)
    requires i < |data| && j < |data[i].issues|
    ensures var a := UpdateIncompleteData(data)[i];
            && a.assigneeName == data[i].assigneeName && a.assigneeEmail == data[i].assigneeEmail
            && |a.issues| == |data[i].issues|
            && a.issues[j].issueId == data[i].issues[j].issueId
            && a.issues[j].worklogs == data[i].issues[j].worklogs
  {
  }

  /** Updating twice is updating once. */
  lemma UpdateIdempotent(data: seq<Assignee>)
    ensures UpdateIncompleteData(UpdateIncompleteData(data)) == UpdateIncompleteData(data)
  {
    var r := UpdateIncompleteData(data);
    forall i | 0 <= i < |data| ensures MarkComplete(r[i].issues) == r[i].issues {
      assert MarkComplete(r[i].issues) == r[i].issues;
    }
  }

  /** The update leaves the data as it is exactly when the week is already
      complete. */
  lemma {:induction false} UpdateFixesExactlyComplete(data: seq<Assignee>)
    ensures UpdateIncompleteData(data) == data <==> IsWeekDataComplete(data)
  {
    var r := UpdateIncompleteData(data);
    if IsWeekDataComplete(data) {
      forall i | 0 <= i < |data| ensures r[i] == data[i] {
        forall j | 0 <= j < |data[i].issues| ensures data[i].issues[j].isComplete {
          assert data[i].issues[j] in data[i].issues;
        }
        assert MarkComplete(data[i].issues) == data[i].issues;
      }
    }
    if r == data {
      UpdateCompletes(data);
    }
  }

  // ---------------------------------------------------------------------
  // filterWorklogsData (lines 1149-1168)
  // ---------------------------------------------------------------------

  function FilterWorklogs(ws: seq<ArchivedWorklog>, inRange: ArchivedWorklog -> bool): (r: seq<ArchivedWorklog>)
    ensures forall w :: w in r <==> w in ws && inRange(w)
    ensures |r| <= |ws|
  {
    if ws == [] then []
    else
      var init := ws[..|ws| - 1];
      var last := ws[|ws| - 1];
      SplitLast(ws);
      FilterWorklogs(init, inRange) + (if inRange(last) then [last] else [])
  }

  /** The `reduce` of lines 1153-1162: each issue with its in-range
      worklogs, dropped when none is left. */
  function FilterIssues(issues: seq<ArchivedIssue>, inRange: ArchivedWorklog -> bool): (r: seq<ArchivedIssue>)
    ensures |r| <= |issues|
    ensures forall x :: x in r <==> exists i :: i in issues && x == i.(worklogs := FilterWorklogs(i.worklogs, inRange)) && |x.worklogs| > 0
  {
    if issues == [] then []
    else
      var init := issues[..|issues| - 1];
      var last := issues[|issues| - 1];
      SplitLast(issues);
      var kept := FilterWorklogs(last.worklogs, inRange);
      var prev := FilterIssues(init, inRange);
      MapFilterSnoc(init, last, (i: ArchivedIssue) => i.(worklogs := FilterWorklogs(i.worklogs, inRange)), (x: ArchivedIssue) => |x.worklogs| > 0, prev);
      prev + (if |kept| > 0 then [last.(worklogs := kept)] else [])
  }

  function Reshape(a: Assignee, inRange: ArchivedWorklog -> bool): Assignee {
    Assignee(a.assigneeName, a.assigneeEmail, FilterIssues(a.issues, inRange))
  }

  /** `filterWorklogsData`: reshaped assignees, dropped when no issue is
      left. */
  function FilterWorklogsData(assignees: seq<Assignee>, inRange: ArchivedWorklog -> bool): (r: seq<Assignee>)
    ensures |r| <= |assignees|
    ensures forall x :: x in r <==> exists a :: a in assignees && x == Reshape(a, inRange) && |x.issues| > 0
  {
    if assignees == [] then []
    else
      var init := assignees[..|assignees| - 1];
      var last := assignees[|assignees| - 1];
      SplitLast(assignees);
      var x := Reshape(last, inRange);
      var prev := FilterWorklogsData(init, inRange);
      MapFilterSnoc(init, last, (a: Assignee) => Reshape(a, inRange), (x: Assignee) => |x.issues| > 0, prev);
      prev + (if |x.issues| > 0 then [x] else [])
  }

  /** Everything the filter keeps is in range, and nothing is left empty. */
  lemma FilterSound(assignees: seq<Assignee>, inRange: ArchivedWorklog -> bool, x: Assignee, issue: ArchivedIssue, w: ArchivedWorklog)
    requires x in FilterWorklogsData(assignees, inRange)
    ensures |x.issues| > 0
    ensures issue in x.issues ==> |issue.worklogs| > 0
    ensures issue in x.issues && w in issue.worklogs ==>
              inRange(w) && exists a, i :: a in assignees && i in a.issues
                                         && a.assigneeEmail == x.assigneeEmail && i.issueId == issue.issueId && w in i.worklogs
  {
    NothingLeftEmpty(assignees, inRange, x, issue);
    var a :| a in assignees && x == Reshape(a, inRange) && |x.issues| > 0;
    if issue in x.issues && w in issue.worklogs {
      var i :| i in a.issues && issue == i.(worklogs := FilterWorklogs(i.worklogs, inRange)) && |issue.worklogs| > 0;
      assert w in i.worklogs && inRange(w);
      assert a.assigneeEmail == x.assigneeEmail && i.issueId == issue.issueId;
    }
  }

  /** Every in-range worklog survives, under its issue and assignee. */
  lemma FilterComplete(assignees: seq<Assignee>, inRange: ArchivedWorklog -> bool, a: Assignee, i: ArchivedIssue, w: ArchivedWorklog)
    requires a in assignees && i in a.issues && w in i.worklogs && inRange(w)
    ensures exists x, issue :: x in FilterWorklogsData(assignees, inRange) && issue in x.issues
                               && x.assigneeName == a.assigneeName && x.assigneeEmail == a.assigneeEmail
                               && issue.issueId == i.issueId && w in issue.worklogs
  {
    var issue := i.(worklogs := FilterWorklogs(i.worklogs, inRange));
    assert w in issue.worklogs;
    assert issue in FilterIssues(a.issues, inRange);
    var x := Reshape(a, inRange);
    assert x in FilterWorklogsData(assignees, inRange);
  }

  lemma {:induction false} FilterWorklogsKeepsAll(ws: seq<ArchivedWorklog>, inRange: ArchivedWorklog -> bool)
    requires forall w :: w in ws ==> inRange(w)
    ensures FilterWorklogs(ws, inRange) == ws
  {
    if ws != [] {
      var init := ws[..|ws| - 1];
      var last := ws[|ws| - 1];
      SplitLast(ws);
      assert forall w :: w in init ==> w in ws;
      FilterWorklogsKeepsAll(init, inRange);
      FilterWorklogsSnoc(init, last, inRange);
    }
  }

  lemma FilterWorklogsSnoc(ws: seq<ArchivedWorklog>, last: ArchivedWorklog, inRange: ArchivedWorklog -> bool)
    ensures FilterWorklogs(ws + [last], inRange) == FilterWorklogs(ws, inRange) + (if inRange(last) then [last] else [])
  {
    PrefixOfSnoc(ws, last);
  }

  /** Nothing the filter keeps is left empty. */
  lemma NothingLeftEmpty(assignees: seq<Assignee>, inRange: ArchivedWorklog -> bool, x: Assignee, issue: ArchivedIssue)
    requires x in FilterWorklogsData(assignees, inRange)
    ensures |x.issues| > 0
    ensures issue in x.issues ==> |issue.worklogs| > 0
  {
    var a :| a in assignees && x == Reshape(a, inRange) && |x.issues| > 0;
  }

  lemma FilterIssuesSnoc(issues: seq<ArchivedIssue>, last: ArchivedIssue, inRange: ArchivedWorklog -> bool)
    ensures var kept := FilterWorklogs(last.worklogs, inRange);
            FilterIssues(issues + [last], inRange)
            == FilterIssues(issues, inRange) + (if |kept| > 0 then [last.(worklogs := kept)] else [])
  {
    PrefixOfSnoc(issues, last);
  }

  lemma FilterDataSnoc(assignees: seq<Assignee>, last: Assignee, inRange: ArchivedWorklog -> bool)
    ensures var x := Reshape(last, inRange);
            FilterWorklogsData(assignees + [last], inRange)
            == FilterWorklogsData(assignees, inRange) + (if |x.issues| > 0 then [x] else [])
  {
    PrefixOfSnoc(assignees, last);
  }

  lemma {:induction false} FilterIssuesKeepsAll(issues: seq<ArchivedIssue>, inRange: ArchivedWorklog -> bool)
    requires forall k :: 0 <= k < |issues| ==> FilterWorklogs(issues[k].worklogs, inRange) == issues[k].worklogs && |issues[k].worklogs| > 0
    ensures FilterIssues(issues, inRange) == issues
  {
    if issues != [] {
      var init := issues[..|issues| - 1];
      var last := issues[|issues| - 1];
      SplitLast(issues);
      FilterIssuesKeepsAll(init, inRange);
      FilterIssuesSnoc(init, last, inRange);
      assert last.(worklogs := FilterWorklogs(last.worklogs, inRange)) == last;
    }
  }

  lemma {:induction false} FilterDataKeepsAll(assignees: seq<Assignee>, inRange: ArchivedWorklog -> bool)
    requires forall k :: 0 <= k < |assignees| ==> FilterIssues(assignees[k].issues, inRange) == assignees[k].issues && |assignees[k].issues| > 0
    ensures FilterWorklogsData(assignees, inRange) == assignees
  {
    if assignees != [] {
      var init := assignees[..|assignees| - 1];
      var last := assignees[|assignees| - 1];
      SplitLast(assignees);
      FilterDataKeepsAll(init, inRange);
      FilterDataSnoc(init, last, inRange);
      assert Reshape(last, inRange) == last;
    }
  }

  /** Filtering an already filtered week changes nothing. */
  lemma FilterIdempotent(assignees: seq<Assignee>, inRange: ArchivedWorklog -> bool)
    ensures FilterWorklogsData(FilterWorklogsData(assignees, inRange), inRange) == FilterWorklogsData(assignees, inRange)
  {
    var f := FilterWorklogsData(assignees, inRange);
    forall k | 0 <= k < |f| ensures FilterIssues(f[k].issues, inRange) == f[k].issues && |f[k].issues| > 0 {
      var x := f[k];
      assert x in f;
      var a :| a in assignees && x == Reshape(a, inRange) && |x.issues| > 0;
      forall j | 0 <= j < |x.issues|
        ensures FilterWorklogs(x.issues[j].worklogs, inRange) == x.issues[j].worklogs && |x.issues[j].worklogs| > 0
      {
        var issue := x.issues[j];
        assert issue in x.issues;
        var i :| i in a.issues && issue == i.(worklogs := FilterWorklogs(i.worklogs, inRange)) && |issue.worklogs| > 0;
        FilterWorklogsKeepsAll(issue.worklogs, inRange);
      }
      FilterIssuesKeepsAll(x.issues, inRange);
    }
    FilterDataKeepsAll(f, inRange);
  }
}
