/** The per-project loop of `getIssues` (appController.js lines 792-852):
    every issue of the project that has a worklog started in the week is
    filed under its assignee, found by email (lines 842-847).

    The Jira requests are left out: `issues` is the concatenation of the
    search pages, and each issue carries the worklogs its worklog request
    returned, `None` when that request failed (the `catch` of lines
    848-850). The week test of lines 811-814 is the parameter `inWeek`. */
module ProjectUsers {
  import opened SeqFacts
  import opened Wrappers

  /** The four fields copied at lines 826-831. */
  datatype JiraWorklog = JiraWorklog(created: string, updated: string, timeSpent: Option<string>, started: string)

  datatype JiraAssignee = JiraAssignee(accountId: string, emailAddress: Option<string>, displayName: Option<string>)

  datatype JiraIssue = JiraIssue(
    id: string,
    key: string,
    summary: string,
    assignee: Option<JiraAssignee>,
    worklogs: Option<seq<JiraWorklog>>)

  /** `issueObject` (lines 822-832). */
  datatype IssueObject = IssueObject(issueId: string, issueKey: string, summary: string, worklogs: seq<JiraWorklog>)

  /** An element of `projectObject.users`; `None` stands for `undefined`. */
  datatype ProjectUser = ProjectUser(displayName: Option<string>, email: Option<string>, issues: seq<IssueObject>)

  // ---------------------------------------------------------------------
  // Specification
  // ---------------------------------------------------------------------

  /** `worklogs.filter(…)` (lines 811-814): the worklogs of the week, in
      order. */
  function InWeek(ws: seq<JiraWorklog>, inWeek: JiraWorklog -> bool): (r: seq<JiraWorklog>)
    ensures |r| <= |ws|
    ensures forall w :: w in r <==> w in ws && inWeek(w)
  {
    if ws == [] then []
    else
      var init := ws[..|ws| - 1];
      var last := ws[|ws| - 1];
      SplitLast(ws);
      InWeek(init, inWeek) + (if inWeek(last) then [last] else [])
  }

  /** `assignee ? assignee.emailAddress : undefined` (line 796). */
  function AssigneeEmail(issue: JiraIssue): Option<string> {
    if issue.assignee.Some? then issue.assignee.value.emailAddress else None
  }

  /** `assignee ? assignee.displayName : undefined` (line 797). */
  function AssigneeName(issue: JiraIssue): Option<string> {
    if issue.assignee.Some? then issue.assignee.value.displayName else None
  }

  /** The object an issue contributes: none when its worklog request failed
      or when no worklog falls in the week (the `continue` of lines
      817-819). */
  function IssueObjectOf(issue: JiraIssue, inWeek: JiraWorklog -> bool): (r: Option<IssueObject>)
    ensures r.Some? <==> issue.worklogs.Some? && exists w :: w in issue.worklogs.value && inWeek(w)
    ensures r.Some? ==> |r.value.worklogs| > 0 && forall w :: w in r.value.worklogs ==> inWeek(w)
  {
    if issue.worklogs.None? then None
    else
      var kept := InWeek(issue.worklogs.value, inWeek);
      if |kept| == 0 then None
      else
        assert kept[0] in kept;
        Some(IssueObject(issue.id, issue.key, issue.summary, kept))
  }

  /** `projectObject.users.find(user => user.email === assigneeEmail)`: the
      index of the first user with that email. */
  function FindUser(users: seq<ProjectUser>, email: Option<string>): (r: Option<nat>)
    ensures r.None? <==> forall k :: 0 <= k < |users| ==> users[k].email != email
    ensures r.Some? ==> r.value < |users| && users[r.value].email == email
                        && forall k :: 0 <= k < r.value ==> users[k].email != email
  {
    if users == [] then None
    else if users[0].email == email then Some(0)
    else
      match FindUser(users[1..], email)
      case None => None
      case Some(k) => Some(k + 1)
  }

  /** One issue of the loop (lines 793-851). */
  function Upsert(users: seq<ProjectUser>, issue: JiraIssue, inWeek: JiraWorklog -> bool): seq<ProjectUser> {
    match IssueObjectOf(issue, inWeek)
    case None => users
    case Some(obj) =>
      var email := AssigneeEmail(issue);
      match FindUser(users, email)
      case Some(k) => users[k := users[k].(issues := users[k].issues + [obj])]
      case None => users + [ProjectUser(AssigneeName(issue), email, [obj])]
  }

  /** `projectObject.users` after the loop over `issues`. */
  function UsersOf(issues: seq<JiraIssue>, inWeek: JiraWorklog -> bool): seq<ProjectUser> {
    if issues == [] then []
    else Upsert(UsersOf(issues[..|issues| - 1], inWeek), issues[|issues| - 1], inWeek)
  }

  // ---------------------------------------------------------------------
  // Reference: one user per email, holding that email's issues
  // ---------------------------------------------------------------------

  /** The emails of the issues that contribute. */
  function KeptEmails(issues: seq<JiraIssue>, inWeek: JiraWorklog -> bool): set<Option<string>> {
    set i | i in issues && IssueObjectOf(i, inWeek).Some? :: AssigneeEmail(i)
  }

  /** The objects of the contributing issues with assignee email `email`, in
      order. */
  function IssuesFor(issues: seq<JiraIssue>, email: Option<string>, inWeek: JiraWorklog -> bool): seq<IssueObject> {
    if issues == [] then []
    else
      var last := issues[|issues| - 1];
      var obj := IssueObjectOf(last, inWeek);
      IssuesFor(issues[..|issues| - 1], email, inWeek)
        + (if obj.Some? && AssigneeEmail(last) == email then [obj.value] else [])
  }

  /** The assignee name of the first contributing issue with email `email`. */
  function FirstName(issues: seq<JiraIssue>, email: Option<string>, inWeek: JiraWorklog -> bool): Option<Option<string>> {
    if issues == [] then None
    else
      var last := issues[|issues| - 1];
      match FirstName(issues[..|issues| - 1], email, inWeek)
      case Some(name) => Some(name)
      case None =>
        if IssueObjectOf(last, inWeek).Some? && AssigneeEmail(last) == email then Some(AssigneeName(last)) else None
  }

  predicate DistinctEmails(users: seq<ProjectUser>) {
    forall j, k :: 0 <= j < k < |users| ==> users[j].email != users[k].email
  }

  function UserEmails(users: seq<ProjectUser>): set<Option<string>> {
    set k | 0 <= k < |users| :: users[k].email
  }

  /** `users` files the contributing issues of `issues`: one user per email,
      named after the first of its issues, holding all of them in order. */
  predicate Describes(users: seq<ProjectUser>, issues: seq<JiraIssue>, inWeek: JiraWorklog -> bool) {
    && DistinctEmails(users)
    && UserEmails(users) == KeptEmails(issues, inWeek)
    && forall k :: 0 <= k < |users| ==>
         && users[k].issues == IssuesFor(issues, users[k].email, inWeek)
         && FirstName(issues, users[k].email, inWeek) == Some(users[k].displayName)
  }

  // ---------------------------------------------------------------------
  // The loop builds the reference
  // ---------------------------------------------------------------------

  lemma IssuesForLast(issues: seq<JiraIssue>, issue: JiraIssue, email: Option<string>, inWeek: JiraWorklog -> bool)
    ensures var obj := IssueObjectOf(issue, inWeek);
            IssuesFor(issues + [issue], email, inWeek)
            == IssuesFor(issues, email, inWeek) + (if obj.Some? && AssigneeEmail(issue) == email then [obj.value] else [])
    ensures FirstName(issues + [issue], email, inWeek)
            == if FirstName(issues, email, inWeek).Some? then FirstName(issues, email, inWeek)
               else if IssueObjectOf(issue, inWeek).Some? && AssigneeEmail(issue) == email then Some(AssigneeName(issue))
               else None
  {
    PrefixOfSnoc(issues, issue);
  }

  /** An email with no contributing issue has no issues and no name. */
  lemma {:induction false} NotKept(issues: seq<JiraIssue>, email: Option<string>, inWeek: JiraWorklog -> bool)
    requires email !in KeptEmails(issues, inWeek)
    ensures IssuesFor(issues, email, inWeek) == []
    ensures FirstName(issues, email, inWeek) == None
  {
    if issues != [] {
      var init := issues[..|issues| - 1];
      SplitLast(issues);
      assert KeptEmails(init, inWeek) <= KeptEmails(issues, inWeek);
      NotKept(init, email, inWeek);
    }
  }

  /** A kept email has a name. */
  lemma {:induction false} KeptHasName(issues: seq<JiraIssue>, email: Option<string>, inWeek: JiraWorklog -> bool)
    requires email in KeptEmails(issues, inWeek)
    ensures FirstName(issues, email, inWeek).Some?
  {
    var init := issues[..|issues| - 1];
    var last := issues[|issues| - 1];
    SplitLast(issues);
    if email in KeptEmails(init, inWeek) {
      KeptHasName(init, email, inWeek);
    } else {
      assert KeptEmails(issues, inWeek) == KeptEmails(init, inWeek) + (if IssueObjectOf(last, inWeek).Some? then {AssigneeEmail(last)} else {});
    }
  }

  lemma KeptEmailsLast(issues: seq<JiraIssue>, issue: JiraIssue, inWeek: JiraWorklog -> bool)
    ensures KeptEmails(issues + [issue], inWeek)
            == KeptEmails(issues, inWeek) + (if IssueObjectOf(issue, inWeek).Some? then {AssigneeEmail(issue)} else {})
  {
  }

  /** An issue that contributes nothing. */
  lemma SkipStep(users: seq<ProjectUser>, issues: seq<JiraIssue>, issue: JiraIssue, inWeek: JiraWorklog -> bool)
    requires Describes(users, issues, inWeek)
    requires IssueObjectOf(issue, inWeek).None?
    ensures Describes(users, issues + [issue], inWeek)
  {
    KeptEmailsLast(issues, issue, inWeek);
    forall k | 0 <= k < |users|
      ensures users[k].issues == IssuesFor(issues + [issue], users[k].email, inWeek)
      ensures FirstName(issues + [issue], users[k].email, inWeek) == Some(users[k].displayName)
    {
      IssuesForLast(issues, issue, users[k].email, inWeek);
    }
  }

  /** An issue filed under the existing user `k`. */
  lemma FoundStep(users: seq<ProjectUser>, issues: seq<JiraIssue>, issue: JiraIssue, inWeek: JiraWorklog -> bool, k: nat)
    requires Describes(users, issues, inWeek)
    requires IssueObjectOf(issue, inWeek).Some?
    requires k < |users| && users[k].email == AssigneeEmail(issue)
    ensures Describes(users[k := users[k].(issues := users[k].issues + [IssueObjectOf(issue, inWeek).value])], issues + [issue], inWeek)
  {
    var obj := IssueObjectOf(issue, inWeek).value;
    var r := users[k := users[k].(issues := users[k].issues + [obj])];
    SameEmails(users, r);
    KeptEmailsLast(issues, issue, inWeek);
    assert users[k].email in UserEmails(users);
    FoundEntries(users, issues, issue, inWeek, k, r);
  }

  /** Filing an issue under an existing user changes no email. */
  lemma SameEmails(users: seq<ProjectUser>, r: seq<ProjectUser>)
    requires |r| == |users| && forall j :: 0 <= j < |r| ==> r[j].email == users[j].email
    ensures UserEmails(r) == UserEmails(users)
    ensures DistinctEmails(users) ==> DistinctEmails(r)
  {
  }

  lemma FoundEntries(users: seq<ProjectUser>, issues: seq<JiraIssue>, issue: JiraIssue, inWeek: JiraWorklog -> bool, k: nat,
                     r: seq<ProjectUser>)
    requires Describes(users, issues, inWeek)
    requires IssueObjectOf(issue, inWeek).Some?
    requires k < |users| && users[k].email == AssigneeEmail(issue)
    requires r == users[k := users[k].(issues := users[k].issues + [IssueObjectOf(issue, inWeek).value])]
    ensures forall j :: 0 <= j < |r| ==>
              && r[j].issues == IssuesFor(issues + [issue], r[j].email, inWeek)
              && FirstName(issues + [issue], r[j].email, inWeek) == Some(r[j].displayName)
  {
    forall j | 0 <= j < |r|
      ensures r[j].issues == IssuesFor(issues + [issue], r[j].email, inWeek)
      ensures FirstName(issues + [issue], r[j].email, inWeek) == Some(r[j].displayName)
    {
      IssuesForLast(issues, issue, users[j].email, inWeek);
    }
  }

  /** An issue whose email is new: a user is appended. */
  lemma NewStep(users: seq<ProjectUser>, issues: seq<JiraIssue>, issue: JiraIssue, inWeek: JiraWorklog -> bool)
    requires Describes(users, issues, inWeek)
    requires IssueObjectOf(issue, inWeek).Some?
    requires forall k :: 0 <= k < |users| ==> users[k].email != AssigneeEmail(issue)
    ensures Describes(users + [ProjectUser(AssigneeName(issue), AssigneeEmail(issue), [IssueObjectOf(issue, inWeek).value])],
                      issues + [issue], inWeek)
  {
    var u := ProjectUser(AssigneeName(issue), AssigneeEmail(issue), [IssueObjectOf(issue, inWeek).value]);
    AppendUser(users, u);
    KeptEmailsLast(issues, issue, inWeek);
    NewEntries(users, issues, issue, inWeek, users + [u]);
  }

  /** Appending a user with a new email adds that email and keeps them distinct. */
  lemma AppendUser(users: seq<ProjectUser>, u: ProjectUser)
    requires forall k :: 0 <= k < |users| ==> users[k].email != u.email
    ensures u.email !in UserEmails(users)
    ensures UserEmails(users + [u]) == UserEmails(users) + {u.email}
    ensures DistinctEmails(users) ==> DistinctEmails(users + [u])
  {
    var r := users + [u];
    forall x ensures x in UserEmails(r) <==> x in UserEmails(users) || x == u.email {
      if x in UserEmails(r) {
        var k :| 0 <= k < |r| && r[k].email == x;
        if k < |users| { assert users[k].email == x; }
      }
      if x in UserEmails(users) {
        var k :| 0 <= k < |users| && users[k].email == x;
        assert r[k].email == x;
      }
      if x == u.email { assert r[|users|].email == x; }
    }
  }

  lemma NewEntries(users: seq<ProjectUser>, issues: seq<JiraIssue>, issue: JiraIssue, inWeek: JiraWorklog -> bool,
                   r: seq<ProjectUser>)
    requires Describes(users, issues, inWeek)
    requires IssueObjectOf(issue, inWeek).Some?
    requires AssigneeEmail(issue) !in KeptEmails(issues, inWeek)
    requires r == users + [ProjectUser(AssigneeName(issue), AssigneeEmail(issue), [IssueObjectOf(issue, inWeek).value])]
    ensures forall j :: 0 <= j < |r| ==>
              && r[j].issues == IssuesFor(issues + [issue], r[j].email, inWeek)
              && FirstName(issues + [issue], r[j].email, inWeek) == Some(r[j].displayName)
  {
    NotKept(issues, AssigneeEmail(issue), inWeek);
    forall j | 0 <= j < |r|
      ensures r[j].issues == IssuesFor(issues + [issue], r[j].email, inWeek)
      ensures FirstName(issues + [issue], r[j].email, inWeek) == Some(r[j].displayName)
    {
      IssuesForLast(issues, issue, r[j].email, inWeek);
    }
  }

  /** One step of the loop keeps the description. */
  lemma UpsertStep(users: seq<ProjectUser>, issues: seq<JiraIssue>, issue: JiraIssue, inWeek: JiraWorklog -> bool)
    requires Describes(users, issues, inWeek)
    ensures Describes(Upsert(users, issue, inWeek), issues + [issue], inWeek)
  {
    if IssueObjectOf(issue, inWeek).None? {
      SkipStep(users, issues, issue, inWeek);
    } else {
      match FindUser(users, AssigneeEmail(issue))
      case Some(k) => FoundStep(users, issues, issue, inWeek, k);
      case None => NewStep(users, issues, issue, inWeek);
    }
  }

  lemma {:induction false} UsersOfDescribes(issues: seq<JiraIssue>, inWeek: JiraWorklog -> bool)
    ensures Describes(UsersOf(issues, inWeek), issues, inWeek)
  {
    if issues != [] {
      var init := issues[..|issues| - 1];
      var last := issues[|issues| - 1];
      UsersOfDescribes(init, inWeek);
      UpsertStep(UsersOf(init, inWeek), init, last, inWeek);
      SplitLast(issues);
    }
  }

  /** Every issue with a worklog in the week is filed under its assignee's
      email, and only those issues are filed. */
  lemma EveryIssueFiled(issues: seq<JiraIssue>, inWeek: JiraWorklog -> bool, issue: JiraIssue)
    requires issue in issues && IssueObjectOf(issue, inWeek).Some?
    ensures exists k :: 0 <= k < |UsersOf(issues, inWeek)| && UsersOf(issues, inWeek)[k].email == AssigneeEmail(issue)
  {
    UsersOfDescribes(issues, inWeek);
    assert AssigneeEmail(issue) in KeptEmails(issues, inWeek);
  }

  /** An issue whose worklog request failed, or with no worklog in the
      week, leaves the users as they are. */
  lemma SkippedIssue(issues: seq<JiraIssue>, issue: JiraIssue, inWeek: JiraWorklog -> bool)
    requires issue.worklogs.None? || forall w :: w in issue.worklogs.value ==> !inWeek(w)
    ensures UsersOf(issues + [issue], inWeek) == UsersOf(issues, inWeek)
  {
    PrefixOfSnoc(issues, issue);
  }

  /** An unassigned issue and an issue whose assignee has no email are filed
      under the same user: two `undefined` emails are `===`. */
  lemma UnassignedAndEmaillessMerge(w: JiraWorklog, inWeek: JiraWorklog -> bool)
    requires inWeek(w)
    ensures var a := JiraIssue("1", "P-1", "a", None, Some([w]));
            var b := JiraIssue("2", "P-2", "b", Some(JiraAssignee("acc", None, Some("Ann"))), Some([w]));
            |UsersOf([a, b], inWeek)| == 1 && UsersOf([a, b], inWeek)[0].displayName.None?
  {
    var a := JiraIssue("1", "P-1", "a", None, Some([w]));
    var b := JiraIssue("2", "P-2", "b", Some(JiraAssignee("acc", None, Some("Ann"))), Some([w]));
    assert InWeek([w], inWeek) == [w] by {
      assert [w][..0] == [];
    }
    var oa := IssueObject("1", "P-1", "a", [w]);
    assert IssueObjectOf(a, inWeek) == Some(oa);
    assert IssueObjectOf(b, inWeek).Some?;
    assert AssigneeEmail(a) == None && AssigneeEmail(b) == None;
    assert [a][..0] == [];
    assert UsersOf([a], inWeek) == [ProjectUser(None, None, [oa])];
    assert FindUser(UsersOf([a], inWeek), None) == Some(0);
    assert [a, b][..1] == [a];
  }

  // ---------------------------------------------------------------------
  // The loop of lines 793-851
  // ---------------------------------------------------------------------

  /** The loop over the issues of one project: `projectObject.users` at the
      end is the specification's, one user per email. */
  method CollectUsers(issues: seq<JiraIssue>, inWeek: JiraWorklog -> bool) returns (users: seq<ProjectUser>)
    ensures users == UsersOf(issues, inWeek)
    ensures Describes(users, issues, inWeek)
  {
    users := [];
    for i := 0 to |issues|
      invariant users == UsersOf(issues[..i], inWeek)
    {
      var issue := issues[i];
      TakeTake(issues, i);
      if issue.worklogs.None? {
        continue;
      }
      var filteredWorklogs := InWeek(issue.worklogs.value, inWeek);
      if |filteredWorklogs| == 0 {
        continue;
      }
      var issueObject := IssueObject(issue.id, issue.key, issue.summary, filteredWorklogs);
      var assigneeEmail := AssigneeEmail(issue);
      var existingUser := FindUser(users, assigneeEmail);
      if existingUser.Some? {
        var k := existingUser.value;
        users := users[k := users[k].(issues := users[k].issues + [issueObject])];
      } else {
        users := users + [ProjectUser(AssigneeName(issue), assigneeEmail, [issueObject])];
      }
    }
    TakeAll(issues);
    UsersOfDescribes(issues, inWeek);
  }
}
