/** The two weekly snapshots the reconciliation reads, as stored documents.

    JavaScript objects iterated with `for…in` become sequences in iteration
    order. Document fields the controller never reads are dropped, but a
    shift keeps every field `connectMS` stored, because the reconciliation
    sends shifts back whole. A missing text field is `None`, and a missing
    list reads as empty. */
module Snapshots {
  import opened Wrappers

  /** One shift, the object `connectMS` pushes and stores (lines 694-703):
      the shift's own id, timestamps and last editor, and the display name,
      start, end and notes of its `sharedShift`. */
  datatype Shift = Shift(
    id: string,
    displayName: Option<string>,
    createdDateTime: string,
    lastModifiedDateTime: string,
    lastModifiedBy: string,
    startDateTime: Option<string>,
    endDateTime: Option<string>,
    notes: Option<string>)

  /** A user of a scheduling group: `group.users[userKey]`. `email` is the
      text the reconciliation uses as a property key, `String(user.email)`,
      so a user stored with `email: null` after a failed lookup has the key
      "null", and one without an email the key "undefined". */
  datatype ScheduleUser = ScheduleUser(email: string, displayName: string, shifts: seq<Shift>)

  /** A scheduling group: `data[groupKey]`, users in `for…in` order. */
  datatype Group = Group(groupName: string, users: seq<ScheduleUser>)

  /** One `ShiftsByWeek` document; `data` holds the groups in `for…in` order. */
  datatype ScheduleDoc = ScheduleDoc(data: seq<Group>)

  /** A Jira worklog as stored by `getIssues` (lines 826-831). */
  datatype Worklog = Worklog(started: string, timeSpent: Option<string>)

  datatype WorkIssue = WorkIssue(issueId: string, worklogs: seq<Worklog>)

  /** An assignee of a project with the issues logged on that week. */
  datatype WorkUser = WorkUser(email: string, displayName: string, issues: seq<WorkIssue>)

  /** A project; `users` is `None` when the field is absent. */
  datatype Project = Project(projectName: string, users: Option<seq<WorkUser>>)

  /** One `IssuesByProject` document. */
  datatype IssuesDoc = IssuesDoc(data: seq<Project>)
}
