/** The two reconciliation handlers, `getUsersWithLoggedShifts` (lines
    130-352) and `BonusLoggedShifts` (lines 356-577) of appController.js, as
    one procedure over a keyword list. The week window is computed, the
    snapshots the two queries return are inputs, and any exception ends in
    the 500 response of lines 348-350. */
module Reconciliation {
  import opened SeqFacts
  import opened Wrappers
  import opened Strings
  import opened Snapshots
  import opened ShiftClassifier
  import opened Aggregation
  import opened Validation
  import opened WeekWindow

  // ---------------------------------------------------------------------
  // The first pass (lines 163-209)
  // ---------------------------------------------------------------------

  /** What a key of the unused `shiftsData` object holds: `{}` made for a
      group name, or `{userDisplayName, shifts}` made for an email. */
  datatype Slot = GroupSlot | UserSlot

  type Slots = map<string, Slot>

  /** `new Date(shift.startDateTime).toISOString().split('T')[0]`
      (lines 197-200); None when it throws, an absent `startDateTime`
      included. */
  function StartKey(s: Shift, utcKey: UtcDateKey): (r: Option<string>)
    ensures r.Some? ==> s.startDateTime.Some?
  {
    if s.startDateTime.None? then None else utcKey(s.startDateTime.value)
  }

  predicate StartsReadable(shifts: seq<Shift>, utcKey: UtcDateKey) {
    forall i :: 0 <= i < |shifts| ==> StartKey(shifts[i], utcKey).Some?
  }

  /** One user in the first pass (lines 174-204). A user with kept shifts
      needs every start to be a readable date, and an email key that is not
      a group's `{}`: pushing onto that object's missing `shifts` throws. */
  function FirstPassUser(slots: Slots, u: ScheduleUser, keywords: seq<string>, utcKey: UtcDateKey): Option<Slots> {
    var kept := Kept(u.shifts, keywords);
    if |kept| == 0 then Some(slots)
    else if !StartsReadable(kept, utcKey) then None
    else if u.email in slots && slots[u.email] == GroupSlot then None
    else Some(slots[u.email := UserSlot])
  }

  function FirstPassUsers(slots: Slots, users: seq<ScheduleUser>, keywords: seq<string>, utcKey: UtcDateKey): Option<Slots> {
    if users == [] then Some(slots)
    else
      match FirstPassUsers(slots, users[..|users| - 1], keywords, utcKey)
      case None => None
      case Some(s) => FirstPassUser(s, users[|users| - 1], keywords, utcKey)
  }

  function FirstPassGroup(slots: Slots, g: Group, keywords: seq<string>, utcKey: UtcDateKey): Option<Slots> {
    var s := if g.groupName in slots then slots else slots[g.groupName := GroupSlot];
    FirstPassUsers(s, g.users, keywords, utcKey)
  }

  /** The keys of `shiftsData` after the first pass, or None when it throws. */
  function FirstPass(groups: seq<Group>, keywords: seq<string>, utcKey: UtcDateKey): Option<Slots> {
    if groups == [] then Some(map[])
    else
      match FirstPass(groups[..|groups| - 1], keywords, utcKey)
      case None => None
      case Some(s) => FirstPassGroup(s, groups[|groups| - 1], keywords, utcKey)
  }

  // ---------------------------------------------------------------------
  // The handler
  // ---------------------------------------------------------------------

  /** `response.send(validatedShiftsData)` or the 500 response. */
  datatype Response = Ok(body: ValidatedShiftsData) | ServerError

  /** `IssueByProject[0]?.data || []` (line 211). */
  function ProjectsOf(issueDocs: seq<IssuesDoc>): seq<Project> {
    if issueDocs == [] then [] else issueDocs[0].data
  }

  /** The response for the snapshots the two queries returned: the first
      schedule snapshot is required (line 165), the first worklog snapshot
      is optional. */
  function Reconcile(keywords: seq<string>, shiftDocs: seq<ScheduleDoc>, issueDocs: seq<IssuesDoc>, utcKey: UtcDateKey): Response {
    if shiftDocs == [] then ServerError
    else
      var groups := shiftDocs[0].data;
      if FirstPass(groups, keywords, utcKey).None? then ServerError
      else
        match WorklogsDataOf(ProjectUsers(ProjectsOf(issueDocs)), utcKey)
        case None => ServerError
        case Some(worklogsData) =>
          match ValidatedShiftsOf(groups, keywords, worklogsData)
          case None => ServerError
          case Some(v) => Ok(v)
  }

  // ---------------------------------------------------------------------
  // Properties
  // ---------------------------------------------------------------------

  lemma FirstPassUsersLast(slots: Slots, users: seq<ScheduleUser>, keywords: seq<string>, utcKey: UtcDateKey)
    requires users != []
    ensures var before := FirstPassUsers(slots, users[..|users| - 1], keywords, utcKey);
            FirstPassUsers(slots, users, keywords, utcKey)
            == if before.None? then None else FirstPassUser(before.value, users[|users| - 1], keywords, utcKey)
  {
  }

  lemma FirstPassLast(groups: seq<Group>, keywords: seq<string>, utcKey: UtcDateKey)
    requires groups != []
    ensures var before := FirstPass(groups[..|groups| - 1], keywords, utcKey);
            FirstPass(groups, keywords, utcKey)
            == if before.None? then None else FirstPassGroup(before.value, groups[|groups| - 1], keywords, utcKey)
  {
  }

  /** Every kept shift a successful first pass went through has a readable
      start. */
  lemma {:induction false} FirstPassUsersReadable(slots: Slots, users: seq<ScheduleUser>, keywords: seq<string>, utcKey: UtcDateKey)
    requires FirstPassUsers(slots, users, keywords, utcKey).Some?
    ensures forall u :: u in users ==> StartsReadable(Kept(u.shifts, keywords), utcKey)
    decreases |users|
  {
    if users != [] {
      var init := users[..|users| - 1];
      FirstPassUsersLast(slots, users, keywords, utcKey);
      FirstPassUsersReadable(slots, init, keywords, utcKey);
      SplitLast(users);
    }
  }

  lemma {:induction false} FirstPassReadable(groups: seq<Group>, keywords: seq<string>, utcKey: UtcDateKey)
    requires FirstPass(groups, keywords, utcKey).Some?
    ensures forall p :: p in Placements(groups) ==> StartsReadable(Kept(p.user.shifts, keywords), utcKey)
    decreases |groups|
  {
    if groups != [] {
      var init := groups[..|groups| - 1];
      var last := groups[|groups| - 1];
      FirstPassLast(groups, keywords, utcKey);
      FirstPassReadable(init, keywords, utcKey);
      var s := FirstPass(init, keywords, utcKey).value;
      var s' := if last.groupName in s then s else s[last.groupName := GroupSlot];
      FirstPassUsersReadable(s', last.users, keywords, utcKey);
      PlacementsLast(groups);
      forall p | p in Placements(groups) ensures StartsReadable(Kept(p.user.shifts, keywords), utcKey) {
        if p !in Placements(init) {
          var i :| 0 <= i < |last.users| && PlaceUsers(last.groupName, last.users)[i] == p;
          assert p.user in last.users;
        }
      }
    }
  }

  /** A first pass that does not throw leaves the join nothing to throw on:
      every kept shift has a `startDateTime`. */
  lemma FirstPassSecuresJoin(groups: seq<Group>, keywords: seq<string>, utcKey: UtcDateKey, worklogsData: WorklogsData)
    requires FirstPass(groups, keywords, utcKey).Some?
    ensures ValidatedShiftsOf(groups, keywords, worklogsData).Some?
  {
    FirstPassReadable(groups, keywords, utcKey);
    forall p, s | p in Placements(groups) && s in Kept(p.user.shifts, keywords) ensures s.startDateTime.Some? {
      var kept := Kept(p.user.shifts, keywords);
      var i :| 0 <= i < |kept| && kept[i] == s;
      assert StartKey(kept[i], utcKey).Some?;
    }
    JoinFailsIff(groups, keywords, worklogsData);
  }

  /** A kept shift whose start is not a readable date fails the request. */
  lemma UnreadableStartFails(keywords: seq<string>, shiftDocs: seq<ScheduleDoc>, issueDocs: seq<IssuesDoc>, utcKey: UtcDateKey, p: Placement, i: nat)
    requires shiftDocs != [] && p in Placements(shiftDocs[0].data)
    requires i < |Kept(p.user.shifts, keywords)| && StartKey(Kept(p.user.shifts, keywords)[i], utcKey).None?
    ensures Reconcile(keywords, shiftDocs, issueDocs, utcKey) == ServerError
  {
    if FirstPass(shiftDocs[0].data, keywords, utcKey).Some? {
      FirstPassReadable(shiftDocs[0].data, keywords, utcKey);
    }
  }

  /** Group-name keys of the first pass are the only `{}` slots. */
  lemma {:induction false} GroupSlotsAreGroupNames(groups: seq<Group>, keywords: seq<string>, utcKey: UtcDateKey, slots: Slots)
    requires FirstPass(groups, keywords, utcKey) == Some(slots)
    ensures forall k :: k in slots && slots[k] == GroupSlot ==> k in GroupNames(groups)
    decreases |groups|
  {
    if groups != [] {
      var init := groups[..|groups| - 1];
      var last := groups[|groups| - 1];
      FirstPassLast(groups, keywords, utcKey);
      var s := FirstPass(init, keywords, utcKey).value;
      GroupSlotsAreGroupNames(init, keywords, utcKey, s);
      var s' := if last.groupName in s then s else s[last.groupName := GroupSlot];
      UsersAddNoGroupSlot(s', last.users, keywords, utcKey);
      assert GroupNames(groups) == GroupNames(init) + {last.groupName} by {
        SplitLast(groups);
      }
    }
  }

  lemma {:induction false} UsersAddNoGroupSlot(slots: Slots, users: seq<ScheduleUser>, keywords: seq<string>, utcKey: UtcDateKey)
    requires FirstPassUsers(slots, users, keywords, utcKey).Some?
    ensures var r := FirstPassUsers(slots, users, keywords, utcKey).value;
            forall k :: k in r && r[k] == GroupSlot ==> k in slots && slots[k] == GroupSlot
    decreases |users|
  {
    if users != [] {
      FirstPassUsersLast(slots, users, keywords, utcKey);
      UsersAddNoGroupSlot(slots, users[..|users| - 1], keywords, utcKey);
    }
  }

  /** No email of a user with kept shifts is also a group name. */
  predicate NoNameClash(groups: seq<Group>, keywords: seq<string>) {
    forall p, g :: p in Placements(groups) && g in groups && |Kept(p.user.shifts, keywords)| > 0 ==> p.user.email != g.groupName
  }

  /** The first pass throws only on an unreadable start or a name clash. */
  lemma {:induction false} FirstPassSucceeds(groups: seq<Group>, keywords: seq<string>, utcKey: UtcDateKey)
    requires NoNameClash(groups, keywords)
    requires forall p :: p in Placements(groups) ==> StartsReadable(Kept(p.user.shifts, keywords), utcKey)
    ensures FirstPass(groups, keywords, utcKey).Some?
    decreases |groups|
  {
    if groups != [] {
      var init := groups[..|groups| - 1];
      var last := groups[|groups| - 1];
      FirstPassLast(groups, keywords, utcKey);
      PlacementsLast(groups);
      SplitLast(groups);
      FirstPassSucceeds(init, keywords, utcKey);
      var s := FirstPass(init, keywords, utcKey).value;
      GroupSlotsAreGroupNames(init, keywords, utcKey, s);
      var s' := if last.groupName in s then s else s[last.groupName := GroupSlot];
      forall u | u in last.users
        ensures StartsReadable(Kept(u.shifts, keywords), utcKey)
        ensures |Kept(u.shifts, keywords)| > 0 && u.email in s' ==> s'[u.email] != GroupSlot
      {
        var i :| 0 <= i < |last.users| && last.users[i] == u;
        var p := PlaceUsers(last.groupName, last.users)[i];
        assert p in Placements(groups);
        if |Kept(u.shifts, keywords)| > 0 {
          assert forall g :: g in groups ==> g.groupName != u.email;
          assert u.email !in GroupNames(init);
          assert u.email != last.groupName;
        }
      }
      UsersSucceed(s', last.users, keywords, utcKey);
    }
  }

  lemma {:induction false} UsersSucceed(slots: Slots, users: seq<ScheduleUser>, keywords: seq<string>, utcKey: UtcDateKey)
    requires forall u :: u in users ==> StartsReadable(Kept(u.shifts, keywords), utcKey)
    requires forall u :: u in users && |Kept(u.shifts, keywords)| > 0 && u.email in slots ==> slots[u.email] != GroupSlot
    ensures FirstPassUsers(slots, users, keywords, utcKey).Some?
    decreases |users|
  {
    if users != [] {
      var init := users[..|users| - 1];
      var last := users[|users| - 1];
      SplitLast(users);
      FirstPassUsersLast(slots, users, keywords, utcKey);
      UsersSucceed(slots, init, keywords, utcKey);
      UsersAddNoGroupSlot(slots, init, keywords, utcKey);
    }
  }

  /** The two snapshot lists matter only through their first documents. */
  lemma OnlyFirstSnapshots(keywords: seq<string>, shiftDocs: seq<ScheduleDoc>, issueDocs: seq<IssuesDoc>, utcKey: UtcDateKey)
    requires shiftDocs != [] && issueDocs != []
    ensures Reconcile(keywords, shiftDocs, issueDocs, utcKey) == Reconcile(keywords, [shiftDocs[0]], [issueDocs[0]], utcKey)
  {
  }

  /** An empty schedule snapshot list fails the request (line 165). */
  lemma EmptyScheduleFails(keywords: seq<string>, issueDocs: seq<IssuesDoc>, utcKey: UtcDateKey)
    ensures Reconcile(keywords, [], issueDocs, utcKey) == ServerError
  {
  }

  /** A worklog without `timeSpent` fails the whole request. */
  lemma MissingTimeSpentFailsRequest(keywords: seq<string>, shiftDocs: seq<ScheduleDoc>, issueDocs: seq<IssuesDoc>,
                                     utcKey: UtcDateKey, j: nat, w: Worklog)
    requires j < |ProjectUsers(ProjectsOf(issueDocs))|
    requires w in IssueWorklogs(ProjectUsers(ProjectsOf(issueDocs))[j].issues)
    requires w.timeSpent.None? || w.timeSpent == Some("")
    ensures Reconcile(keywords, shiftDocs, issueDocs, utcKey) == ServerError
  {
    MissingTimeSpentFails(ProjectUsers(ProjectsOf(issueDocs)), utcKey, j, w);
  }

  /** Without a worklog snapshot the request still succeeds once the first
      pass does, and no shift is validated. */
  lemma NoWorklogSnapshot(keywords: seq<string>, shiftDocs: seq<ScheduleDoc>, utcKey: UtcDateKey)
    requires shiftDocs != [] && FirstPass(shiftDocs[0].data, keywords, utcKey).Some?
    ensures Reconcile(keywords, shiftDocs, [], utcKey).Ok?
    ensures var v := Reconcile(keywords, shiftDocs, [], utcKey).body;
            forall n, e, i :: n in v && e in v[n] && 0 <= i < |v[n][e].shifts| ==> !v[n][e].shifts[i].validated
  {
    var groups := shiftDocs[0].data;
    FirstPassSecuresJoin(groups, keywords, utcKey, map[]);
    var v: ValidatedShiftsData := ValidatedShiftsOf(groups, keywords, map[]).value;
    forall n: string, e: string, i: int | n in v && e in v[n] && 0 <= i < |v[n][e].shifts| ensures !v[n][e].shifts[i].validated {
      NoWorklogsNothingValidated(groups, keywords, v, n, e, i);
    }
  }

  /** A successful response is the join of the first schedule snapshot with
      the totals of the first worklog snapshot, and the request succeeds
      exactly when neither the first pass nor the aggregation throws. */
  lemma {:induction false} ResponseIsJoin(keywords: seq<string>, shiftDocs: seq<ScheduleDoc>, issueDocs: seq<IssuesDoc>, utcKey: UtcDateKey)
    ensures Reconcile(keywords, shiftDocs, issueDocs, utcKey).Ok?
            <==> && shiftDocs != []
                 && FirstPass(shiftDocs[0].data, keywords, utcKey).Some?
                 && WorklogsDataOf(ProjectUsers(ProjectsOf(issueDocs)), utcKey).Some?
    ensures Reconcile(keywords, shiftDocs, issueDocs, utcKey).Ok? ==>
              var worklogsData := WorklogsDataOf(ProjectUsers(ProjectsOf(issueDocs)), utcKey).value;
              Describes(Reconcile(keywords, shiftDocs, issueDocs, utcKey).body, Placements(shiftDocs[0].data),
                        GroupNames(shiftDocs[0].data), keywords, worklogsData)
  {
    if shiftDocs != [] && FirstPass(shiftDocs[0].data, keywords, utcKey).Some? {
      match WorklogsDataOf(ProjectUsers(ProjectsOf(issueDocs)), utcKey)
      case None =>
      case Some(worklogsData) =>
        FirstPassSecuresJoin(shiftDocs[0].data, keywords, utcKey, worklogsData);
        JoinIsReference(shiftDocs[0].data, keywords, worklogsData, ValidatedShiftsOf(shiftDocs[0].data, keywords, worklogsData).value);
    }
  }

  // ---------------------------------------------------------------------
  // When the first pass throws
  // ---------------------------------------------------------------------

  /** Some user of `groups` with a kept shift has the email `key`. */
  predicate ClaimedByUser(groups: seq<Group>, key: string, keywords: seq<string>) {
    exists g, u :: g in groups && u in g.users && u.email == key && |Kept(u.shifts, keywords)| > 0
  }

  /** A group named `key` comes before every user with a kept shift and the
      email `key`, so that key holds the group's `{}` (lines 170-172). */
  predicate GroupClaimsFirst(groups: seq<Group>, key: string, keywords: seq<string>) {
    exists i :: 0 <= i < |groups| && groups[i].groupName == key && !ClaimedByUser(groups[..i], key, keywords)
  }

  /** User u of group i throws when the pass reaches it: it has kept shifts
      and one of their starts is unreadable (line 197), or its email key
      holds a group's `{}`, which has no `shifts` to push onto (line 201). */
  predicate Throws(groups: seq<Group>, i: int, u: ScheduleUser, keywords: seq<string>, utcKey: UtcDateKey)
    requires 0 <= i < |groups|
  {
    && |Kept(u.shifts, keywords)| > 0
    && (!StartsReadable(Kept(u.shifts, keywords), utcKey) || GroupClaimsFirst(groups[..i + 1], u.email, keywords))
  }

  /** The first pass throws exactly when some user throws when reached. */
  lemma {:induction false} FirstPassFailsIff(groups: seq<Group>, keywords: seq<string>, utcKey: UtcDateKey)
    ensures FirstPass(groups, keywords, utcKey).None?
            <==> exists i, u :: 0 <= i < |groups| && u in groups[i].users && Throws(groups, i, u, keywords, utcKey)
    decreases |groups|
  {
    if groups != [] {
      var n := |groups| - 1;
      var init := groups[..n];
      var last := groups[n];
      FirstPassLast(groups, keywords, utcKey);
      FirstPassFailsIff(init, keywords, utcKey);
      forall i, u | 0 <= i < n
        ensures (u in groups[i].users && Throws(groups, i, u, keywords, utcKey))
                <==> (u in init[i].users && Throws(init, i, u, keywords, utcKey))
      {
        ThrowsInit(groups, i, u, keywords, utcKey);
      }
      match FirstPass(init, keywords, utcKey)
      case None =>
      case Some(s0) =>
        var s' := if last.groupName in s0 then s0 else s0[last.groupName := GroupSlot];
        FirstPassUsersFailIff(s', last.users, keywords, utcKey);
        forall u | u in last.users
          ensures FirstPassUser(s', u, keywords, utcKey).None? <==> Throws(groups, n, u, keywords, utcKey)
        {
          LastGroupUser(groups, keywords, utcKey, s0, u);
        }
    }
  }

  /** Throwing in one of the first groups does not depend on later ones. */
  lemma ThrowsInit(groups: seq<Group>, i: int, u: ScheduleUser, keywords: seq<string>, utcKey: UtcDateKey)
    requires 0 <= i < |groups| - 1
    ensures groups[i] == groups[..|groups| - 1][i]
    ensures Throws(groups, i, u, keywords, utcKey) <==> Throws(groups[..|groups| - 1], i, u, keywords, utcKey)
  {
    assert groups[..|groups| - 1][..i + 1] == groups[..i + 1];
  }

  /** A user of the last group fails on the slots the first groups left
      exactly when it throws. */
  lemma LastGroupUser(groups: seq<Group>, keywords: seq<string>, utcKey: UtcDateKey, s0: Slots, u: ScheduleUser)
    requires groups != [] && FirstPass(groups[..|groups| - 1], keywords, utcKey) == Some(s0)
    ensures var last := groups[|groups| - 1];
            var s' := if last.groupName in s0 then s0 else s0[last.groupName := GroupSlot];
            FirstPassUser(s', u, keywords, utcKey).None? <==> Throws(groups, |groups| - 1, u, keywords, utcKey)
  {
    FirstPassSlots(groups[..|groups| - 1], keywords, utcKey, s0);
    LastGroupSlot(groups, keywords, s0, u.email);
    assert groups[..|groups|] == groups;
  }

  /** After the last group's `{}` step, a key holds `{}` exactly when a
      group claimed it first. */
  lemma LastGroupSlot(groups: seq<Group>, keywords: seq<string>, s0: Slots, key: string)
    requires groups != []
    requires forall k :: k in s0 <==> k in GroupNames(groups[..|groups| - 1]) || ClaimedByUser(groups[..|groups| - 1], k, keywords)
    requires forall k :: k in s0 && s0[k] == GroupSlot <==> GroupClaimsFirst(groups[..|groups| - 1], k, keywords)
    ensures var last := groups[|groups| - 1];
            var s' := if last.groupName in s0 then s0 else s0[last.groupName := GroupSlot];
            key in s' && s'[key] == GroupSlot <==> GroupClaimsFirst(groups, key, keywords)
  {
    var init := groups[..|groups| - 1];
    GroupClaimsFirstLast(groups, key, keywords);
    if key == groups[|groups| - 1].groupName && key in GroupNames(init) && !ClaimedByUser(init, key, keywords) {
      NamedUnclaimedClaimsFirst(init, key, keywords);
    }
  }

  /** The keys a successful first pass leaves: every group name and every
      email with a kept shift; `{}` exactly under the names a group claimed
      first. */
  lemma {:induction false} FirstPassSlots(groups: seq<Group>, keywords: seq<string>, utcKey: UtcDateKey, s: Slots)
    requires FirstPass(groups, keywords, utcKey) == Some(s)
    ensures forall k :: k in s <==> k in GroupNames(groups) || ClaimedByUser(groups, k, keywords)
    ensures forall k :: k in s && s[k] == GroupSlot <==> GroupClaimsFirst(groups, k, keywords)
    decreases |groups|
  {
    if groups != [] {
      var init := groups[..|groups| - 1];
      var last := groups[|groups| - 1];
      FirstPassLast(groups, keywords, utcKey);
      var s0 := FirstPass(init, keywords, utcKey).value;
      FirstPassSlots(init, keywords, utcKey, s0);
      var s' := if last.groupName in s0 then s0 else s0[last.groupName := GroupSlot];
      UsersSlots(s', last.users, keywords, utcKey, s);
      GroupNamesLast(groups);
      forall k ensures k in s <==> k in GroupNames(groups) || ClaimedByUser(groups, k, keywords) {
        ClaimedLast(groups, k, keywords);
      }
      forall k ensures k in s && s[k] == GroupSlot <==> GroupClaimsFirst(groups, k, keywords) {
        LastGroupSlot(groups, keywords, s0, k);
      }
    }
  }

  /** Users add user slots only: the `{}` keys stay as they were. */
  lemma {:induction false} UsersSlots(slots: Slots, users: seq<ScheduleUser>, keywords: seq<string>, utcKey: UtcDateKey, r: Slots)
    requires FirstPassUsers(slots, users, keywords, utcKey) == Some(r)
    ensures forall k :: k in r <==> k in slots || exists u :: u in users && u.email == k && |Kept(u.shifts, keywords)| > 0
    ensures forall k :: k in r && r[k] == GroupSlot <==> k in slots && slots[k] == GroupSlot
    decreases |users|
  {
    if users != [] {
      var init := users[..|users| - 1];
      var last := users[|users| - 1];
      SplitLast(users);
      FirstPassUsersLast(slots, users, keywords, utcKey);
      var t := FirstPassUsers(slots, init, keywords, utcKey).value;
      UsersSlots(slots, init, keywords, utcKey, t);
      UserSlots(t, last, keywords, utcKey, r);
      assert forall u :: u in users <==> u in init || u == last;
    }
  }

  lemma UserSlots(slots: Slots, u: ScheduleUser, keywords: seq<string>, utcKey: UtcDateKey, r: Slots)
    requires FirstPassUser(slots, u, keywords, utcKey) == Some(r)
    ensures forall k :: k in r <==> k in slots || (u.email == k && |Kept(u.shifts, keywords)| > 0)
    ensures forall k :: k in r && r[k] == GroupSlot <==> k in slots && slots[k] == GroupSlot
  {
  }

  /** A user's outcome depends on the slots only through their `{}` keys. */
  lemma SameGroupSlots(slots: Slots, t: Slots, u: ScheduleUser, keywords: seq<string>, utcKey: UtcDateKey)
    requires forall k :: k in t && t[k] == GroupSlot <==> k in slots && slots[k] == GroupSlot
    ensures FirstPassUser(t, u, keywords, utcKey).None? <==> FirstPassUser(slots, u, keywords, utcKey).None?
  {
    assert u.email in t && t[u.email] == GroupSlot <==> u.email in slots && slots[u.email] == GroupSlot;
  }

  /** One group's users throw exactly when one of them fails on the slots
      they start from. */
  lemma {:induction false} FirstPassUsersFailIff(slots: Slots, users: seq<ScheduleUser>, keywords: seq<string>, utcKey: UtcDateKey)
    ensures FirstPassUsers(slots, users, keywords, utcKey).None?
            <==> exists u :: u in users && FirstPassUser(slots, u, keywords, utcKey).None?
    decreases |users|
  {
    if users != [] {
      var init := users[..|users| - 1];
      var last := users[|users| - 1];
      SplitLast(users);
      FirstPassUsersLast(slots, users, keywords, utcKey);
      FirstPassUsersFailIff(slots, init, keywords, utcKey);
      assert forall u :: u in users <==> u in init || u == last;
      match FirstPassUsers(slots, init, keywords, utcKey)
      case None =>
      case Some(t) =>
        UsersSlots(slots, init, keywords, utcKey, t);
        SameGroupSlots(slots, t, last, keywords, utcKey);
    }
  }

  lemma ClaimedLast(groups: seq<Group>, key: string, keywords: seq<string>)
    requires groups != []
    ensures ClaimedByUser(groups, key, keywords)
            <==> || ClaimedByUser(groups[..|groups| - 1], key, keywords)
                 || exists u :: u in groups[|groups| - 1].users && u.email == key && |Kept(u.shifts, keywords)| > 0
  {
    var last := groups[|groups| - 1];
    SplitLast(groups);
    assert forall g :: g in groups <==> g in groups[..|groups| - 1] || g == last;
    if u :| u in last.users && u.email == key && |Kept(u.shifts, keywords)| > 0 {
      assert last in groups;
    }
  }

  lemma ClaimedPrefix(groups: seq<Group>, i: int, key: string, keywords: seq<string>)
    requires 0 <= i <= |groups| && ClaimedByUser(groups[..i], key, keywords)
    ensures ClaimedByUser(groups, key, keywords)
  {
    var g, u :| g in groups[..i] && u in g.users && u.email == key && |Kept(u.shifts, keywords)| > 0;
    assert g in groups;
  }

  lemma GroupClaimsFirstLast(groups: seq<Group>, key: string, keywords: seq<string>)
    requires groups != []
    ensures GroupClaimsFirst(groups, key, keywords)
            <==> || GroupClaimsFirst(groups[..|groups| - 1], key, keywords)
                 || (groups[|groups| - 1].groupName == key && !ClaimedByUser(groups[..|groups| - 1], key, keywords))
  {
    var n := |groups| - 1;
    var init := groups[..n];
    if GroupClaimsFirst(groups, key, keywords) {
      var i :| 0 <= i < |groups| && groups[i].groupName == key && !ClaimedByUser(groups[..i], key, keywords);
      if i < n {
        assert init[..i] == groups[..i];
        assert init[i] == groups[i];
      } else {
        assert groups[..i] == init;
      }
    }
    if GroupClaimsFirst(init, key, keywords) {
      var i :| 0 <= i < n && init[i].groupName == key && !ClaimedByUser(init[..i], key, keywords);
      assert init[..i] == groups[..i];
      assert init[i] == groups[i];
    }
    if groups[n].groupName == key && !ClaimedByUser(init, key, keywords) {
      assert groups[..n] == init;
    }
  }

  /** A group name no user with a kept shift has as email is claimed by its
      first group. */
  lemma NamedUnclaimedClaimsFirst(groups: seq<Group>, key: string, keywords: seq<string>)
    requires key in GroupNames(groups) && !ClaimedByUser(groups, key, keywords)
    ensures GroupClaimsFirst(groups, key, keywords)
  {
    var g :| g in groups && g.groupName == key;
    var i :| 0 <= i < |groups| && groups[i] == g;
    if ClaimedByUser(groups[..i], key, keywords) {
      ClaimedPrefix(groups, i, key, keywords);
    }
  }

  /** A user with a kept shift whose email names a group that comes before
      every user with a kept shift and that email (their own group
      included) fails the request with 500. */
  lemma NameClashFails(keywords: seq<string>, shiftDocs: seq<ScheduleDoc>, issueDocs: seq<IssuesDoc>, utcKey: UtcDateKey,
                       i0: nat, i: nat, u: ScheduleUser)
    requires shiftDocs != [] && i0 <= i < |shiftDocs[0].data| && u in shiftDocs[0].data[i].users
    requires |Kept(u.shifts, keywords)| > 0 && shiftDocs[0].data[i0].groupName == u.email
    requires !ClaimedByUser(shiftDocs[0].data[..i0], u.email, keywords)
    ensures Reconcile(keywords, shiftDocs, issueDocs, utcKey) == ServerError
  {
    var groups := shiftDocs[0].data;
    assert groups[..i + 1][..i0] == groups[..i0];
    assert groups[..i + 1][i0] == groups[i0];
    assert Throws(groups, i, u, keywords, utcKey);
    FirstPassFailsIff(groups, keywords, utcKey);
  }

  /** A user who takes the key before the group of that name does not
      clash: the user is in group `a` first, and their email is the name of
      the next group. */
  lemma UserBeforeGroupSucceeds(u: ScheduleUser, a: string, keywords: seq<string>, utcKey: UtcDateKey)
    requires a != u.email
    requires |Kept(u.shifts, keywords)| > 0 && StartsReadable(Kept(u.shifts, keywords), utcKey)
    ensures FirstPass([Group(a, [u]), Group(u.email, [u])], keywords, utcKey).Some?
  {
    var groups := [Group(a, [u]), Group(u.email, [u])];
    assert ClaimedByUser(groups[..1], u.email, keywords) by {
      assert groups[0] in groups[..1] && u in groups[0].users;
    }
    assert !GroupClaimsFirst(groups[..1], u.email, keywords);
    assert !GroupClaimsFirst(groups[..2], u.email, keywords);
    forall i, v | 0 <= i < |groups| && v in groups[i].users ensures !Throws(groups, i, v, keywords, utcKey) {
      assert groups[i].users == [u];
    }
    FirstPassFailsIff(groups, keywords, utcKey);
  }

  /** The same with a concrete document: "ops@x" is first a user of group
      "a", then a group's name. */
  lemma UserBeforeGroupExample(utcKey: UtcDateKey)
    requires utcKey("2024-01-08T08:00:00") == Some("2024-01-08")
    ensures var shift := Shift("s1", Some("Day Shift"), "", "", "", Some("2024-01-08T08:00:00"), None, None);
            var u := ScheduleUser("ops@x", "Ops", [shift]);
            FirstPass([Group("a", [u]), Group("ops@x", [u])], StandardKeywords, utcKey).Some?
  {
    var shift := Shift("s1", Some("Day Shift"), "", "", "", Some("2024-01-08T08:00:00"), None, None);
    var u := ScheduleUser("ops@x", "Ops", [shift]);
    StandardExamples();
    assert IsKept(shift, StandardKeywords);
    KeptSingle(shift, StandardKeywords);
    assert StartsReadable(Kept(u.shifts, StandardKeywords), utcKey);
    UserBeforeGroupSucceeds(u, "a", StandardKeywords, utcKey);
  }

  // ---------------------------------------------------------------------
  // The loops of the handler
  // ---------------------------------------------------------------------

  /** Lines 174-204 for one user. */
  method FirstPassUserStep(slots: Slots, user: ScheduleUser, keywords: seq<string>, utcKey: UtcDateKey) returns (r: Option<Slots>)
    ensures r == FirstPassUser(slots, user, keywords, utcKey)
  {
    var userShifts := Kept(user.shifts, keywords);
    if |userShifts| == 0 {
      return Some(slots);
    }
    var shiftsData := slots;
    if user.email !in shiftsData {
      shiftsData := shiftsData[user.email := UserSlot];
    }
    var i := 0;
    while i < |userShifts|
      invariant 0 <= i <= |userShifts|
      invariant forall j :: 0 <= j < i ==> StartKey(userShifts[j], utcKey).Some?
    {
      var startDateTime := StartKey(userShifts[i], utcKey);
      if startDateTime.None? {
        return None;
      }
      if shiftsData[user.email] == GroupSlot {
        return None;
      }
      i := i + 1;
    }
    if shiftsData[user.email] == GroupSlot {
      return None;
    }
    assert shiftsData == slots[user.email := UserSlot];
    return Some(shiftsData);
  }

  /** Lines 170-206 for one group: its `{}` slot on first sight, then its
      users. */
  method FirstPassGroupStep(slots: Slots, group: Group, keywords: seq<string>, utcKey: UtcDateKey) returns (r: Option<Slots>)
    ensures r == FirstPassGroup(slots, group, keywords, utcKey)
  {
    ghost var start := if group.groupName in slots then slots else slots[group.groupName := GroupSlot];
    assert FirstPassGroup(slots, group, keywords, utcKey) == FirstPassUsers(start, group.users, keywords, utcKey);
    var shiftsData := slots;
    if group.groupName !in shiftsData {
      shiftsData := shiftsData[group.groupName := GroupSlot];
    }
    assert shiftsData == start;
    var k := 0;
    while k < |group.users|
      invariant 0 <= k <= |group.users|
      invariant FirstPassUsers(start, group.users[..k], keywords, utcKey) == Some(shiftsData)
    {
      FirstPassUsersNext(start, group.users, k, keywords, utcKey, shiftsData);
      var next := FirstPassUserStep(shiftsData, group.users[k], keywords, utcKey);
      if next.None? {
        FirstPassUsersFailPrefix(start, group.users, k + 1, keywords, utcKey);
        return None;
      }
      shiftsData := next.value;
      k := k + 1;
    }
    TakeAll(group.users);
    return Some(shiftsData);
  }

  /** Lines 165-209: the first pass over the schedule; None when it throws. */
  method FirstPassCheck(groups: seq<Group>, keywords: seq<string>, utcKey: UtcDateKey) returns (r: Option<Slots>)
    ensures r == FirstPass(groups, keywords, utcKey)
  {
    var shiftsData: Slots := map[];
    var i := 0;
    while i < |groups|
      invariant 0 <= i <= |groups|
      invariant FirstPass(groups[..i], keywords, utcKey) == Some(shiftsData)
    {
      FirstPassLast(groups[..i + 1], keywords, utcKey);
      TakeTake(groups, i);
      var next := FirstPassGroupStep(shiftsData, groups[i], keywords, utcKey);
      if next.None? {
        FirstPassFailPrefix(groups, i + 1, keywords, utcKey);
        return None;
      }
      shiftsData := next.value;
      i := i + 1;
    }
    TakeAll(groups);
    return Some(shiftsData);
  }

  /** Lines 163-350 for a keyword list: the response for the snapshots the
      queries returned. */
  method ReconcileWeek(keywords: seq<string>, shiftsByWeekData: seq<ScheduleDoc>, issueByProject: seq<IssuesDoc>, utcKey: UtcDateKey)
    returns (response: Response)
    ensures response == Reconcile(keywords, shiftsByWeekData, issueByProject, utcKey)
  {
    if |shiftsByWeekData| == 0 {
      return ServerError;
    }
    var groups := shiftsByWeekData[0].data;
    var firstPass := FirstPassCheck(groups, keywords, utcKey);
    if firstPass.None? {
      return ServerError;
    }
    var projects := if |issueByProject| > 0 then issueByProject[0].data else [];
    var worklogsData := AggregateWorklogs(projects, utcKey);
    if worklogsData.None? {
      return ServerError;
    }
    var validatedShiftsData := JoinSchedule(groups, keywords, worklogsData.value);
    if validatedShiftsData.None? {
      return ServerError;
    }
    return Ok(validatedShiftsData.value);
  }

  /** `getUsersWithLoggedShifts` (lines 130-352): the week window it queries
      with, and its response. */
  method GetUsersWithLoggedShifts(today: Date, shiftsByWeekData: seq<ScheduleDoc>, issueByProject: seq<IssuesDoc>, utcKey: UtcDateKey)
    returns (start: string, end: string, response: Response)
    requires Valid(today)
    ensures start == WeekBound(WeekStart(today)) && end == WeekBound(WeekEnd(today))
    ensures response == Reconcile(StandardKeywords, shiftsByWeekData, issueByProject, utcKey)
  {
    start := WeekBound(WeekStart(today));
    end := WeekBound(WeekEnd(today));
    response := ReconcileWeek(StandardKeywords, shiftsByWeekData, issueByProject, utcKey);
  }

  /** `BonusLoggedShifts` (lines 356-577): the same with the bonus keywords. */
  method BonusLoggedShifts(today: Date, shiftsByWeekData: seq<ScheduleDoc>, issueByProject: seq<IssuesDoc>, utcKey: UtcDateKey)
    returns (start: string, end: string, response: Response)
    requires Valid(today)
    ensures start == WeekBound(WeekStart(today)) && end == WeekBound(WeekEnd(today))
    ensures response == Reconcile(BonusKeywords, shiftsByWeekData, issueByProject, utcKey)
  {
    start := WeekBound(WeekStart(today));
    end := WeekBound(WeekEnd(today));
    response := ReconcileWeek(BonusKeywords, shiftsByWeekData, issueByProject, utcKey);
  }

  // A failure on a prefix is a failure of the whole: used by the early
  // exits above.

  lemma FirstPassUsersNext(slots: Slots, users: seq<ScheduleUser>, k: nat, keywords: seq<string>, utcKey: UtcDateKey, s: Slots)
    requires k < |users| && FirstPassUsers(slots, users[..k], keywords, utcKey) == Some(s)
    ensures FirstPassUsers(slots, users[..k + 1], keywords, utcKey) == FirstPassUser(s, users[k], keywords, utcKey)
  {
    TakeTake(users, k);
    FirstPassUsersLast(slots, users[..k + 1], keywords, utcKey);
  }

  lemma {:induction false} FirstPassUsersFailPrefix(slots: Slots, users: seq<ScheduleUser>, k: nat, keywords: seq<string>, utcKey: UtcDateKey)
    requires k <= |users| && FirstPassUsers(slots, users[..k], keywords, utcKey).None?
    ensures FirstPassUsers(slots, users, keywords, utcKey).None?
    decreases |users|
  {
    if k < |users| {
      var init := users[..|users| - 1];
      assert init[..k] == users[..k];
      FirstPassUsersFailPrefix(slots, init, k, keywords, utcKey);
    } else {
      TakeAll(users);
    }
  }

  lemma {:induction false} FirstPassFailPrefix(groups: seq<Group>, i: nat, keywords: seq<string>, utcKey: UtcDateKey)
    requires i <= |groups| && FirstPass(groups[..i], keywords, utcKey).None?
    ensures FirstPass(groups, keywords, utcKey).None?
    decreases |groups|
  {
    if i < |groups| {
      var init := groups[..|groups| - 1];
      assert init[..i] == groups[..i];
      FirstPassFailPrefix(init, i, keywords, utcKey);
    } else {
      TakeAll(groups);
    }
  }
}
