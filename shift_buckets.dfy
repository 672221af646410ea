/** The bucketing of `connectMS` (appController.js lines 638-704): the
    shifts fetched for the week are organised by scheduling group, then by
    user, each user carrying the display name and email fetched for it.

    The Microsoft Graph lookups are parameters: `fetchUser(userId)` and
    `fetchGroup(groupId)` are `None` when the request fails (the `catch`
    branches of lines 658-660 and 686-687). */
module ShiftBuckets {
  import opened SeqFacts
  import opened Wrappers
  import opened Snapshots

  /** The fields of `sharedShift` the loop copies; `None` stands for
      `undefined`, also when `sharedShift` itself is missing (line 667). */
  datatype SharedShift = SharedShift(
    displayName: Option<string>,
    startDateTime: Option<string>,
    endDateTime: Option<string>,
    notes: Option<string>)

  /** One element of `shiftsData.value`. */
  datatype GraphShift = GraphShift(
    id: string,
    schedulingGroupId: string,
    userId: string,
    createdDateTime: string,
    lastModifiedDateTime: string,
    lastModifiedBy: string,
    sharedShift: Option<SharedShift>)

  /** What a successful user lookup returns. */
  datatype GraphUser = GraphUser(displayName: Option<string>, mail: Option<string>)

  /** What a successful group lookup returns. */
  datatype GraphGroup = GraphGroup(displayName: Option<string>)

  datatype UserBucket = UserBucket(displayName: Option<string>, email: Option<string>, shifts: seq<Shift>)

  datatype GroupBucket = GroupBucket(groupName: Option<string>, users: map<string, UserBucket>)

  /** `shiftsByGroup`, keyed by scheduling group id. */
  type ShiftsByGroup = map<string, GroupBucket>

  // ---------------------------------------------------------------------
  // Specification
  // ---------------------------------------------------------------------

  /** Lines 642-661: the user's id when the lookup fails, otherwise the
      fetched `displayName`. */
  function DisplayNameOf(userId: string, fetchUser: string -> Option<GraphUser>): (r: Option<string>)
    ensures fetchUser(userId).None? ==> r == Some(userId)
  {
    match fetchUser(userId)
    case None => Some(userId)
    case Some(u) => u.displayName
  }

  /** Lines 643-657: `null` when the lookup fails, otherwise `mail`. */
  function EmailOf(userId: string, fetchUser: string -> Option<GraphUser>): (r: Option<string>)
    ensures fetchUser(userId).None? ==> r.None?
  {
    match fetchUser(userId)
    case None => None
    case Some(u) => u.mail
  }

  /** Lines 674-687: the group's id when the lookup fails, otherwise the
      fetched `displayName`. */
  function GroupNameOf(groupId: string, fetchGroup: string -> Option<GraphGroup>): (r: Option<string>)
    ensures fetchGroup(groupId).None? ==> r == Some(groupId)
  {
    match fetchGroup(groupId)
    case None => Some(groupId)
    case Some(g) => g.displayName
  }

  /** The copy pushed at lines 694-703. */
  function Copy(s: GraphShift): Shift {
    var shared := if s.sharedShift.Some? then s.sharedShift.value else SharedShift(None, None, None, None);
    Shift(s.id, shared.displayName, s.createdDateTime, s.lastModifiedDateTime, s.lastModifiedBy,
          shared.startDateTime, shared.endDateTime, shared.notes)
  }

  /** One iteration of the loop of lines 666-704: create the group on first
      sight, then the user, then push the shift. */
  function AddShift(m: ShiftsByGroup, s: GraphShift, fetchUser: string -> Option<GraphUser>, fetchGroup: string -> Option<GraphGroup>): ShiftsByGroup {
    var g := if s.schedulingGroupId in m then m[s.schedulingGroupId]
             else GroupBucket(GroupNameOf(s.schedulingGroupId, fetchGroup), map[]);
    var u := if s.userId in g.users then g.users[s.userId]
             else UserBucket(DisplayNameOf(s.userId, fetchUser), EmailOf(s.userId, fetchUser), []);
    m[s.schedulingGroupId := g.(users := g.users[s.userId := u.(shifts := u.shifts + [Copy(s)])])]
  }

  /** `shiftsByGroup` after the loop over `shifts`. */
  function Buckets(shifts: seq<GraphShift>, fetchUser: string -> Option<GraphUser>, fetchGroup: string -> Option<GraphGroup>): ShiftsByGroup {
    if shifts == [] then map[]
    else AddShift(Buckets(shifts[..|shifts| - 1], fetchUser, fetchGroup), shifts[|shifts| - 1], fetchUser, fetchGroup)
  }

  // ---------------------------------------------------------------------
  // Reference: what each bucket holds
  // ---------------------------------------------------------------------

  function GroupIds(shifts: seq<GraphShift>): set<string> {
    set s | s in shifts :: s.schedulingGroupId
  }

  function UserIds(shifts: seq<GraphShift>, groupId: string): set<string> {
    set s | s in shifts && s.schedulingGroupId == groupId :: s.userId
  }

  /** The copies of the shifts of user `userId` in group `groupId`, in
      order. */
  function ShiftsFor(shifts: seq<GraphShift>, groupId: string, userId: string): seq<Shift> {
    if shifts == [] then []
    else
      var last := shifts[|shifts| - 1];
      ShiftsFor(shifts[..|shifts| - 1], groupId, userId)
        + (if last.schedulingGroupId == groupId && last.userId == userId then [Copy(last)] else [])
  }

  /** `m` is the bucketing of `shifts`: one group per group id met, named
      by its lookup; in it one user per user id met there, with the looked-up
      name and email and exactly that user's shifts of that group, in
      order. */
  predicate Describes(m: ShiftsByGroup, shifts: seq<GraphShift>, fetchUser: string -> Option<GraphUser>, fetchGroup: string -> Option<GraphGroup>) {
    && m.Keys == GroupIds(shifts)
    && (forall g :: g in m ==> m[g].groupName == GroupNameOf(g, fetchGroup) && m[g].users.Keys == UserIds(shifts, g))
    && (forall g, u :: g in m && u in m[g].users ==>
          m[g].users[u] == UserBucket(DisplayNameOf(u, fetchUser), EmailOf(u, fetchUser), ShiftsFor(shifts, g, u)))
  }

  // ---------------------------------------------------------------------
  // The loop builds the reference
  // ---------------------------------------------------------------------

  lemma ShiftsForLast(shifts: seq<GraphShift>, s: GraphShift, groupId: string, userId: string)
    ensures ShiftsFor(shifts + [s], groupId, userId)
            == ShiftsFor(shifts, groupId, userId) + (if s.schedulingGroupId == groupId && s.userId == userId then [Copy(s)] else [])
  {
    PrefixOfSnoc(shifts, s);
  }

  lemma {:induction false} ShiftsForAbsent(shifts: seq<GraphShift>, groupId: string, userId: string)
    requires groupId !in GroupIds(shifts) || userId !in UserIds(shifts, groupId)
    ensures ShiftsFor(shifts, groupId, userId) == []
  {
    if shifts != [] {
      var init := shifts[..|shifts| - 1];
      SplitLast(shifts);
      assert GroupIds(init) <= GroupIds(shifts);
      assert UserIds(init, groupId) <= UserIds(shifts, groupId);
      ShiftsForAbsent(init, groupId, userId);
    }
  }

  /** One step of the loop keeps the description. */
  lemma AddShiftStep(m: ShiftsByGroup, shifts: seq<GraphShift>, s: GraphShift, fetchUser: string -> Option<GraphUser>, fetchGroup: string -> Option<GraphGroup>)
    requires Describes(m, shifts, fetchUser, fetchGroup)
    ensures Describes(AddShift(m, s, fetchUser, fetchGroup), shifts + [s], fetchUser, fetchGroup)
  {
    var m' := AddShift(m, s, fetchUser, fetchGroup);
    GroupIdsSnoc(shifts, s);
    AddShiftGroups(m, shifts, s, fetchUser, fetchGroup, m');
    AddShiftUsers(m, shifts, s, fetchUser, fetchGroup, m');
  }

  lemma GroupIdsSnoc(shifts: seq<GraphShift>, s: GraphShift)
    ensures GroupIds(shifts + [s]) == GroupIds(shifts) + {s.schedulingGroupId}
  {
    assert forall x :: x in shifts + [s] <==> x in shifts || x == s;
  }

  lemma UserIdsSnoc(shifts: seq<GraphShift>, s: GraphShift, g: string)
    ensures UserIds(shifts + [s], g) == UserIds(shifts, g) + (if g == s.schedulingGroupId then {s.userId} else {})
  {
    assert forall x :: x in shifts + [s] <==> x in shifts || x == s;
  }

  lemma AddShiftGroups(m: ShiftsByGroup, shifts: seq<GraphShift>, s: GraphShift, fetchUser: string -> Option<GraphUser>,
                       fetchGroup: string -> Option<GraphGroup>, m': ShiftsByGroup)
    requires Describes(m, shifts, fetchUser, fetchGroup) && m' == AddShift(m, s, fetchUser, fetchGroup)
    ensures forall g :: g in m' ==> m'[g].groupName == GroupNameOf(g, fetchGroup) && m'[g].users.Keys == UserIds(shifts + [s], g)
  {
    forall g | g in m'
      ensures m'[g].groupName == GroupNameOf(g, fetchGroup) && m'[g].users.Keys == UserIds(shifts + [s], g)
    {
      UserIdsSnoc(shifts, s, g);
    }
  }

  lemma AddShiftUsers(m: ShiftsByGroup, shifts: seq<GraphShift>, s: GraphShift, fetchUser: string -> Option<GraphUser>,
                      fetchGroup: string -> Option<GraphGroup>, m': ShiftsByGroup)
    requires Describes(m, shifts, fetchUser, fetchGroup) && m' == AddShift(m, s, fetchUser, fetchGroup)
    ensures forall g, u :: g in m' && u in m'[g].users ==>
              m'[g].users[u] == UserBucket(DisplayNameOf(u, fetchUser), EmailOf(u, fetchUser), ShiftsFor(shifts + [s], g, u))
  {
    var gs := s.schedulingGroupId;
    var us := s.userId;
    forall g, u | g in m' && u in m'[g].users
      ensures m'[g].users[u] == UserBucket(DisplayNameOf(u, fetchUser), EmailOf(u, fetchUser), ShiftsFor(shifts + [s], g, u))
    {
      ShiftsForLast(shifts, s, g, u);
      if g == gs && u == us && !(g in m && u in m[g].users) {
        ShiftsForAbsent(shifts, g, u);
      }
    }
  }

  lemma {:induction false} BucketsDescribe(shifts: seq<GraphShift>, fetchUser: string -> Option<GraphUser>, fetchGroup: string -> Option<GraphGroup>)
    ensures Describes(Buckets(shifts, fetchUser, fetchGroup), shifts, fetchUser, fetchGroup)
  {
    if shifts != [] {
      var init := shifts[..|shifts| - 1];
      var last := shifts[|shifts| - 1];
      BucketsDescribe(init, fetchUser, fetchGroup);
      AddShiftStep(Buckets(init, fetchUser, fetchGroup), init, last, fetchUser, fetchGroup);
      SplitLast(shifts);
    }
  }

  /** Every fetched shift is pushed into the bucket of its group and user,
      and a bucket holds only shifts of its group and user. */
  lemma EveryShiftBucketed(shifts: seq<GraphShift>, fetchUser: string -> Option<GraphUser>, fetchGroup: string -> Option<GraphGroup>, s: GraphShift)
    requires s in shifts
    ensures var m := Buckets(shifts, fetchUser, fetchGroup);
            && s.schedulingGroupId in m && s.userId in m[s.schedulingGroupId].users
            && Copy(s) in m[s.schedulingGroupId].users[s.userId].shifts
  {
    BucketsDescribe(shifts, fetchUser, fetchGroup);
    ShiftsForMember(shifts, s);
  }

  lemma {:induction false} ShiftsForMember(shifts: seq<GraphShift>, s: GraphShift)
    requires s in shifts
    ensures Copy(s) in ShiftsFor(shifts, s.schedulingGroupId, s.userId)
  {
    var init := shifts[..|shifts| - 1];
    var last := shifts[|shifts| - 1];
    SplitLast(shifts);
    if s != last {
      ShiftsForMember(init, s);
    }
  }

  /** A group whose lookup fails is named by its id; a user whose lookup
      fails is named by its id and has a `null` email. */
  lemma FallbackNames(shifts: seq<GraphShift>, fetchUser: string -> Option<GraphUser>, fetchGroup: string -> Option<GraphGroup>, g: string, u: string)
    requires var m := Buckets(shifts, fetchUser, fetchGroup); g in m && u in m[g].users
    requires fetchGroup(g).None? && fetchUser(u).None?
    ensures var m := Buckets(shifts, fetchUser, fetchGroup);
            m[g].groupName == Some(g) && m[g].users[u].displayName == Some(u) && m[g].users[u].email.None?
  {
    BucketsDescribe(shifts, fetchUser, fetchGroup);
  }

  // ---------------------------------------------------------------------
  // The loops of lines 639-704
  // ---------------------------------------------------------------------

  /** The lookup loop of lines 641-662: a name and an email for every user
      id. */
  method FetchProfiles(userIds: seq<string>, fetchUser: string -> Option<GraphUser>)
    returns (userDisplayNameMap: map<string, Option<string>>, userEmailMap: map<string, Option<string>>)
    ensures userDisplayNameMap.Keys == userEmailMap.Keys == set u | u in userIds
    ensures forall u :: u in userDisplayNameMap ==> userDisplayNameMap[u] == DisplayNameOf(u, fetchUser)
    ensures forall u :: u in userEmailMap ==> userEmailMap[u] == EmailOf(u, fetchUser)
  {
    userDisplayNameMap := map[];
    userEmailMap := map[];
    for i := 0 to |userIds|
      invariant userDisplayNameMap.Keys == userEmailMap.Keys == set u | u in userIds[..i]
      invariant forall u :: u in userDisplayNameMap ==> userDisplayNameMap[u] == DisplayNameOf(u, fetchUser)
      invariant forall u :: u in userEmailMap ==> userEmailMap[u] == EmailOf(u, fetchUser)
    {
      var userId := userIds[i];
      var displayName := Some(userId);
      var email := None;
      var userData := fetchUser(userId);
      if userData.Some? {
        displayName := userData.value.displayName;
        email := userData.value.mail;
      }
      userDisplayNameMap := userDisplayNameMap[userId := displayName];
      userEmailMap := userEmailMap[userId := email];
      TakeSnoc(userIds, i);
    }
    TakeAll(userIds);
  }

  /** The loop of lines 666-704 over the maps built by `FetchProfiles`. */
  method BucketShifts(
    shifts: seq<GraphShift>,
    userDisplayNameMap: map<string, Option<string>>,
    userEmailMap: map<string, Option<string>>,
    fetchUser: string -> Option<GraphUser>,
    fetchGroup: string -> Option<GraphGroup>)
    returns (shiftsByGroup: ShiftsByGroup)
    requires forall s :: s in shifts ==> s.userId in userDisplayNameMap && s.userId in userEmailMap
    requires forall u :: u in userDisplayNameMap ==> userDisplayNameMap[u] == DisplayNameOf(u, fetchUser)
    requires forall u :: u in userEmailMap ==> userEmailMap[u] == EmailOf(u, fetchUser)
    ensures shiftsByGroup == Buckets(shifts, fetchUser, fetchGroup)
  {
    shiftsByGroup := map[];
    for i := 0 to |shifts|
      invariant shiftsByGroup == Buckets(shifts[..i], fetchUser, fetchGroup)
    {
      var shiftData := shifts[i];
      var groupId := shiftData.schedulingGroupId;
      var userId := shiftData.userId;
      var displayName := userDisplayNameMap[userId];
      var email := userEmailMap[userId];
      var group := if groupId in shiftsByGroup then shiftsByGroup[groupId]
                   else GroupBucket(GroupNameOf(groupId, fetchGroup), map[]);
      var user := if userId in group.users then group.users[userId]
                  else UserBucket(displayName, email, []);
      user := user.(shifts := user.shifts + [Copy(shiftData)]);
      shiftsByGroup := shiftsByGroup[groupId := group.(users := group.users[userId := user])];
      TakeTake(shifts, i);
    }
    TakeAll(shifts);
  }

  /** `connectMS` from the fetched shifts to `shiftsByGroup`: the lookups,
      then the bucketing. */
  method OrganiseShifts(shifts: seq<GraphShift>, fetchUser: string -> Option<GraphUser>, fetchGroup: string -> Option<GraphGroup>)
    returns (shiftsByGroup: ShiftsByGroup)
    ensures shiftsByGroup == Buckets(shifts, fetchUser, fetchGroup)
    ensures Describes(shiftsByGroup, shifts, fetchUser, fetchGroup)
  {
    var userIds := seq(|shifts|, i requires 0 <= i < |shifts| => shifts[i].userId);
    var names, emails := FetchProfiles(userIds, fetchUser);
    forall s | s in shifts ensures s.userId in names && s.userId in emails {
      var i :| 0 <= i < |shifts| && shifts[i] == s;
      assert userIds[i] == s.userId;
    }
    shiftsByGroup := BucketShifts(shifts, names, emails, fetchUser, fetchGroup);
    BucketsDescribe(shifts, fetchUser, fetchGroup);
  }
}
