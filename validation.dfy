/** The validation join of the reconciliation handlers (appController.js
    lines 290-343): for every scheduling group and user, the kept shifts are
    marked `validated` when the user logged at least 7 hours on the shift's
    date, and appended to `validatedShiftsData[groupName][userEmail]`. */
module Validation {
  import opened SeqFacts
  import opened Wrappers
  import opened Strings
  import opened Snapshots
  import opened ShiftClassifier
  import opened Aggregation

  /** Logged hours a day needs for its shifts to count (line 331). */
  const ValidationThreshold: real := 7.0

  /** A shift with the `validated` flag the handler sets on it (332-334). */
  datatype ValidatedShift = ValidatedShift(shift: Shift, validated: bool)

  /** `validatedShiftsData[groupName][userEmail]` (lines 319-324). */
  datatype UserShifts = UserShifts(userDisplayName: string, shifts: seq<ValidatedShift>)

  type GroupShifts = map<string, UserShifts>

  /** The response body: group name, then user email. */
  type ValidatedShiftsData = map<string, GroupShifts>

  // ---------------------------------------------------------------------
  // Specification
  // ---------------------------------------------------------------------

  /** `shift.startDateTime.split('T')[0]` (line 327): the text before the
      first 'T'. None when `startDateTime` is absent, where `split` throws. */
  function ShiftDate(s: Shift): (r: Option<string>)
    ensures r.Some? <==> s.startDateTime.Some?
    ensures r.Some? ==> r.value <= s.startDateTime.value && 'T' !in r.value
  {
    if s.startDateTime.None? then None else Some(BeforeFirst(s.startDateTime.value, 'T'))
  }

  /** The condition of line 331. */
  predicate IsValidated(worklogsData: WorklogsData, email: string, shiftDate: string) {
    && email in worklogsData
    && shiftDate in worklogsData[email].worklogsTotalTime
    && worklogsData[email].worklogsTotalTime[shiftDate].totalSpentTime >= ValidationThreshold
  }

  /** The kept shifts of one user, each marked (lines 326-338); None when one
      of them has no `startDateTime`. */
  function ValidateAll(shifts: seq<Shift>, email: string, worklogsData: WorklogsData): (r: Option<seq<ValidatedShift>>)
    ensures r.None? <==> exists i :: 0 <= i < |shifts| && shifts[i].startDateTime.None?
    ensures r.Some? ==> |r.value| == |shifts|
    ensures r.Some? ==> forall i :: 0 <= i < |shifts| ==>
              && shifts[i].startDateTime.Some?
              && r.value[i] == ValidatedShift(shifts[i], IsValidated(worklogsData, email, ShiftDate(shifts[i]).value))
  {
    if shifts == [] then Some([])
    else
      var init := shifts[..|shifts| - 1];
      var last := shifts[|shifts| - 1];
      assert forall i :: 0 <= i < |init| ==> init[i] == shifts[i];
      match ValidateAll(init, email, worklogsData)
      case None => None
      case Some(vs) =>
        match ShiftDate(last)
        case None => None
        case Some(d) => Some(vs + [ValidatedShift(last, IsValidated(worklogsData, email, d))])
  }

  /** One user of a group (lines 305-339): the entry is created on first
      sight and the user's kept shifts are appended to it. */
  function AddUser(m: GroupShifts, u: ScheduleUser, keywords: seq<string>, worklogsData: WorklogsData): Option<GroupShifts> {
    match ValidateAll(Kept(u.shifts, keywords), u.email, worklogsData)
    case None => None
    case Some(vs) =>
      var entry := if u.email in m then m[u.email] else UserShifts(u.displayName, []);
      Some(m[u.email := UserShifts(entry.userDisplayName, entry.shifts + vs)])
  }

  /** The users of a group, in order. */
  function AddUsers(m: GroupShifts, users: seq<ScheduleUser>, keywords: seq<string>, worklogsData: WorklogsData): Option<GroupShifts> {
    if users == [] then Some(m)
    else
      match AddUsers(m, users[..|users| - 1], keywords, worklogsData)
      case None => None
      case Some(m') => AddUser(m', users[|users| - 1], keywords, worklogsData)
  }

  /** One group (lines 295-341): its name gets an entry, then its users. */
  function AddGroup(v: ValidatedShiftsData, g: Group, keywords: seq<string>, worklogsData: WorklogsData): Option<ValidatedShiftsData> {
    var inner := if g.groupName in v then v[g.groupName] else map[];
    match AddUsers(inner, g.users, keywords, worklogsData)
    case None => None
    case Some(m) => Some(v[g.groupName := m])
  }

  /** `validatedShiftsData` for the groups of the schedule snapshot. */
  function ValidatedShiftsOf(groups: seq<Group>, keywords: seq<string>, worklogsData: WorklogsData): Option<ValidatedShiftsData> {
    if groups == [] then Some(map[])
    else
      match ValidatedShiftsOf(groups[..|groups| - 1], keywords, worklogsData)
      case None => None
      case Some(v) => AddGroup(v, groups[|groups| - 1], keywords, worklogsData)
  }

  // ---------------------------------------------------------------------
  // Reference: the schedule as a flat list of (group name, user) pairs
  // ---------------------------------------------------------------------

  datatype Placement = Placement(groupName: string, user: ScheduleUser)

  function PlaceUsers(name: string, users: seq<ScheduleUser>): (ps: seq<Placement>)
    ensures |ps| == |users|
    ensures forall i :: 0 <= i < |users| ==> ps[i] == Placement(name, users[i])
  {
    seq(|users|, i requires 0 <= i < |users| => Placement(name, users[i]))
  }

  /** Every user of every group, tagged with the group's name, in order. */
  function Placements(groups: seq<Group>): (ps: seq<Placement>)
    ensures forall p :: p in ps <==> exists g :: g in groups && p.groupName == g.groupName && p.user in g.users
  {
    if groups == [] then []
    else
      var init := groups[..|groups| - 1];
      var last := groups[|groups| - 1];
      SplitLast(groups);
      var ps := Placements(init) + PlaceUsers(last.groupName, last.users);
      assert forall p :: p in PlaceUsers(last.groupName, last.users) <==> p.groupName == last.groupName && p.user in last.users by {
        forall p: Placement | p.groupName == last.groupName && p.user in last.users
          ensures p in PlaceUsers(last.groupName, last.users)
        {
          var i :| 0 <= i < |last.users| && last.users[i] == p.user;
          assert PlaceUsers(last.groupName, last.users)[i] == p;
        }
      }
      ps
  }

  function GroupNames(groups: seq<Group>): set<string> {
    set g | g in groups :: g.groupName
  }

  /** The emails placed under group name n. */
  function Emails(ps: seq<Placement>, n: string): set<string> {
    set p | p in ps && p.groupName == n :: p.user.email
  }

  /** The kept shifts of every placement of email e under group name n, in
      order. */
  function KeptFor(ps: seq<Placement>, n: string, e: string, keywords: seq<string>): seq<Shift> {
    if ps == [] then []
    else
      var last := ps[|ps| - 1];
      KeptFor(ps[..|ps| - 1], n, e, keywords)
        + (if last.groupName == n && last.user.email == e then Kept(last.user.shifts, keywords) else [])
  }

  /** The display name of the first placement of email e under group name n. */
  function FirstName(ps: seq<Placement>, n: string, e: string): Option<string> {
    if ps == [] then None
    else
      var last := ps[|ps| - 1];
      match FirstName(ps[..|ps| - 1], n, e)
      case Some(name) => Some(name)
      case None => if last.groupName == n && last.user.email == e then Some(last.user.displayName) else None
  }

  /** The entry of email e under group name n is the one the placements
      `ps` call for. */
  predicate EntryMatches(entry: UserShifts, ps: seq<Placement>, n: string, e: string, keywords: seq<string>, worklogsData: WorklogsData) {
    && FirstName(ps, n, e) == Some(entry.userDisplayName)
    && ValidateAll(KeptFor(ps, n, e, keywords), e, worklogsData) == Some(entry.shifts)
  }

  /** `v` is the join of the placements `ps`, made under the group names
      `names`. */
  predicate Describes(v: ValidatedShiftsData, ps: seq<Placement>, names: set<string>, keywords: seq<string>, worklogsData: WorklogsData) {
    && v.Keys == names
    && (forall p :: p in ps ==> p.groupName in names)
    && (forall n :: n in v ==> v[n].Keys == Emails(ps, n))
    && (forall n, e :: n in v && e in v[n] ==> EntryMatches(v[n][e], ps, n, e, keywords, worklogsData))
  }

  // ---------------------------------------------------------------------
  // The join is the reference
  // ---------------------------------------------------------------------

  lemma {:induction false} ValidateAllAppend(a: seq<Shift>, b: seq<Shift>, email: string, worklogsData: WorklogsData)
    requires ValidateAll(a, email, worklogsData).Some? && ValidateAll(b, email, worklogsData).Some?
    ensures ValidateAll(a + b, email, worklogsData)
            == Some(ValidateAll(a, email, worklogsData).value + ValidateAll(b, email, worklogsData).value)
  {
    var r := ValidateAll(a + b, email, worklogsData);
    var x := ValidateAll(a, email, worklogsData).value;
    var y := ValidateAll(b, email, worklogsData).value;
    assert forall i :: 0 <= i < |a + b| ==> (a + b)[i].startDateTime.Some? by {
      forall i | 0 <= i < |a + b| ensures (a + b)[i].startDateTime.Some? {
        if i < |a| { assert (a + b)[i] == a[i]; } else { assert (a + b)[i] == b[i - |a|]; }
      }
    }
    assert r.Some?;
    assert r.value == x + y by {
      forall i | 0 <= i < |a + b| ensures r.value[i] == (x + y)[i] {
        if i < |a| { assert (a + b)[i] == a[i]; } else { assert (a + b)[i] == b[i - |a|]; }
      }
    }
  }

  // One-step unfoldings of the folds.

  lemma {:induction false} AddUsersLast(m: GroupShifts, users: seq<ScheduleUser>, keywords: seq<string>, worklogsData: WorklogsData)
    requires users != []
    ensures var before := AddUsers(m, users[..|users| - 1], keywords, worklogsData);
            AddUsers(m, users, keywords, worklogsData)
            == if before.None? then None else AddUser(before.value, users[|users| - 1], keywords, worklogsData)
  {
  }

  lemma {:induction false} ValidatedShiftsLast(groups: seq<Group>, keywords: seq<string>, worklogsData: WorklogsData)
    requires groups != []
    ensures var before := ValidatedShiftsOf(groups[..|groups| - 1], keywords, worklogsData);
            ValidatedShiftsOf(groups, keywords, worklogsData)
            == if before.None? then None else AddGroup(before.value, groups[|groups| - 1], keywords, worklogsData)
  {
  }

  lemma GroupNamesLast(groups: seq<Group>)
    requires groups != []
    ensures GroupNames(groups) == GroupNames(groups[..|groups| - 1]) + {groups[|groups| - 1].groupName}
  {
    var init := groups[..|groups| - 1];
    SplitLast(groups);
    forall x | x in GroupNames(groups) ensures x in GroupNames(init) + {groups[|groups| - 1].groupName} {
      var g :| g in groups && g.groupName == x;
      if g != groups[|groups| - 1] { assert g in init; }
    }
  }

  lemma {:induction false} PlaceUsersLast(name: string, users: seq<ScheduleUser>)
    requires users != []
    ensures PlaceUsers(name, users) == PlaceUsers(name, users[..|users| - 1]) + [Placement(name, users[|users| - 1])]
  {
  }

  lemma {:induction false} PlacementsLast(groups: seq<Group>)
    requires groups != []
    ensures var last := groups[|groups| - 1];
            Placements(groups) == Placements(groups[..|groups| - 1]) + PlaceUsers(last.groupName, last.users)
  {
  }

  /** A pair that never occurs contributes nothing. */
  lemma {:induction false} AbsentEmail(ps: seq<Placement>, n: string, e: string, keywords: seq<string>)
    requires e !in Emails(ps, n)
    ensures KeptFor(ps, n, e, keywords) == [] && FirstName(ps, n, e) == None
  {
    if ps != [] {
      var init := ps[..|ps| - 1];
      var last := ps[|ps| - 1];
      assert last in ps;
      forall q | q in init && q.groupName == n ensures q.user.email != e {
        assert q in ps;
      }
      AbsentEmail(init, n, e, keywords);
    }
  }

  lemma {:induction false} EmailsAppend(ps: seq<Placement>, p: Placement, n: string)
    ensures Emails(ps + [p], n) == Emails(ps, n) + (if p.groupName == n then {p.user.email} else {})
  {
    forall x | x in Emails(ps + [p], n) ensures x in Emails(ps, n) + (if p.groupName == n then {p.user.email} else {}) {
      var q :| q in ps + [p] && q.groupName == n && q.user.email == x;
      if q != p { assert q in ps; }
    }
  }

  /** A placement leaves every other pair's entry as it was. */
  lemma {:induction false} OtherEntryUnchanged(ps: seq<Placement>, p: Placement, n: string, e: string, keywords: seq<string>)
    requires n != p.groupName || e != p.user.email
    ensures KeptFor(ps + [p], n, e, keywords) == KeptFor(ps, n, e, keywords)
    ensures FirstName(ps + [p], n, e) == FirstName(ps, n, e)
  {
    PrefixOfSnoc(ps, p);
    assert KeptFor(ps, n, e, keywords) + [] == KeptFor(ps, n, e, keywords);
  }

  /** A placement appends its marked shifts to its own pair's entry, which
      it creates with its display name when there was none. */
  lemma {:induction false} OwnEntryExtended(ps: seq<Placement>, p: Placement, before: Option<UserShifts>,
                                            vs: seq<ValidatedShift>, keywords: seq<string>, worklogsData: WorklogsData)
    requires ValidateAll(Kept(p.user.shifts, keywords), p.user.email, worklogsData) == Some(vs)
    requires before.Some? ==> EntryMatches(before.value, ps, p.groupName, p.user.email, keywords, worklogsData)
    requires before.None? ==> p.user.email !in Emails(ps, p.groupName)
    ensures var entry := if before.Some? then before.value else UserShifts(p.user.displayName, []);
            EntryMatches(UserShifts(entry.userDisplayName, entry.shifts + vs), ps + [p], p.groupName, p.user.email, keywords, worklogsData)
  {
    var n, e := p.groupName, p.user.email;
    var ks := Kept(p.user.shifts, keywords);
    PrefixOfSnoc(ps, p);
    assert KeptFor(ps + [p], n, e, keywords) == KeptFor(ps, n, e, keywords) + ks;
    if before.Some? {
      ValidateAllAppend(KeptFor(ps, n, e, keywords), ks, e, worklogsData);
    } else {
      AbsentEmail(ps, n, e, keywords);
      assert [] + ks == ks;
      assert [] + vs == vs;
    }
  }

  /** A placement adds its email under its group name and nothing else. */
  lemma PlaceKeys(v: ValidatedShiftsData, ps: seq<Placement>, names: set<string>, p: Placement,
                  keywords: seq<string>, worklogsData: WorklogsData, m: GroupShifts, v': ValidatedShiftsData)
    requires Describes(v, ps, names, keywords, worklogsData) && p.groupName in names
    requires m.Keys == v[p.groupName].Keys + {p.user.email}
    requires v' == v[p.groupName := m]
    ensures forall n :: n in v' ==> v'[n].Keys == Emails(ps + [p], n)
  {
    forall n | n in v' ensures v'[n].Keys == Emails(ps + [p], n) {
      EmailsAppend(ps, p, n);
    }
  }

  /** A placement that extends its own entry correctly keeps every entry
      matching the reference. */
  lemma PlaceEntries(v: ValidatedShiftsData, ps: seq<Placement>, names: set<string>, p: Placement,
                     keywords: seq<string>, worklogsData: WorklogsData, m: GroupShifts, v': ValidatedShiftsData)
    requires Describes(v, ps, names, keywords, worklogsData) && p.groupName in names
    requires p.user.email in m && EntryMatches(m[p.user.email], ps + [p], p.groupName, p.user.email, keywords, worklogsData)
    requires forall e :: e in m && e != p.user.email ==> e in v[p.groupName] && m[e] == v[p.groupName][e]
    requires v' == v[p.groupName := m]
    ensures forall n, e :: n in v' && e in v'[n] ==> EntryMatches(v'[n][e], ps + [p], n, e, keywords, worklogsData)
  {
    forall n, e | n in v' && e in v'[n]
      ensures EntryMatches(v'[n][e], ps + [p], n, e, keywords, worklogsData)
    {
      if n != p.groupName || e != p.user.email {
        OtherEntryUnchanged(ps, p, n, e, keywords);
        assert v'[n][e] == v[n][e];
      }
    }
  }

  /** One placement keeps the join equal to the reference. */
  lemma {:induction false} PlaceStep(v: ValidatedShiftsData, ps: seq<Placement>, names: set<string>, p: Placement,
                                     keywords: seq<string>, worklogsData: WorklogsData, m: GroupShifts)
    requires Describes(v, ps, names, keywords, worklogsData) && p.groupName in names
    requires AddUser(v[p.groupName], p.user, keywords, worklogsData) == Some(m)
    ensures Describes(v[p.groupName := m], ps + [p], names, keywords, worklogsData)
  {
    var u := p.user;
    var g := v[p.groupName];
    var vs := ValidateAll(Kept(u.shifts, keywords), u.email, worklogsData).value;
    var before := if u.email in g then Some(g[u.email]) else None;
    AddUserShape(g, u, keywords, worklogsData, m);
    if before.Some? {
      assert EntryMatches(before.value, ps, p.groupName, u.email, keywords, worklogsData);
    } else {
      assert u.email !in Emails(ps, p.groupName);
    }
    OwnEntryExtended(ps, p, before, vs, keywords, worklogsData);
    PlaceDescribes(v, ps, names, p, keywords, worklogsData, m, v[p.groupName := m]);
  }

  /** `AddUser` adds the user's email to the group map, extends that entry
      by the marked shifts, and keeps every other entry. */
  lemma AddUserShape(g: GroupShifts, u: ScheduleUser, keywords: seq<string>, worklogsData: WorklogsData, m: GroupShifts)
    requires AddUser(g, u, keywords, worklogsData) == Some(m)
    ensures ValidateAll(Kept(u.shifts, keywords), u.email, worklogsData).Some?
    ensures m.Keys == g.Keys + {u.email}
    ensures forall e :: e in m && e != u.email ==> e in g && m[e] == g[e]
    ensures var vs := ValidateAll(Kept(u.shifts, keywords), u.email, worklogsData).value;
            var entry := if u.email in g then g[u.email] else UserShifts(u.displayName, []);
            m[u.email] == UserShifts(entry.userDisplayName, entry.shifts + vs)
  {
  }

  /** The new group map keeps the join equal to the reference when it adds
      the placement's email, extends that entry correctly and keeps every
      other entry. */
  lemma PlaceDescribes(v: ValidatedShiftsData, ps: seq<Placement>, names: set<string>, p: Placement,
                       keywords: seq<string>, worklogsData: WorklogsData, m: GroupShifts, v': ValidatedShiftsData)
    requires Describes(v, ps, names, keywords, worklogsData) && p.groupName in names
    requires m.Keys == v[p.groupName].Keys + {p.user.email}
    requires p.user.email in m && EntryMatches(m[p.user.email], ps + [p], p.groupName, p.user.email, keywords, worklogsData)
    requires forall e :: e in m && e != p.user.email ==> e in v[p.groupName] && m[e] == v[p.groupName][e]
    requires v' == v[p.groupName := m]
    ensures Describes(v', ps + [p], names, keywords, worklogsData)
  {
    PlaceKeys(v, ps, names, p, keywords, worklogsData, m, v');
    PlaceEntries(v, ps, names, p, keywords, worklogsData, m, v');
    assert v'.Keys == names;
    PlacedUnder(ps, p, names);
  }

  lemma PlacedUnder(ps: seq<Placement>, p: Placement, names: set<string>)
    requires (forall q :: q in ps ==> q.groupName in names) && p.groupName in names
    ensures forall q :: q in ps + [p] ==> q.groupName in names
  {
  }

  lemma {:induction false} UsersStep(v: ValidatedShiftsData, ps: seq<Placement>, names: set<string>, name: string,
                                     users: seq<ScheduleUser>, keywords: seq<string>, worklogsData: WorklogsData, m: GroupShifts)
    requires Describes(v, ps, names, keywords, worklogsData) && name in names
    requires AddUsers(v[name], users, keywords, worklogsData) == Some(m)
    ensures Describes(v[name := m], ps + PlaceUsers(name, users), names, keywords, worklogsData)
    decreases |users|
  {
    if users == [] {
      assert ps + PlaceUsers(name, users) == ps;
      assert v[name := m] == v;
    } else {
      var init := users[..|users| - 1];
      var last := users[|users| - 1];
      AddUsersLast(v[name], users, keywords, worklogsData);
      var m1 := AddUsers(v[name], init, keywords, worklogsData).value;
      UsersStep(v, ps, names, name, init, keywords, worklogsData, m1);
      var v1 := v[name := m1];
      var ps1 := ps + PlaceUsers(name, init);
      PlaceStep(v1, ps1, names, Placement(name, last), keywords, worklogsData, m);
      PlaceUsersLast(name, users);
      AppendAssoc(ps, PlaceUsers(name, init), Placement(name, last));
      OverwriteTwice(v, name, m1, m);
    }
  }

  lemma {:induction false} GroupStep(v: ValidatedShiftsData, ps: seq<Placement>, names: set<string>, g: Group,
                                     keywords: seq<string>, worklogsData: WorklogsData, v': ValidatedShiftsData)
    requires Describes(v, ps, names, keywords, worklogsData)
    requires AddGroup(v, g, keywords, worklogsData) == Some(v')
    ensures Describes(v', ps + PlaceUsers(g.groupName, g.users), names + {g.groupName}, keywords, worklogsData)
  {
    var name := g.groupName;
    if name in v {
      assert names + {name} == names;
      var m := AddUsers(v[name], g.users, keywords, worklogsData).value;
      UsersStep(v, ps, names, name, g.users, keywords, worklogsData, m);
    } else {
      NewGroupName(v, ps, names, name, keywords, worklogsData);
      var v0 := v[name := map[]];
      var m := AddUsers(map[], g.users, keywords, worklogsData).value;
      assert v0[name] == map[];
      UsersStep(v0, ps, names + {name}, name, g.users, keywords, worklogsData, m);
      OverwriteTwice(v, name, map[], m);
    }
  }

  lemma AppendAssoc(a: seq<Placement>, b: seq<Placement>, x: Placement)
    ensures (a + b) + [x] == a + (b + [x])
  {
  }

  lemma OverwriteTwice(v: ValidatedShiftsData, name: string, m1: GroupShifts, m: GroupShifts)
    ensures v[name := m1][name := m] == v[name := m]
  {
  }

  /** A group name seen for the first time starts with no emails. */
  lemma {:induction false} NewGroupName(v: ValidatedShiftsData, ps: seq<Placement>, names: set<string>, name: string,
                                        keywords: seq<string>, worklogsData: WorklogsData)
    requires Describes(v, ps, names, keywords, worklogsData) && name !in v
    ensures Describes(v[name := map[]], ps, names + {name}, keywords, worklogsData)
  {
    var v0 := v[name := map[]];
    assert forall q :: q in ps ==> q.groupName != name;
    assert Emails(ps, name) == {};
    forall n, e | n in v0 && e in v0[n] ensures EntryMatches(v0[n][e], ps, n, e, keywords, worklogsData) {
      assert n != name;
    }
  }

  /** The join characterised: `validatedShiftsData` has exactly the groups'
      names; under each name, exactly the emails of the users placed there;
      and under each email the first such user's display name and all the
      kept shifts of those users, in schedule order, each marked. */
  lemma {:induction false} JoinIsReference(groups: seq<Group>, keywords: seq<string>, worklogsData: WorklogsData, v: ValidatedShiftsData)
    requires ValidatedShiftsOf(groups, keywords, worklogsData) == Some(v)
    ensures Describes(v, Placements(groups), GroupNames(groups), keywords, worklogsData)
    decreases |groups|
  {
    if groups != [] {
      var init := groups[..|groups| - 1];
      var last := groups[|groups| - 1];
      ValidatedShiftsLast(groups, keywords, worklogsData);
      var v0 := ValidatedShiftsOf(init, keywords, worklogsData).value;
      JoinIsReference(init, keywords, worklogsData, v0);
      GroupStep(v0, Placements(init), GroupNames(init), last, keywords, worklogsData, v);
      PlacementsLast(groups);
      GroupNamesLast(groups);
    }
  }

  /** `validated` is true exactly when the user has a total of at least 7
      hours on the shift's date, the text before its first 'T'. */
  lemma ValidatedIff(groups: seq<Group>, keywords: seq<string>, worklogsData: WorklogsData, v: ValidatedShiftsData,
                     n: string, e: string, i: nat)
    requires ValidatedShiftsOf(groups, keywords, worklogsData) == Some(v)
    requires n in v && e in v[n] && i < |v[n][e].shifts|
    ensures v[n][e].shifts[i].shift.startDateTime.Some?
    ensures var vs := v[n][e].shifts[i];
            var shiftDate := BeforeFirst(vs.shift.startDateTime.value, 'T');
            vs.validated <==> && e in worklogsData
                              && shiftDate in worklogsData[e].worklogsTotalTime
                              && worklogsData[e].worklogsTotalTime[shiftDate].totalSpentTime >= 7.0
  {
    JoinIsReference(groups, keywords, worklogsData, v);
    assert EntryMatches(v[n][e], Placements(groups), n, e, keywords, worklogsData);
  }

  /** The shifts under a user are the user's kept shifts, in schedule order,
      across every group of that name the user appears in. */
  lemma ShiftsAreKept(groups: seq<Group>, keywords: seq<string>, worklogsData: WorklogsData, v: ValidatedShiftsData,
                      n: string, e: string)
    requires ValidatedShiftsOf(groups, keywords, worklogsData) == Some(v)
    requires n in v && e in v[n]
    ensures |v[n][e].shifts| == |KeptFor(Placements(groups), n, e, keywords)|
    ensures forall i :: 0 <= i < |v[n][e].shifts| ==> v[n][e].shifts[i].shift == KeptFor(Placements(groups), n, e, keywords)[i]
  {
    JoinIsReference(groups, keywords, worklogsData, v);
    assert EntryMatches(v[n][e], Placements(groups), n, e, keywords, worklogsData);
  }

  /** Every group name gets an entry, and every user of a group an entry
      under it, even a user none of whose shifts is kept. */
  lemma EveryUserHasAnEntry(groups: seq<Group>, keywords: seq<string>, worklogsData: WorklogsData, v: ValidatedShiftsData,
                            gi: nat, ui: nat)
    requires ValidatedShiftsOf(groups, keywords, worklogsData) == Some(v)
    requires gi < |groups| && ui < |groups[gi].users|
    ensures groups[gi].groupName in v
    ensures groups[gi].users[ui].email in v[groups[gi].groupName]
  {
    JoinIsReference(groups, keywords, worklogsData, v);
    var g := groups[gi];
    var p := Placement(g.groupName, g.users[ui]);
    assert g.users[ui] in g.users;
    assert p in Placements(groups);
  }

  /** Only the groups' names and their users' emails get entries. */
  lemma NoOtherEntries(groups: seq<Group>, keywords: seq<string>, worklogsData: WorklogsData, v: ValidatedShiftsData,
                       n: string, e: string)
    requires ValidatedShiftsOf(groups, keywords, worklogsData) == Some(v)
    requires n in v && e in v[n]
    ensures exists g :: g in groups && g.groupName == n
    ensures exists g, u :: g in groups && g.groupName == n && u in g.users && u.email == e
  {
    JoinIsReference(groups, keywords, worklogsData, v);
    var p :| p in Placements(groups) && p.groupName == n && p.user.email == e;
  }

  /** Without a worklog snapshot no shift is validated. */
  lemma NoWorklogsNothingValidated(groups: seq<Group>, keywords: seq<string>, v: ValidatedShiftsData, n: string, e: string, i: nat)
    requires ValidatedShiftsOf(groups, keywords, map[]) == Some(v)
    requires n in v && e in v[n] && i < |v[n][e].shifts|
    ensures !v[n][e].shifts[i].validated
  {
    ValidatedIff(groups, keywords, map[], v, n, e, i);
  }

  /** The join fails exactly when a kept shift has no `startDateTime`. */
  lemma {:induction false} JoinFailsIff(groups: seq<Group>, keywords: seq<string>, worklogsData: WorklogsData)
    ensures ValidatedShiftsOf(groups, keywords, worklogsData).None?
            <==> exists p, s :: p in Placements(groups) && s in Kept(p.user.shifts, keywords) && s.startDateTime.None?
    decreases |groups|
  {
    if groups != [] {
      var init := groups[..|groups| - 1];
      var last := groups[|groups| - 1];
      JoinFailsIff(init, keywords, worklogsData);
      assert Placements(groups) == Placements(init) + PlaceUsers(last.groupName, last.users);
      match ValidatedShiftsOf(init, keywords, worklogsData)
      case None =>
      case Some(v) =>
        var inner := if last.groupName in v then v[last.groupName] else map[];
        UsersFailIff(inner, last.groupName, last.users, keywords, worklogsData);
    }
  }

  lemma {:induction false} UsersFailIff(m: GroupShifts, name: string, users: seq<ScheduleUser>, keywords: seq<string>, worklogsData: WorklogsData)
    ensures AddUsers(m, users, keywords, worklogsData).None?
            <==> exists p, s :: p in PlaceUsers(name, users) && s in Kept(p.user.shifts, keywords) && s.startDateTime.None?
    decreases |users|
  {
    if users != [] {
      var init := users[..|users| - 1];
      var last := users[|users| - 1];
      UsersFailIff(m, name, init, keywords, worklogsData);
      AddUsersLast(m, users, keywords, worklogsData);
      PlaceUsersLast(name, users);
      var before := AddUsers(m, init, keywords, worklogsData);
      if before.Some? {
        UserFailsIff(before, last, keywords, worklogsData);
      }
      PlacementsFailAppend(PlaceUsers(name, init), Placement(name, last), keywords);
    }
  }

  /** One user fails exactly when one of their kept shifts has no start. */
  lemma UserFailsIff(before: Option<GroupShifts>, u: ScheduleUser, keywords: seq<string>, worklogsData: WorklogsData)
    requires before.Some?
    ensures AddUser(before.value, u, keywords, worklogsData).None?
            <==> exists s :: s in Kept(u.shifts, keywords) && s.startDateTime.None?
  {
    var ks := Kept(u.shifts, keywords);
    if exists s :: s in ks && s.startDateTime.None? {
      var s :| s in ks && s.startDateTime.None?;
      var i :| 0 <= i < |ks| && ks[i] == s;
    }
  }

  /** A failing placement exists in `ps + [p]` exactly when one exists in
      `ps` or `p` itself fails. */
  lemma PlacementsFailAppend(ps: seq<Placement>, p: Placement, keywords: seq<string>)
    ensures (exists q, s :: q in ps + [p] && s in Kept(q.user.shifts, keywords) && s.startDateTime.None?)
            <==> (exists q, s :: q in ps && s in Kept(q.user.shifts, keywords) && s.startDateTime.None?)
                 || (exists s :: s in Kept(p.user.shifts, keywords) && s.startDateTime.None?)
  {
    if exists q, s :: q in ps + [p] && s in Kept(q.user.shifts, keywords) && s.startDateTime.None? {
      var q, s :| q in ps + [p] && s in Kept(q.user.shifts, keywords) && s.startDateTime.None?;
      if q != p { assert q in ps; }
    }
    if exists q, s :: q in ps && s in Kept(q.user.shifts, keywords) && s.startDateTime.None? {
      var q, s :| q in ps && s in Kept(q.user.shifts, keywords) && s.startDateTime.None?;
      assert q in ps + [p];
    }
  }

  /** A day with exactly 7 logged hours validates its shifts; one with 6.5
      does not. */
  lemma ThresholdExamples()
    ensures IsValidated(map["a@x" := UserWorklogs("A", map["2024-01-08" := DailyTotal(7.0, 2)])], "a@x", "2024-01-08")
    ensures !IsValidated(map["a@x" := UserWorklogs("A", map["2024-01-08" := DailyTotal(6.5, 2)])], "a@x", "2024-01-08")
    ensures !IsValidated(map["a@x" := UserWorklogs("A", map["2024-01-08" := DailyTotal(9.0, 1)])], "b@x", "2024-01-08")
  {
  }

  // ---------------------------------------------------------------------
  // The loops of the handler
  // ---------------------------------------------------------------------

  /** Lines 326-338: mark and collect one user's kept shifts. */
  method MarkShifts(kept: seq<Shift>, email: string, worklogsData: WorklogsData) returns (r: Option<seq<ValidatedShift>>)
    ensures r == ValidateAll(kept, email, worklogsData)
  {
    var marked: seq<ValidatedShift> := [];
    var i := 0;
    while i < |kept|
      invariant 0 <= i <= |kept|
      invariant ValidateAll(kept[..i], email, worklogsData) == Some(marked)
    {
      var shift := kept[i];
      ValidateAllNext(kept, i, email, worklogsData, marked);
      if shift.startDateTime.None? {
        return None;
      }
      var shiftDate := BeforeFirst(shift.startDateTime.value, 'T');
      var validated := email in worklogsData
                       && shiftDate in worklogsData[email].worklogsTotalTime
                       && worklogsData[email].worklogsTotalTime[shiftDate].totalSpentTime >= ValidationThreshold;
      marked := marked + [ValidatedShift(shift, validated)];
      i := i + 1;
    }
    TakeAll(kept);
    return Some(marked);
  }

  lemma ValidateAllNext(kept: seq<Shift>, i: nat, email: string, worklogsData: WorklogsData, marked: seq<ValidatedShift>)
    requires i < |kept| && ValidateAll(kept[..i], email, worklogsData) == Some(marked)
    ensures kept[i].startDateTime.None? ==> ValidateAll(kept, email, worklogsData).None?
    ensures kept[i].startDateTime.Some? ==>
              ValidateAll(kept[..i + 1], email, worklogsData)
              == Some(marked + [ValidatedShift(kept[i], IsValidated(worklogsData, email, BeforeFirst(kept[i].startDateTime.value, 'T')))])
  {
    TakeTake(kept, i);
  }

  /** Lines 305-339: one user of a group: filter, create the entry on
      first sight, append the marked shifts. */
  method JoinUser(groupShifts: GroupShifts, user: ScheduleUser, keywords: seq<string>, worklogsData: WorklogsData)
    returns (r: Option<GroupShifts>)
    ensures r == AddUser(groupShifts, user, keywords, worklogsData)
  {
    var shifts := groupShifts;
    var userShifts := Kept(user.shifts, keywords);
    if user.email !in shifts {
      shifts := shifts[user.email := UserShifts(user.displayName, [])];
    }
    var entry := shifts[user.email];
    var marked := MarkShifts(userShifts, user.email, worklogsData);
    if marked.None? {
      return None;
    }
    shifts := shifts[user.email := UserShifts(entry.userDisplayName, entry.shifts + marked.value)];
    assert shifts == groupShifts[user.email := UserShifts(entry.userDisplayName, entry.shifts + marked.value)];
    return Some(shifts);
  }

  /** Lines 305-339 for every user of one group, in order. */
  method JoinUsers(m: GroupShifts, users: seq<ScheduleUser>, keywords: seq<string>, worklogsData: WorklogsData)
    returns (r: Option<GroupShifts>)
    ensures r == AddUsers(m, users, keywords, worklogsData)
  {
    var groupShifts := m;
    var k := 0;
    while k < |users|
      invariant 0 <= k <= |users|
      invariant AddUsers(m, users[..k], keywords, worklogsData) == Some(groupShifts)
    {
      AddUsersNext(m, users, k, keywords, worklogsData, groupShifts);
      var joined := JoinUser(groupShifts, users[k], keywords, worklogsData);
      if joined.None? {
        UsersFailPrefix(m, users, k + 1, keywords, worklogsData);
        return None;
      }
      groupShifts := joined.value;
      k := k + 1;
    }
    TakeAll(users);
    return Some(groupShifts);
  }

  /** Lines 295-341: one group, its entry created on first sight, then
      its users. */
  method JoinGroup(validatedShiftsData: ValidatedShiftsData, group: Group, keywords: seq<string>, worklogsData: WorklogsData)
    returns (r: Option<ValidatedShiftsData>)
    ensures r == AddGroup(validatedShiftsData, group, keywords, worklogsData)
  {
    var data := validatedShiftsData;
    if group.groupName !in data {
      data := data[group.groupName := map[]];
    }
    var joined := JoinUsers(data[group.groupName], group.users, keywords, worklogsData);
    if joined.None? {
      return None;
    }
    data := data[group.groupName := joined.value];
    assert data == validatedShiftsData[group.groupName := joined.value];
    return Some(data);
  }

  /** Lines 293-342: `validatedShiftsData` for the schedule's groups. */
  method JoinSchedule(groups: seq<Group>, keywords: seq<string>, worklogsData: WorklogsData)
    returns (r: Option<ValidatedShiftsData>)
    ensures r == ValidatedShiftsOf(groups, keywords, worklogsData)
  {
    var validatedShiftsData: ValidatedShiftsData := map[];
    var i := 0;
    while i < |groups|
      invariant 0 <= i <= |groups|
      invariant ValidatedShiftsOf(groups[..i], keywords, worklogsData) == Some(validatedShiftsData)
    {
      ValidatedShiftsLast(groups[..i + 1], keywords, worklogsData);
      TakeTake(groups, i);
      var joined := JoinGroup(validatedShiftsData, groups[i], keywords, worklogsData);
      if joined.None? {
        GroupsFailPrefix(groups, i + 1, keywords, worklogsData);
        return None;
      }
      validatedShiftsData := joined.value;
      i := i + 1;
    }
    TakeAll(groups);
    return Some(validatedShiftsData);
  }

  lemma AddUsersNext(m: GroupShifts, users: seq<ScheduleUser>, k: nat, keywords: seq<string>, worklogsData: WorklogsData,
                     groupShifts: GroupShifts)
    requires k < |users| && AddUsers(m, users[..k], keywords, worklogsData) == Some(groupShifts)
    ensures AddUsers(m, users[..k + 1], keywords, worklogsData) == AddUser(groupShifts, users[k], keywords, worklogsData)
  {
    TakeTake(users, k);
    AddUsersLast(m, users[..k + 1], keywords, worklogsData);
  }

  // A failure on a prefix is a failure of the whole: used by the early
  // exits above.

  lemma {:induction false} UsersFailPrefix(m: GroupShifts, users: seq<ScheduleUser>, k: nat, keywords: seq<string>, worklogsData: WorklogsData)
    requires k <= |users| && AddUsers(m, users[..k], keywords, worklogsData).None?
    ensures AddUsers(m, users, keywords, worklogsData).None?
    decreases |users|
  {
    if k < |users| {
      var init := users[..|users| - 1];
      assert init[..k] == users[..k];
      UsersFailPrefix(m, init, k, keywords, worklogsData);
    } else {
      TakeAll(users);
    }
  }

  lemma {:induction false} GroupsFailPrefix(groups: seq<Group>, i: nat, keywords: seq<string>, worklogsData: WorklogsData)
    requires i <= |groups| && ValidatedShiftsOf(groups[..i], keywords, worklogsData).None?
    ensures ValidatedShiftsOf(groups, keywords, worklogsData).None?
    decreases |groups|
  {
    if i < |groups| {
      var init := groups[..|groups| - 1];
      assert init[..i] == groups[..i];
      GroupsFailPrefix(init, i, keywords, worklogsData);
    } else {
      TakeAll(groups);
    }
  }
}
