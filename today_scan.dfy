/** The scan of `getUsersWithShiftsToday` (appController.js lines 1027-1073):
    every user of the stored week whose shifts include one overlapping
    today's UTC day is pushed once per appearance.

    The clock is the parameter `now` (milliseconds since the epoch) and
    `new Date(text)` is the parameter `instant`, `None` for an invalid date
    (every comparison with an invalid date is false). */
module TodayScan {
  import opened SeqFacts
  import opened Wrappers
  import opened Snapshots

  const MsPerDay: int := 86_400_000

  /** `setUTCHours(0, 0, 0, 0)` (line 1031): midnight UTC of the day of
      `now`. */
  function DayStart(now: int): (r: int)
    ensures r <= now < r + MsPerDay
    ensures r % MsPerDay == 0
  {
    now - now % MsPerDay
  }

  /** `setUTCHours(23, 59, 59, 999)` (line 1034): the last millisecond of the
      day of `now`. */
  function DayEnd(now: int): (r: int)
    ensures DayStart(now) <= now <= r
    ensures r == DayStart(now) + MsPerDay - 1
  {
    now - now % MsPerDay + 23 * 3_600_000 + 59 * 60_000 + 59 * 1000 + 999
  }

  /** A present, non-empty text field (JavaScript truthiness of a string). */
  predicate Truthy(field: Option<string>) {
    field.Some? && field.value != ""
  }

  /** The condition of lines 1053-1058: both ends present and the shift
      overlaps the day `[dayStart, dayEnd]`. */
  predicate OnToday(s: Shift, instant: string -> Option<int>, dayStart: int, dayEnd: int) {
    && Truthy(s.startDateTime)
    && Truthy(s.endDateTime)
    && instant(s.startDateTime.value).Some?
    && instant(s.startDateTime.value).value <= dayEnd
    && instant(s.endDateTime.value).Some?
    && instant(s.endDateTime.value).value >= dayStart
  }

  predicate WorksToday(u: ScheduleUser, instant: string -> Option<int>, dayStart: int, dayEnd: int) {
    exists i :: 0 <= i < |u.shifts| && OnToday(u.shifts[i], instant, dayStart, dayEnd)
  }

  /** `Object.values(users)` followed by the inner `for…of`: every user of
      every group, in order. */
  function Flatten(userGroups: seq<seq<ScheduleUser>>): (r: seq<ScheduleUser>)
    ensures forall u :: u in r <==> exists g :: g in userGroups && u in g
  {
    if userGroups == [] then []
    else
      var init := userGroups[..|userGroups| - 1];
      var last := userGroups[|userGroups| - 1];
      SplitLast(userGroups);
      Flatten(init) + last
  }

  /** The users pushed for a flat list of users, in order. */
  function Today(users: seq<ScheduleUser>, instant: string -> Option<int>, dayStart: int, dayEnd: int): (r: seq<ScheduleUser>)
    ensures |r| <= |users|
    ensures forall u :: u in r <==> u in users && WorksToday(u, instant, dayStart, dayEnd)
  {
    if users == [] then []
    else
      var init := users[..|users| - 1];
      var last := users[|users| - 1];
      SplitLast(users);
      Today(init, instant, dayStart, dayEnd) + (if WorksToday(last, instant, dayStart, dayEnd) then [last] else [])
  }

  /** The response of `getUsersWithShiftsToday`. `userGroups` is
      `shiftsByWeek.data.users`, `None` when the week, its `data` or its
      `users` is missing (line 1043), and then nobody is pushed. */
  function UsersWithShiftsToday(userGroups: Option<seq<seq<ScheduleUser>>>, instant: string -> Option<int>, now: int): seq<ScheduleUser> {
    match userGroups
    case None => []
    case Some(gs) => Today(Flatten(gs), instant, DayStart(now), DayEnd(now))
  }

  // ---------------------------------------------------------------------
  // Properties
  // ---------------------------------------------------------------------

  lemma TodayAppend(users: seq<ScheduleUser>, u: ScheduleUser, instant: string -> Option<int>, dayStart: int, dayEnd: int)
    ensures Today(users + [u], instant, dayStart, dayEnd)
            == Today(users, instant, dayStart, dayEnd) + (if WorksToday(u, instant, dayStart, dayEnd) then [u] else [])
  {
    PrefixOfSnoc(users, u);
  }

  lemma {:induction false} TodayConcat(a: seq<ScheduleUser>, b: seq<ScheduleUser>, instant: string -> Option<int>, dayStart: int, dayEnd: int)
    ensures Today(a + b, instant, dayStart, dayEnd) == Today(a, instant, dayStart, dayEnd) + Today(b, instant, dayStart, dayEnd)
    decreases |b|
  {
    if b == [] {
      assert a + b == a;
    } else {
      var init := b[..|b| - 1];
      var last := b[|b| - 1];
      AppendSplitLast(a, b);
      SplitLast(b);
      TodayConcat(a, init, instant, dayStart, dayEnd);
      TodayAppend(a + init, last, instant, dayStart, dayEnd);
      TodayAppend(init, last, instant, dayStart, dayEnd);
      AppendAssoc(Today(a, instant, dayStart, dayEnd), Today(init, instant, dayStart, dayEnd),
                  if WorksToday(last, instant, dayStart, dayEnd) then [last] else []);
    }
  }

  /** A user is pushed at most once per appearance (the `break` of line
      1060), and every appearance of a user working today is pushed. */
  lemma {:induction false} PushedOncePerAppearance(users: seq<ScheduleUser>, u: ScheduleUser, instant: string -> Option<int>, dayStart: int, dayEnd: int)
    ensures multiset(Today(users, instant, dayStart, dayEnd))[u]
            == if WorksToday(u, instant, dayStart, dayEnd) then multiset(users)[u] else 0
  {
    if users != [] {
      var init := users[..|users| - 1];
      SplitLast(users);
      PushedOncePerAppearance(init, u, instant, dayStart, dayEnd);
    }
  }

  /** Membership in the response: exactly the users of some group with a
      shift overlapping today. */
  lemma ResponseMembers(userGroups: seq<seq<ScheduleUser>>, instant: string -> Option<int>, now: int, u: ScheduleUser)
    ensures u in UsersWithShiftsToday(Some(userGroups), instant, now)
            <==> (exists g :: g in userGroups && u in g)
                 && exists i :: 0 <= i < |u.shifts| && OnToday(u.shifts[i], instant, DayStart(now), DayEnd(now))
  {
  }

  /** A shift without an end never counts, whatever its start. */
  lemma OpenShiftNeverCounts(s: Shift, instant: string -> Option<int>, dayStart: int, dayEnd: int)
    requires s.endDateTime.None?
    ensures !OnToday(s, instant, dayStart, dayEnd)
  {
  }

  /** A shift that started before today and ends during it counts: the test
      is an overlap, not containment. */
  lemma OvernightShiftCounts(s: Shift, instant: string -> Option<int>, now: int)
    requires Truthy(s.startDateTime) && Truthy(s.endDateTime)
    requires instant(s.startDateTime.value) == Some(DayStart(now) - 3_600_000)
    requires instant(s.endDateTime.value) == Some(DayStart(now) + 3_600_000)
    ensures OnToday(s, instant, DayStart(now), DayEnd(now))
  {
  }

  // ---------------------------------------------------------------------
  // The loops of lines 1046-1065
  // ---------------------------------------------------------------------

  /** The innermost loop (lines 1052-1062): scan the shifts until one
      overlaps today. */
  method FindShiftToday(u: ScheduleUser, instant: string -> Option<int>, dayStart: int, dayEnd: int) returns (found: bool)
    ensures found <==> WorksToday(u, instant, dayStart, dayEnd)
  {
    found := false;
    var k := 0;
    while k < |u.shifts|
      invariant 0 <= k <= |u.shifts|
      invariant forall j :: 0 <= j < k ==> !OnToday(u.shifts[j], instant, dayStart, dayEnd)
    {
      var s := u.shifts[k];
      if OnToday(s, instant, dayStart, dayEnd) {
        found := true;
        break;
      }
      k := k + 1;
    }
  }

  /** The loop over one group's users (lines 1047-1064): push each user
      with a shift today onto `pushed`. */
  method ScanGroup(pushed: seq<ScheduleUser>, userGroup: seq<ScheduleUser>, instant: string -> Option<int>, dayStart: int, dayEnd: int)
    returns (r: seq<ScheduleUser>)
    ensures r == pushed + Today(userGroup, instant, dayStart, dayEnd)
  {
    r := pushed;
    var j := 0;
    while j < |userGroup|
      invariant 0 <= j <= |userGroup|
      invariant r == pushed + Today(userGroup[..j], instant, dayStart, dayEnd)
    {
      var userShifts := userGroup[j];
      var found := FindShiftToday(userShifts, instant, dayStart, dayEnd);
      TakeSnoc(userGroup, j);
      TodayAppend(userGroup[..j], userShifts, instant, dayStart, dayEnd);
      if found {
        r := r + [userShifts];
      }
      j := j + 1;
    }
    TakeAll(userGroup);
  }

  /** `getUsersWithShiftsToday` without the database lookup and the JSON
      reply: the pushed users are the specification's. */
  method ScanToday(userGroups: Option<seq<seq<ScheduleUser>>>, instant: string -> Option<int>, now: int)
    returns (usersWithShiftsToday: seq<ScheduleUser>)
    ensures usersWithShiftsToday == UsersWithShiftsToday(userGroups, instant, now)
  {
    var todayStart := now - now % MsPerDay;
    var todayEnd := todayStart + 23 * 3_600_000 + 59 * 60_000 + 59 * 1000 + 999;
    usersWithShiftsToday := [];
    if userGroups.Some? {
      var gs := userGroups.value;
      var i := 0;
      while i < |gs|
        invariant 0 <= i <= |gs|
        invariant usersWithShiftsToday == Today(Flatten(gs[..i]), instant, todayStart, todayEnd)
      {
        usersWithShiftsToday := ScanGroup(usersWithShiftsToday, gs[i], instant, todayStart, todayEnd);
        TakeTake(gs, i);
        TodayConcat(Flatten(gs[..i]), gs[i], instant, todayStart, todayEnd);
        i := i + 1;
      }
      TakeAll(gs);
    }
  }
}
