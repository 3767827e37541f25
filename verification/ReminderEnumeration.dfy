/** Who gets a receipt reminder: nested cursor loops over registered users and their receipt activity. */
module ReminderEnumeration {
  import opened Prelude
  import opened ScheduleRules
  import opened DueSnapshot
  import opened OrderedRows
  import opened IdSets

  datatype Activity = Activity(userId: nat, receiptCount: nat)

  predicate Observed(r: StoredReceipt, userId: nat, cutoff: int) {
    r.userId == userId && r.createdAt < cutoff
  }

  function CountReceipts(receipts: seq<StoredReceipt>, userId: nat, cutoff: int): nat {
    if receipts == [] then 0
    else (if Observed(receipts[0], userId, cutoff) then 1 else 0) + CountReceipts(receipts[1..], userId, cutoff)
  }

  /** max(created_at); None when there is no row to aggregate. */
  function LastCreated(receipts: seq<StoredReceipt>, userId: nat, cutoff: int): Option<int> {
    if receipts == [] then None
    else
      var later := LastCreated(receipts[1..], userId, cutoff);
      if !Observed(receipts[0], userId, cutoff) then later
      else if later.Some? then Some(Max(receipts[0].createdAt, later.value))
      else Some(receipts[0].createdAt)
  }

  lemma {:induction false} LastCreatedIsTheMaximum(receipts: seq<StoredReceipt>, userId: nat, cutoff: int, since: int)
    ensures LastCreated(receipts, userId, cutoff).None? <==> CountReceipts(receipts, userId, cutoff) == 0
    ensures CountReceipts(receipts, userId, cutoff) == 0 <==> forall r :: r in receipts ==> !Observed(r, userId, cutoff)
    ensures (LastCreated(receipts, userId, cutoff).Some? && LastCreated(receipts, userId, cutoff).value >= since) <==>
            exists r :: r in receipts && Observed(r, userId, cutoff) && r.createdAt >= since
  {
    if receipts != [] {
      LastCreatedIsTheMaximum(receipts[1..], userId, cutoff, since);
      assert receipts == [receipts[0]] + receipts[1..];
    }
  }

  /** None: the user registered a receipt recently and is left out. */
  function ActivityOf(db: Snapshot, userId: nat, cutoff: int, recentSince: Option<int>): Option<Activity> {
    var last := LastCreated(db.receipts, userId, cutoff);
    if last.None? then Some(Activity(userId, 0))
    else if recentSince.Some? && last.value >= recentSince.value then None
    else Some(Activity(userId, CountReceipts(db.receipts, userId, cutoff)))
  }

  function Activities(db: Snapshot, userIds: seq<nat>, cutoff: int, recentSince: Option<int>): seq<Activity> {
    if userIds == [] then []
    else
      var activity := ActivityOf(db, userIds[0], cutoff, recentSince);
      (if activity.Some? then [activity.value] else []) + Activities(db, userIds[1..], cutoff, recentSince)
  }

  function PastId(cursor: Option<nat>): nat -> bool {
    (id: nat) => cursor.None? || id > cursor.value
  }

  function PastUser(cursor: Option<nat>): Activity -> bool {
    (a: Activity) => cursor.None? || a.userId > cursor.value
  }

  function ActivityPage(db: Snapshot, userIds: seq<nat>, limit: nat, recentSince: Option<int>, cutoff: int,
                        cursor: Option<nat>): Page<Activity> {
    var pageable := Filter(SortedIds(userIds), PastId(cursor));
    Cut(Activities(db, pageable, cutoff, recentSince), limit)
  }

  lemma {:induction false} ActivitiesPastCursor(db: Snapshot, ids: seq<nat>, cutoff: int, recentSince: Option<int>,
                                                cursor: Option<nat>)
    ensures Activities(db, Filter(ids, PastId(cursor)), cutoff, recentSince) ==
            Filter(Activities(db, ids, cutoff, recentSince), PastUser(cursor))
  {
    if ids != [] {
      ActivitiesPastCursor(db, ids[1..], cutoff, recentSince, cursor);
      var head := ActivityOf(db, ids[0], cutoff, recentSince);
      var first := if head.Some? then [head.value] else [];
      FilterConcat(first, Activities(db, ids[1..], cutoff, recentSince), PastUser(cursor));
      if head.Some? { assert first[1..] == []; }
      var kept := Filter(ids[1..], PastId(cursor));
      if PastId(cursor)(ids[0]) {
        assert Filter(ids, PastId(cursor)) == [ids[0]] + kept && ([ids[0]] + kept)[1..] == kept;
      } else {
        assert Filter(ids, PastId(cursor)) == kept;
      }
    }
  }

  lemma {:induction false} ActivitiesAscend(db: Snapshot, ids: seq<nat>, cutoff: int, recentSince: Option<int>)
    requires AscendingIds(ids)
    ensures forall i, j :: 0 <= i < j < |Activities(db, ids, cutoff, recentSince)| ==>
              Activities(db, ids, cutoff, recentSince)[i].userId < Activities(db, ids, cutoff, recentSince)[j].userId
    ensures forall a :: a in Activities(db, ids, cutoff, recentSince) <==>
              a.userId in ids && ActivityOf(db, a.userId, cutoff, recentSince) == Some(a)
  {
    if ids != [] {
      ActivitiesAscend(db, ids[1..], cutoff, recentSince);
      assert ids == [ids[0]] + ids[1..];
      forall x | x in ids[1..] ensures ids[0] < x {
        var k :| 0 <= k < |ids[1..]| && ids[1..][k] == x;
        assert ids[0] < ids[k + 1];
      }
    }
  }

  lemma ActivityPageAt(db: Snapshot, userIds: seq<nat>, limit: nat, recentSince: Option<int>, cutoff: int,
                       cursor: Option<nat>, i: nat)
    requires var all := Activities(db, SortedIds(userIds), cutoff, recentSince);
             limit >= 1 && i <= |all| && cursor == if i == 0 then None else Some(all[i - 1].userId)
    ensures Covers(Activities(db, SortedIds(userIds), cutoff, recentSince), i,
                   ActivityPage(db, userIds, limit, recentSince, cutoff, cursor))
  {
    var all := Activities(db, SortedIds(userIds), cutoff, recentSince);
    SortedIdsSorts(userIds);
    ActivitiesPastCursor(db, SortedIds(userIds), cutoff, recentSince, cursor);
    ActivitiesAscend(db, SortedIds(userIds), cutoff, recentSince);
    var past := PastUser(cursor);
    assert forall k :: 0 <= k < |all| ==> (past(all[k]) <==> k >= i);
    PastCursor(all, i, past);
    CutCovers(all, i, limit);
  }

  ghost predicate ActivityCursorAt(db: Snapshot, userIds: seq<nat>, recentSince: Option<int>, cutoff: int,
                                   cursor: Option<nat>, i: nat) {
    var all := Activities(db, SortedIds(userIds), cutoff, recentSince);
    i <= |all| && cursor == if i == 0 then None else Some(all[i - 1].userId)
  }

  function FirstActivities(db: Snapshot, userIds: seq<nat>, recentSince: Option<int>, cutoff: int,
                           i: nat): seq<Activity>
    requires i <= |Activities(db, SortedIds(userIds), cutoff, recentSince)|
  {
    Activities(db, SortedIds(userIds), cutoff, recentSince)[..i]
  }

  /** The inner loop is at activity `i`, and has yielded what comes before. */
  ghost predicate ActivitiesReached(db: Snapshot, userIds: seq<nat>, recentSince: Option<int>, cutoff: int,
                                    cursor: Option<nat>, i: nat, yielded: seq<Activity>) {
    && ActivityCursorAt(db, userIds, recentSince, cutoff, cursor, i)
    && yielded == FirstActivities(db, userIds, recentSince, cutoff, i)
  }

  /** One request for a page of activities. */
  method FetchActivities(db: Snapshot, userIds: seq<nat>, limit: nat, recentSince: Option<int>, cutoff: int,
                         cursor: Option<nat>, ghost i: nat, ghost before: seq<Activity>)
    returns (page: Page<Activity>)
    requires limit >= 1 && ActivitiesReached(db, userIds, recentSince, cutoff, cursor, i, before)
    ensures i + |page.rows| <= |Activities(db, SortedIds(userIds), cutoff, recentSince)|
    ensures !page.hasNext ==> before + page.rows == Activities(db, SortedIds(userIds), cutoff, recentSince)
    ensures page.hasNext ==> page.rows != [] && page.next.Some?
    ensures page.hasNext ==>
              ActivitiesReached(db, userIds, recentSince, cutoff, Some(page.next.value.userId), i + |page.rows|,
                                before + page.rows)
  {
    ActivityPageAt(db, userIds, limit, recentSince, cutoff, cursor, i);
    page := ActivityPage(db, userIds, limit, recentSince, cutoff, cursor);
    CoveredExtends(Activities(db, SortedIds(userIds), cutoff, recentSince), i, page, before);
  }

  /** The inner cursor loop: all activities of the given users, in user order, whatever the batch size. */
  method ActivitiesFor(db: Snapshot, userIds: seq<nat>, recentSince: Option<int>, cutoff: int, batchSize: nat)
    returns (yielded: seq<Activity>)
    requires batchSize >= 1
    ensures yielded == Activities(db, SortedIds(userIds), cutoff, recentSince)
  {
    yielded := [];
    if userIds == [] {
      return;
    }
    ghost var i := 0;
    var cursor: Option<nat> := None;
    while true
      invariant ActivitiesReached(db, userIds, recentSince, cutoff, cursor, i, yielded)
      decreases |Activities(db, SortedIds(userIds), cutoff, recentSince)| - i
    {
      var page := FetchActivities(db, userIds, batchSize, recentSince, cutoff, cursor, i, yielded);
      yielded := yielded + page.rows;
      i := i + |page.rows|;
      if !page.hasNext {
        return;
      }
      if page.next.None? {
        assert false;
      }
      cursor := Some(page.next.value.userId);
    }
  }

  // ---- Reminders ------------------------------------------------------------------------------------------

  datatype Reminder = Reminder(userId: nat, receiptCount: Option<nat>)

  predicate MatchesReceiptActivity(kind: TargetKind, receiptCount: nat) {
    match kind
    case UnregisteredReceipt => receiptCount == 0
    case InactiveReceipt => receiptCount > 0
    case WarrantyReceipt => false
    case AllUser => false
  }

  /** None: the rule has no lookback although its kind needs one, for which the source raises. */
  function RecentSince(due: DueRule): Option<Option<int>> {
    if !due.rule.kind.InactiveReceipt? then Some(None)
    else if due.rule.lookbackDays.None? then None
    else Some(Some((due.targetDate - due.rule.lookbackDays.value) * DAY))
  }

  predicate InCadence(due: DueRule, user: User) {
    MatchesJoinCadence(due.rule, RegistrationAgeDays(due.targetDate, user.createdAt))
  }

  /** What one user of the page is sent, if anything. */
  function ReminderFor(db: Snapshot, due: DueRule, recentSince: Option<int>, userId: nat): Option<Reminder> {
    if due.rule.kind.AllUser? then Some(Reminder(userId, None))
    else
      var activity := ActivityOf(db, userId, ObservationCutoff(due), recentSince);
      if activity.Some? && MatchesReceiptActivity(due.rule.kind, activity.value.receiptCount)
      then Some(Reminder(userId, Some(activity.value.receiptCount))) else None
  }

  /** The declared rule: observed receipts of the user decide, whatever pages they were read in. */
  lemma ReminderForMeansTheDeclaredRule(db: Snapshot, due: DueRule, userId: nat)
    requires RecentSince(due).Some?
    ensures ReminderFor(db, due, RecentSince(due).value, userId).Some? <==>
            match due.rule.kind
            case AllUser => true
            case UnregisteredReceipt => forall r :: r in db.receipts ==> !Observed(r, userId, ObservationCutoff(due))
            case InactiveReceipt =>
              && (exists r :: r in db.receipts && Observed(r, userId, ObservationCutoff(due)))
              && (forall r :: r in db.receipts && Observed(r, userId, ObservationCutoff(due)) ==>
                    r.createdAt < (due.targetDate - due.rule.lookbackDays.value) * DAY)
            case WarrantyReceipt => false
  {
    var since := RecentSince(due).value;
    LastCreatedIsTheMaximum(db.receipts, userId, ObservationCutoff(due), if since.Some? then since.value else 0);
  }

  ghost function ObservedReceipts(receipts: seq<StoredReceipt>, userId: nat, cutoff: int): set<StoredReceipt> {
    set r | r in receipts && Observed(r, userId, cutoff)
  }

  lemma OneMoreObserved(receipts: seq<StoredReceipt>, userId: nat, cutoff: int)
    requires receipts != [] && receipts[0] !in receipts[1..]
    ensures |ObservedReceipts(receipts, userId, cutoff)| ==
            |ObservedReceipts(receipts[1..], userId, cutoff)| + if Observed(receipts[0], userId, cutoff) then 1 else 0
  {
    var first, rest := receipts[0], receipts[1..];
    forall r ensures r in receipts <==> r == first || r in rest {
      assert receipts == [first] + rest;
    }
    assert ObservedReceipts(receipts, userId, cutoff) ==
           ObservedReceipts(rest, userId, cutoff) + if Observed(first, userId, cutoff) then {first} else {};
  }

  lemma {:induction false} CountReceiptsIsCardinality(receipts: seq<StoredReceipt>, userId: nat, cutoff: int)
    requires forall i, j :: 0 <= i < j < |receipts| ==> receipts[i].id < receipts[j].id
    ensures CountReceipts(receipts, userId, cutoff) == |ObservedReceipts(receipts, userId, cutoff)|
  {
    if receipts != [] {
      CountReceiptsIsCardinality(receipts[1..], userId, cutoff);
      OneMoreObserved(receipts, userId, cutoff);
    }
  }

  /** A reminder goes to its user and states the number of receipts seen by the cutoff; one to everybody states none. */
  lemma ReminderStatesTheCount(db: Snapshot, due: DueRule, recentSince: Option<int>, userId: nat)
    requires Indexed(db) && ReminderFor(db, due, recentSince, userId).Some?
    ensures ReminderFor(db, due, recentSince, userId).value ==
            Reminder(userId,
                     if due.rule.kind.AllUser? then None
                     else Some(|set r | r in db.receipts && r.userId == userId
                                     && r.createdAt < ObservationCutoff(due)|))
  {
    var cutoff := ObservationCutoff(due);
    CountReceiptsIsCardinality(db.receipts, userId, cutoff);
    LastCreatedIsTheMaximum(db.receipts, userId, cutoff, 0);
    assert ObservedReceipts(db.receipts, userId, cutoff) ==
           set r | r in db.receipts && r.userId == userId && r.createdAt < cutoff;
  }

  ghost predicate OneEach(reminders: seq<Reminder>) {
    forall i, j :: 0 <= i < j < |reminders| ==> reminders[i].userId != reminders[j].userId
  }

  ghost predicate ExactlyFor(db: Snapshot, due: DueRule, recentSince: Option<int>, userIds: seq<nat>,
                             reminders: seq<Reminder>) {
    && OneEach(reminders)
    && forall m :: m in reminders <==> m.userId in userIds && ReminderFor(db, due, recentSince, m.userId) == Some(m)
  }

  ghost predicate Distinct(ids: seq<nat>) {
    forall i, j :: 0 <= i < j < |ids| ==> ids[i] != ids[j]
  }

  function RemindersOf(due: DueRule, activities: seq<Activity>): seq<Reminder> {
    if activities == [] then []
    else
      var a := activities[0];
      (if MatchesReceiptActivity(due.rule.kind, a.receiptCount) then [Reminder(a.userId, Some(a.receiptCount))] else [])
      + RemindersOf(due, activities[1..])
  }

  lemma {:induction false} RemindersOfConcat(due: DueRule, a: seq<Activity>, b: seq<Activity>)
    ensures RemindersOf(due, a + b) == RemindersOf(due, a) + RemindersOf(due, b)
  {
    if a == [] {
      assert a + b == b;
    } else {
      RemindersOfConcat(due, a[1..], b);
      assert (a + b)[1..] == a[1..] + b;
    }
  }

  ghost predicate RemindersFromActivities(due: DueRule, activities: seq<Activity>, reminders: seq<Reminder>) {
    forall m :: m in reminders <==>
      m.receiptCount.Some? && Activity(m.userId, m.receiptCount.value) in activities
      && MatchesReceiptActivity(due.rule.kind, m.receiptCount.value)
  }

  lemma {:induction false} RemindersOfMatching(due: DueRule, activities: seq<Activity>)
    requires forall i, j :: 0 <= i < j < |activities| ==> activities[i].userId < activities[j].userId
    ensures OneEach(RemindersOf(due, activities))
    ensures RemindersFromActivities(due, activities, RemindersOf(due, activities))
  {
    if activities != [] {
      RemindersOfMatching(due, activities[1..]);
      assert activities == [activities[0]] + activities[1..];
      forall m | m in RemindersOf(due, activities[1..]) ensures m.userId != activities[0].userId {
        var k :| 0 <= k < |activities[1..]| && activities[1..][k] == Activity(m.userId, m.receiptCount.value);
        assert activities[0].userId < activities[k + 1].userId;
      }
    }
  }

  method KeepMatching(due: DueRule, activities: seq<Activity>) returns (yielded: seq<Reminder>)
    ensures yielded == RemindersOf(due, activities)
  {
    yielded := [];
    for k := 0 to |activities|
      invariant yielded == RemindersOf(due, activities[..k])
    {
      var a := activities[k];
      assert activities[..k + 1] == activities[..k] + [a] && [a][1..] == [];
      RemindersOfConcat(due, activities[..k], [a]);
      if MatchesReceiptActivity(due.rule.kind, a.receiptCount) {
        yielded := yielded + [Reminder(a.userId, Some(a.receiptCount))];
      }
    }
    assert activities[..|activities|] == activities;
  }

  ghost predicate ActivitiesOfUsers(db: Snapshot, due: DueRule, recentSince: Option<int>, userIds: seq<nat>,
                                    activities: seq<Activity>) {
    forall a :: a in activities <==>
        a.userId in userIds && ActivityOf(db, a.userId, ObservationCutoff(due), recentSince) == Some(a)
  }

  lemma MatchingReminderIsDue(db: Snapshot, due: DueRule, recentSince: Option<int>, userIds: seq<nat>,
                              activities: seq<Activity>, m: Reminder)
    requires due.rule.kind.UnregisteredReceipt? || due.rule.kind.InactiveReceipt?
    requires ActivitiesOfUsers(db, due, recentSince, userIds, activities)
    ensures (m.receiptCount.Some? && Activity(m.userId, m.receiptCount.value) in activities
             && MatchesReceiptActivity(due.rule.kind, m.receiptCount.value)) <==>
            m.userId in userIds && ReminderFor(db, due, recentSince, m.userId) == Some(m)
  {
    if m.receiptCount.Some? {
      assert Activity(m.userId, m.receiptCount.value) in activities <==>
             m.userId in userIds && ActivityOf(db, m.userId, ObservationCutoff(due), recentSince) ==
                 Some(Activity(m.userId, m.receiptCount.value));
    }
    var activity := ActivityOf(db, m.userId, ObservationCutoff(due), recentSince);
    if activity.Some? { assert activity.value == Activity(m.userId, activity.value.receiptCount); }
  }

  lemma RemindersAreExact(db: Snapshot, due: DueRule, recentSince: Option<int>, userIds: seq<nat>,
                          activities: seq<Activity>)
    requires due.rule.kind.UnregisteredReceipt? || due.rule.kind.InactiveReceipt?
    requires activities == Activities(db, SortedIds(userIds), ObservationCutoff(due), recentSince)
    ensures ExactlyFor(db, due, recentSince, userIds, RemindersOf(due, activities))
  {
    assert ActivitiesOfUsers(db, due, recentSince, userIds, activities) by {
      SortedIdsSorts(userIds);
      ActivitiesAscend(db, SortedIds(userIds), ObservationCutoff(due), recentSince);
    }
    assert OneEach(RemindersOf(due, activities))
        && RemindersFromActivities(due, activities, RemindersOf(due, activities)) by {
      SortedIdsSorts(userIds);
      ActivitiesAscend(db, SortedIds(userIds), ObservationCutoff(due), recentSince);
      RemindersOfMatching(due, activities);
    }
    forall m ensures m in RemindersOf(due, activities) <==>
        m.userId in userIds && ReminderFor(db, due, recentSince, m.userId) == Some(m) {
      MatchingReminderIsDue(db, due, recentSince, userIds, activities, m);
    }
  }

  /** The users of one page: all of them, or those whose receipt activity matches. */
  method NotificationsForFacts(db: Snapshot, due: DueRule, recentSince: Option<int>, userIds: seq<nat>, batchSize: nat)
    returns (yielded: seq<Reminder>)
    requires batchSize >= 1 && Distinct(userIds)
    ensures ExactlyFor(db, due, recentSince, userIds, yielded)
  {
    yielded := [];
    match due.rule.kind
    case AllUser =>
      for k := 0 to |userIds|
        invariant |yielded| == k && forall j :: 0 <= j < k ==> yielded[j] == Reminder(userIds[j], None)
      {
        yielded := yielded + [Reminder(userIds[k], None)];
      }
    case WarrantyReceipt =>
      return;
    case _ =>
      var activities := ActivitiesFor(db, userIds, recentSince, ObservationCutoff(due), batchSize);
      RemindersAreExact(db, due, recentSince, userIds, activities);
      yielded := KeepMatching(due, activities);
  }

  // ---- The loop over registered users -------------------------------------------------------------------------

  function AfterUser(cursor: Option<User>): User -> bool {
    (u: User) => cursor.None? || UserBefore(cursor.value, u)
  }

  function RegisteredBefore(cutoff: int): User -> bool {
    (u: User) => u.createdAt < cutoff
  }

  function RegistrationPage(db: Snapshot, cutoff: int, limit: nat, cursor: Option<User>): Page<User> {
    Cut(Take(Filter(db.users, (u: User) => u.createdAt < cutoff && (cursor.None? || UserBefore(cursor.value, u))),
             limit + 1), limit)
  }

  function Registered(db: Snapshot, cutoff: int): seq<User> {
    Filter(db.users, RegisteredBefore(cutoff))
  }

  ghost predicate UserCursorAt(db: Snapshot, cutoff: int, cursor: Option<User>, i: nat) {
    i <= |Registered(db, cutoff)| && cursor == if i == 0 then None else Some(Registered(db, cutoff)[i - 1])
  }

  lemma RegisteredAscends(db: Snapshot, cutoff: int)
    requires Indexed(db)
    ensures forall i, j :: 0 <= i < j < |Registered(db, cutoff)| ==>
              UserBefore(Registered(db, cutoff)[i], Registered(db, cutoff)[j])
                  && Registered(db, cutoff)[i].id != Registered(db, cutoff)[j].id
  {
    FilterKeepsOrder(db.users, RegisteredBefore(cutoff), (a: User, b: User) => UserBefore(a, b) && a.id != b.id);
  }

  lemma RegistrationPageAt(db: Snapshot, cutoff: int, limit: nat, cursor: Option<User>, i: nat)
    requires Indexed(db) && limit >= 1 && UserCursorAt(db, cutoff, cursor, i)
    ensures Covers(Registered(db, cutoff), i, RegistrationPage(db, cutoff, limit, cursor))
  {
    var all := Registered(db, cutoff);
    var past := AfterUser(cursor);
    FilterTwice(db.users, RegisteredBefore(cutoff), past,
                (u: User) => u.createdAt < cutoff && (cursor.None? || UserBefore(cursor.value, u)));
    RegisteredAscends(db, cutoff);
    forall k | 0 <= k < |all| ensures past(all[k]) <==> k >= i {
      if i > 0 {
        if k < i - 1 { assert UserBefore(all[k], all[i - 1]); }
        if k > i - 1 { assert UserBefore(all[i - 1], all[k]); }
      }
    }
    PastCursor(all, i, past);
    CutCovers(all, i, limit);
  }

  lemma FreshId(due: DueRule, facts: seq<User>, k: nat, ids: seq<nat>)
    requires k < |facts| && IdsInCadence(due, facts[..k], ids)
    requires forall i, j :: 0 <= i < j < |facts| ==> facts[i].id != facts[j].id
    ensures facts[k].id !in ids
  {
    forall u | u in facts[..k] ensures u.id != facts[k].id {
      var i :| 0 <= i < k && facts[..k][i] == u;
      assert facts[i].id != facts[k].id;
    }
  }

  /** The ids of a page's users whose cadence falls on the target date. */
  method DueFacts(due: DueRule, facts: seq<User>) returns (ids: seq<nat>)
    requires forall i, j :: 0 <= i < j < |facts| ==> facts[i].id != facts[j].id
    ensures Distinct(ids) && IdsInCadence(due, facts, ids)
  {
    ids := [];
    for k := 0 to |facts|
      invariant Distinct(ids) && IdsInCadence(due, facts[..k], ids)
    {
      assert facts[..k + 1] == facts[..k] + [facts[k]];
      if InCadence(due, facts[k]) {
        FreshId(due, facts, k, ids);
        ids := ids + [facts[k].id];
      }
    }
    assert facts[..|facts|] == facts;
  }

  ghost predicate IdsInCadence(due: DueRule, facts: seq<User>, ids: seq<nat>) {
    forall id :: id in ids <==> exists u :: u in facts && u.id == id && InCadence(due, u)
  }

  /** `m` is what some user among `users` is due. */
  ghost predicate DueAmong(db: Snapshot, due: DueRule, recentSince: Option<int>, users: seq<User>, m: Reminder) {
    exists u :: u in users && u.id == m.userId && InCadence(due, u)
        && ReminderFor(db, due, recentSince, u.id) == Some(m)
  }

  ghost predicate Complete(db: Snapshot, due: DueRule, recentSince: Option<int>, users: seq<User>,
                           reminders: seq<Reminder>) {
    OneEach(reminders) && forall m :: m in reminders <==> DueAmong(db, due, recentSince, users, m)
  }

  lemma PageCompletes(db: Snapshot, due: DueRule, recentSince: Option<int>, a: seq<User>, b: seq<User>, ids: seq<nat>,
                      before: seq<Reminder>, page: seq<Reminder>)
    requires forall u, v :: u in a && v in b ==> u.id != v.id
    requires Complete(db, due, recentSince, a, before) && ExactlyFor(db, due, recentSince, ids, page)
    requires IdsInCadence(due, b, ids)
    ensures Complete(db, due, recentSince, a + b, before + page)
  {
    forall m | m in before ensures exists u :: u in a && u.id == m.userId {
      assert DueAmong(db, due, recentSince, a, m);
    }
    forall m | m in page ensures exists u :: u in b && u.id == m.userId {
      assert m.userId in ids;
    }
    forall m ensures m in before + page <==> DueAmong(db, due, recentSince, a + b, m) {
      if m in before {
        var u :| u in a && u.id == m.userId && InCadence(due, u) && ReminderFor(db, due, recentSince, u.id) == Some(m);
        assert u in a + b;
      }
      if m in page {
        var u :| u in b && u.id == m.userId && InCadence(due, u);
        assert u in a + b;
      }
      if DueAmong(db, due, recentSince, a + b, m) {
        var u :| u in a + b && u.id == m.userId && InCadence(due, u)
            && ReminderFor(db, due, recentSince, u.id) == Some(m);
        if u in a {
          assert DueAmong(db, due, recentSince, a, m);
        } else {
          assert m.userId in ids;
        }
      }
    }
  }

  lemma PageKeepsComplete(db: Snapshot, due: DueRule, since: Option<int>, i: nat, page: Page<User>, ids: seq<nat>,
                          before: seq<Reminder>, found: seq<Reminder>)
    requires Indexed(db)
    requires Covers(Registered(db, ObservationCutoff(due)), i, page)
    requires Complete(db, due, since, Registered(db, ObservationCutoff(due))[..i], before)
    requires IdsInCadence(due, page.rows, ids) && ExactlyFor(db, due, since, ids, found)
    ensures Complete(db, due, since, Registered(db, ObservationCutoff(due))[..i + |page.rows|], before + found)
  {
    var all := Registered(db, ObservationCutoff(due));
    RegisteredAscends(db, ObservationCutoff(due));
    forall u, v | u in all[..i] && v in page.rows ensures u.id != v.id {
      var k :| 0 <= k < i && all[k] == u;
      var m :| 0 <= m < |page.rows| && page.rows[m] == v;
      assert all[i + m] == v;
    }
    PageCompletes(db, due, since, all[..i], page.rows, ids, before, found);
    CoveredPrefix(all, i, page);
  }

  lemma PageIdsDiffer(db: Snapshot, cutoff: int, i: nat, page: Page<User>)
    requires Indexed(db) && Covers(Registered(db, cutoff), i, page)
    ensures forall k, m :: 0 <= k < m < |page.rows| ==> page.rows[k].id != page.rows[m].id
  {
    var all := Registered(db, cutoff);
    RegisteredAscends(db, cutoff);
    forall k, m | 0 <= k < m < |page.rows| ensures page.rows[k].id != page.rows[m].id {
      assert page.rows[k] == all[i + k] && page.rows[m] == all[i + m];
    }
  }

  /** One request for a page of registered users. */
  method FetchRegistrations(db: Snapshot, cutoff: int, limit: nat, cursor: Option<User>, ghost i: nat)
    returns (page: Page<User>)
    requires Indexed(db) && limit >= 1 && UserCursorAt(db, cutoff, cursor, i)
    ensures Covers(Registered(db, cutoff), i, page)
    ensures forall k, m :: 0 <= k < m < |page.rows| ==> page.rows[k].id != page.rows[m].id
  {
    RegistrationPageAt(db, cutoff, limit, cursor, i);
    page := RegistrationPage(db, cutoff, limit, cursor);
    PageIdsDiffer(db, cutoff, i, page);
  }

  /** The outer loop has seen the users before row `i`, and its cursor is there. */
  ghost predicate Reached(db: Snapshot, due: DueRule, since: Option<int>, cursor: Option<User>, i: nat,
                          reminders: seq<Reminder>) {
    && UserCursorAt(db, ObservationCutoff(due), cursor, i)
    && Complete(db, due, since, Registered(db, ObservationCutoff(due))[..i], reminders)
  }

  lemma PageAdvances(db: Snapshot, due: DueRule, since: Option<int>, cursor: Option<User>, i: nat,
                     before: seq<Reminder>, page: Page<User>, ids: seq<nat>, found: seq<Reminder>)
    requires Indexed(db) && Reached(db, due, since, cursor, i, before)
    requires Covers(Registered(db, ObservationCutoff(due)), i, page)
    requires IdsInCadence(due, page.rows, ids) && ExactlyFor(db, due, since, ids, found)
    ensures page.hasNext ==> page.next.Some? && page.rows != []
    ensures page.hasNext ==> Reached(db, due, since, page.next, i + |page.rows|, before + found)
    ensures !page.hasNext ==> Complete(db, due, since, Registered(db, ObservationCutoff(due)), before + found)
  {
    PageKeepsComplete(db, due, since, i, page, ids, before, found);
    CoveredPrefix(Registered(db, ObservationCutoff(due)), i, page);
  }

  /**
   * The outer loop. For every batch size it yields exactly one reminder per registered user that is in
   * cadence and meets the activity rule; only a rule without its required lookback is refused.
   */
  method IterReminders(db: Snapshot, due: DueRule, batchSize: nat) returns (yielded: Option<seq<Reminder>>)
    requires Indexed(db) && batchSize >= 1
    ensures yielded.None? <==> RecentSince(due).None?
    ensures yielded.Some? ==>
            Complete(db, due, RecentSince(due).value, Registered(db, ObservationCutoff(due)), yielded.value)
  {
    var since := RecentSince(due);
    if since.None? {
      return None;
    }
    var cutoff := ObservationCutoff(due);
    var reminders: seq<Reminder> := [];
    ghost var i := 0;
    var cursor: Option<User> := None;
    while true
      invariant Reached(db, due, since.value, cursor, i, reminders)
      decreases |Registered(db, cutoff)| - i
    {
      var page := FetchRegistrations(db, cutoff, batchSize, cursor, i);
      var ids := DueFacts(due, page.rows);
      var found := NotificationsForFacts(db, due, since.value, ids, batchSize);
      PageAdvances(db, due, since.value, cursor, i, reminders, page, ids, found);
      reminders := reminders + found;
      i := i + |page.rows|;
      if !page.hasNext {
        return Some(reminders);
      }
      if page.next.None? {
        assert false;
      }
      cursor := page.next;
    }
  }
}
