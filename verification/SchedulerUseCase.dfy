/**
 * One scheduler run on a fixed snapshot: rules, their due candidates, and one reserve/create/bind/commit
 * per candidate. What the notification module answers for a candidate is a parameter.
 */
module SchedulerUseCase {
  import opened Prelude
  import opened ScheduleRules
  import opened DueSnapshot
  import opened SchedulerProtocol
  import X = ExpiryEnumeration
  import R = ReminderEnumeration

  /** `Raised`: an exception other than a validation error, which nothing catches until the run has ended. */
  datatype Reply = Saved | Invalidated | ConsentMissing | Raised

  type Creator = Key -> Reply

  datatype Tables = Tables(occurrences: map<Key, Option<NotificationId>>, notifications: map<NotificationId, Key>)

  /** An occurrence is bound; its notification may since have been deleted by its user. */
  ghost predicate OccurrenceMatched(t: Tables, k: Key) {
    k in t.occurrences ==>
      t.occurrences[k].Some?
          && (t.occurrences[k].value in t.notifications ==> t.notifications[t.occurrences[k].value] == k)
  }

  ghost predicate NotificationMatched(t: Tables, n: NotificationId) {
    n in t.notifications ==> t.notifications[n] in t.occurrences && t.occurrences[t.notifications[n]] == Some(n)
  }

  /** Stored notifications and occurrences belong together one to one. */
  ghost predicate Matched(t: Tables) {
    && (forall k {:trigger OccurrenceMatched(t, k)} :: OccurrenceMatched(t, k))
    && (forall n {:trigger NotificationMatched(t, n)} :: NotificationMatched(t, n))
  }

  /** A user may delete a notification between runs. */
  lemma DeletionKeepsMatched(t: Tables, n: NotificationId)
    requires Matched(t)
    ensures Matched(t.(notifications := t.notifications - {n}))
  {
    var t' := t.(notifications := t.notifications - {n});
    forall k ensures OccurrenceMatched(t', k) { assert OccurrenceMatched(t, k); }
    forall m ensures NotificationMatched(t', m) { assert NotificationMatched(t, m); }
  }

  class OccurrenceSession {
    var stored: Tables
    var working: Tables

    constructor (stored: Tables)
      ensures this.stored == stored && working == stored
    {
      this.stored := stored;
      working := stored;
    }

    /** insert ... on conflict do nothing */
    method Reserve(key: Key) returns (inserted: bool)
      modifies this`working
      ensures inserted <==> key !in old(working).occurrences
      ensures working == if inserted then old(working).(occurrences := old(working).occurrences[key := None])
                         else old(working)
    {
      inserted := key !in working.occurrences;
      if inserted {
        working := working.(occurrences := working.occurrences[key := None]);
      }
    }

    method AddNotification(id: NotificationId, key: Key)
      modifies this`working
      ensures working == old(working).(notifications := old(working).notifications[id := key])
    {
      working := working.(notifications := working.notifications[id := key]);
    }

    /** An update of the key's row, if there is one. */
    method BindNotification(key: Key, id: NotificationId)
      modifies this`working
      ensures working == if key in old(working).occurrences
                then old(working).(occurrences := old(working).occurrences[key := Some(id)]) else old(working)
    {
      if key in working.occurrences {
        working := working.(occurrences := working.occurrences[key := Some(id)]);
      }
    }

    method Commit()
      modifies this
      ensures stored == old(working) && working == stored
    {
      stored := working;
    }

    method Rollback()
      modifies this
      ensures stored == old(stored) && working == stored
    {
      working := stored;
    }
  }

  /** None: raised. */
  function ActionOn(t: Tables, key: Key, reply: Reply, dryRun: bool): Option<Action> {
    if dryRun then Some(DryRun)
    else if key in t.occurrences then Some(Skipped)
    else match reply
      case Saved => Some(Created)
      case Invalidated => Some(Failed)
      case ConsentMissing => Some(Skipped)
      case Raised => None
  }

  predicate IsNew(t: Tables, id: NotificationId) {
    id !in t.notifications && Some(id) !in t.occurrences.Values
  }

  lemma {:induction false} SomeIdIsLeft(taken: set<NotificationId>) returns (id: NotificationId)
    ensures forall n :: n in taken ==> n < id
  {
    if taken == {} {
      id := 0;
    } else {
      var n :| n in taken;
      var rest := SomeIdIsLeft(taken - {n});
      id := if rest > n then rest else n + 1;
      assert forall m :: m in taken ==> m == n || m in taken - {n};
    }
  }

  /** A random id that no notification has or had. */
  method FreshId(t: Tables) returns (id: NotificationId)
    ensures IsNew(t, id)
  {
    ghost var bound := set o | o in t.occurrences.Values && o.Some? :: o.value;
    ghost var above := SomeIdIsLeft(t.notifications.Keys + bound);
    assert Some(above) in t.occurrences.Values ==> above in bound;
    assert IsNew(t, above);
    id :| IsNew(t, id);
  }

  /** The tables once the occurrence is bound to the notification. */
  function WithNotification(t: Tables, key: Key, id: NotificationId): Tables {
    Tables(t.occurrences[key := Some(id)], t.notifications[id := key])
  }

  /** The candidate's new tables: one more notification, bound to its own occurrence. */
  ghost predicate SentOne(before: Tables, after: Tables, key: Key) {
    && key !in before.occurrences
    && (forall k :: k in after.occurrences <==> k in before.occurrences || k == key)
    && |after.notifications| == |before.notifications| + 1
    && (forall k :: k in before.occurrences ==> after.occurrences[k] == before.occurrences[k])
    && after.occurrences[key].Some? && after.occurrences[key].value !in before.notifications
    && after.notifications == before.notifications[after.occurrences[key].value := key]
  }

  lemma OneMoreNotification(notifications: map<NotificationId, Key>, id: NotificationId, key: Key)
    requires id !in notifications
    ensures |notifications[id := key]| == |notifications| + 1
  {
    assert notifications[id := key].Keys == notifications.Keys + {id};
  }

  lemma NewNotificationMatches(t: Tables, key: Key, id: NotificationId)
    requires Matched(t) && key !in t.occurrences && IsNew(t, id)
    ensures Matched(WithNotification(t, key, id))
  {
    var t' := WithNotification(t, key, id);
    forall k ensures OccurrenceMatched(t', k) {
      assert OccurrenceMatched(t, k);
      if k in t.occurrences { assert t.occurrences[k] in t.occurrences.Values; }
    }
    forall n ensures NotificationMatched(t', n) { assert NotificationMatched(t, n); }
  }

  lemma NotificationSendsOne(t: Tables, key: Key, id: NotificationId)
    requires Matched(t) && key !in t.occurrences && IsNew(t, id)
    ensures Matched(WithNotification(t, key, id)) && SentOne(t, WithNotification(t, key, id), key)
  {
    NewNotificationMatches(t, key, id);
    OneMoreNotification(t.notifications, id, key);
  }

  lemma NoneIsNoId(t: Tables, key: Key, id: NotificationId)
    requires key !in t.occurrences && IsNew(t.(occurrences := t.occurrences[key := None]), id)
    ensures IsNew(t, id)
  {
    var reserved := t.occurrences[key := None];
    forall k | k in t.occurrences ensures t.occurrences[k] != Some(id) {
      assert reserved[k] in reserved.Values;
    }
  }

  /** The reserved key's notification is written and bound, and everything is committed. */
  method SaveAndBind(session: OccurrenceSession, key: Key)
    requires Matched(session.stored) && key !in session.stored.occurrences
    requires session.working == session.stored.(occurrences := session.stored.occurrences[key := None])
    modifies session
    ensures session.working == session.stored && Matched(session.stored)
    ensures SentOne(old(session.stored), session.stored, key)
  {
    ghost var before := session.stored;
    var id := FreshId(session.working);
    assert IsNew(before, id) by { NoneIsNoId(before, key, id); }
    NotificationSendsOne(before, key, id);
    session.AddNotification(id, key);
    session.BindNotification(key, id);
    assert session.working.occurrences == WithNotification(before, key, id).occurrences;
    session.Commit();
  }

  /** When it raises, the reservation is left to the rollback at the end of the run. */
  method CreateNotification(session: OccurrenceSession, key: Key, creator: Creator, dryRun: bool)
    returns (action: Option<Action>)
    requires session.working == session.stored && Matched(session.stored)
    modifies session
    ensures action == ActionOn(old(session.stored), key, creator(key), dryRun)
    ensures action.Some? ==> session.working == session.stored && Matched(session.stored)
    ensures action == Some(Created) ==> SentOne(old(session.stored), session.stored, key)
    ensures action != Some(Created) ==> session.stored == old(session.stored)
  {
    if dryRun {
      return Some(DryRun);
    }
    var reserved := session.Reserve(key);
    if !reserved {
      return Some(Skipped);
    }
    match creator(key)
    case Raised =>
      return None;
    case Invalidated =>
      session.Rollback();
      return Some(Failed);
    case ConsentMissing =>
      session.Rollback();
      return Some(Skipped);
    case Saved =>
      SaveAndBind(session, key);
      return Some(Created);
  }

  // ---- One rule --------------------------------------------------------------------------------------

  /** Totals are exact: one candidate per key, and every created one is a new notification. */
  ghost predicate Exact(t: Totals, keys: seq<Key>, before: Tables, after: Tables, dryRun: bool) {
    && t.candidates == |keys|
    && (!dryRun ==> t.candidates == t.created + t.skipped + t.failed)
    && (dryRun ==> t.created == t.skipped == t.failed == 0 && after == before)
    && |after.notifications| == |before.notifications| + t.created
  }

  /** After the candidates are processed, the saved ones are sent, and nothing else is. */
  ghost predicate SentExactly(keys: seq<Key>, creator: Creator, before: Tables, after: Tables) {
    && (forall k :: k in after.occurrences <==> k in before.occurrences || (k in keys && creator(k).Saved?))
    && forall k :: k in before.occurrences ==> after.occurrences[k] == before.occurrences[k]
  }

  /** The module raises for this candidate, whose occurrence is not taken. */
  predicate RaisesFor(t: Tables, key: Key, creator: Creator) {
    key !in t.occurrences && creator(key).Raised?
  }

  /** The candidates before one that raised have been processed. */
  ghost predicate StoppedAtKey(keys: seq<Key>, creator: Creator, before: Tables, after: Tables) {
    exists j :: 0 <= j < |keys| && RaisesFor(before, keys[j], creator)
        && SentExactly(keys[..j], creator, before, after)
  }

  /** The candidates, by position, whose occurrence was not taken and which the notification module found invalid. */
  ghost function FailedAt(keys: seq<Key>, creator: Creator, before: Tables): set<int> {
    set i | 0 <= i < |keys| && keys[i] !in before.occurrences && creator(keys[i]).Invalidated?
  }

  ghost predicate NoneRaised(keys: seq<Key>, creator: Creator, before: Tables) {
    forall k :: k in keys ==> !RaisesFor(before, k, creator)
  }

  /** The first `i` candidates have been processed, and the module raised for none of them. */
  ghost predicate ThroughKeys(keys: seq<Key>, i: nat, creator: Creator, dryRun: bool, sum: Totals, before: Tables,
                              after: Tables)
    requires i <= |keys|
  {
    && Exact(sum, keys[..i], before, after, dryRun)
    && (!dryRun ==>
          && SentExactly(keys[..i], creator, before, after) && NoneRaised(keys[..i], creator, before)
          && sum.failed == |FailedAt(keys[..i], creator, before)|)
  }

  lemma NothingSentYet(keys: seq<Key>, creator: Creator, dryRun: bool, t: Tables)
    ensures ThroughKeys(keys, 0, creator, dryRun, ZERO, t, t)
  {
    assert keys[..0] == [] && FailedAt([], creator, t) == {};
  }

  lemma ThroughAll(keys: seq<Key>, creator: Creator, dryRun: bool, sum: Totals, before: Tables, after: Tables)
    requires ThroughKeys(keys, |keys|, creator, dryRun, sum, before, after)
    ensures Exact(sum, keys, before, after, dryRun)
    ensures !dryRun ==>
              && SentExactly(keys, creator, before, after) && NoneRaised(keys, creator, before)
              && sum.failed == |FailedAt(keys, creator, before)|
  {
    assert keys[..|keys|] == keys;
  }

  lemma StopsAt(keys: seq<Key>, i: nat, creator: Creator, sum: Totals, before: Tables, middle: Tables)
    requires i < |keys| && ThroughKeys(keys, i, creator, false, sum, before, middle)
    requires ActionOn(middle, keys[i], creator(keys[i]), false).None?
    ensures StoppedAtKey(keys, creator, before, middle) && keys[i] in keys && RaisesFor(before, keys[i], creator)
  {
  }

  /** One round of the loop over candidates. None: it raised. */
  method CreateForNextCandidate(session: OccurrenceSession, keys: seq<Key>, i: nat, creator: Creator, dryRun: bool,
                                sum: Totals, ghost before: Tables)
    returns (next: Option<Totals>)
    requires session.working == session.stored && Matched(session.stored)
    requires i < |keys| && ThroughKeys(keys, i, creator, dryRun, sum, before, session.stored)
    modifies session
    ensures Matched(session.stored)
    ensures next.None? ==>
              && !dryRun && keys[i] in keys && RaisesFor(before, keys[i], creator)
              && StoppedAtKey(keys, creator, before, session.stored)
    ensures next.Some? ==>
              && session.working == session.stored
              && ThroughKeys(keys, i + 1, creator, dryRun, next.value, before, session.stored)
  {
    ghost var middle := session.stored;
    var action := CreateNotification(session, keys[i], creator, dryRun);
    if action.None? {
      StopsAt(keys, i, creator, sum, before, middle);
      return None;
    }
    OneMoreCandidate(keys, i, creator, dryRun, sum, before, middle, session.stored, action.value);
    return Some(Add(sum, action.value));
  }

  /** Stops, with None, at the first candidate for which the notification module raises. */
  method CreateForRule(session: OccurrenceSession, keys: seq<Key>, creator: Creator, dryRun: bool)
    returns (totals: Option<Totals>)
    requires session.working == session.stored && Matched(session.stored)
    modifies session
    ensures Matched(session.stored)
    ensures totals.None? <==> !dryRun && exists k :: k in keys && RaisesFor(old(session.stored), k, creator)
    ensures totals.None? ==> StoppedAtKey(keys, creator, old(session.stored), session.stored)
    ensures totals.Some? ==> session.working == session.stored
    ensures totals.Some? ==> Exact(totals.value, keys, old(session.stored), session.stored, dryRun)
    ensures totals.Some? && !dryRun ==> SentExactly(keys, creator, old(session.stored), session.stored)
    ensures totals.Some? && !dryRun ==> totals.value.failed == |FailedAt(keys, creator, old(session.stored))|
  {
    var sum := ZERO;
    ghost var before := session.stored;
    NothingSentYet(keys, creator, dryRun, before);
    for i := 0 to |keys|
      invariant session.working == session.stored && Matched(session.stored)
      invariant ThroughKeys(keys, i, creator, dryRun, sum, before, session.stored)
    {
      var next := CreateForNextCandidate(session, keys, i, creator, dryRun, sum, before);
      if next.None? {
        return None;
      }
      sum := next.value;
    }
    ThroughAll(keys, creator, dryRun, sum, before, session.stored);
    return Some(sum);
  }

  lemma OneMoreCandidate(keys: seq<Key>, i: nat, creator: Creator, dryRun: bool, sum: Totals,
                         before: Tables, middle: Tables, after: Tables, action: Action)
    requires i < |keys| && ThroughKeys(keys, i, creator, dryRun, sum, before, middle)
    requires ActionOn(middle, keys[i], creator(keys[i]), dryRun) == Some(action)
    requires if action.Created? then SentOne(middle, after, keys[i]) else after == middle
    ensures ThroughKeys(keys, i + 1, creator, dryRun, Add(sum, action), before, after)
  {
    TotalsStayExact(sum, keys, i, before, middle, after, dryRun, action);
    if !dryRun {
      SentStaysExact(keys, i, creator, before, middle, after);
      FailuresStayExact(keys, i, creator, before, middle, action);
      NotRaisedFor(keys[..i], creator, before, middle, keys[i]);
      OneMoreNotRaised(keys, i, creator, before);
    }
  }

  lemma FailuresStayExact(keys: seq<Key>, i: nat, creator: Creator, before: Tables, middle: Tables, action: Action)
    requires i < |keys| && SentExactly(keys[..i], creator, before, middle)
    requires ActionOn(middle, keys[i], creator(keys[i]), false) == Some(action)
    ensures |FailedAt(keys[..i + 1], creator, before)| ==
            |FailedAt(keys[..i], creator, before)| + if action.Failed? then 1 else 0
  {
    assert keys[..i + 1] == keys[..i] + [keys[i]];
    OneMoreFailedAt(keys[..i], keys[i], creator, before);
  }

  lemma OneMoreNotRaised(keys: seq<Key>, i: nat, creator: Creator, before: Tables)
    requires i < |keys| && NoneRaised(keys[..i], creator, before) && !RaisesFor(before, keys[i], creator)
    ensures NoneRaised(keys[..i + 1], creator, before)
  {
    assert keys[..i + 1] == keys[..i] + [keys[i]];
  }

  /** A candidate that went through had a reply, or its occurrence was taken. */
  lemma NotRaisedFor(sent: seq<Key>, creator: Creator, before: Tables, middle: Tables, key: Key)
    requires SentExactly(sent, creator, before, middle) && ActionOn(middle, key, creator(key), false).Some?
    ensures !RaisesFor(before, key, creator)
  {
  }

  lemma TotalsStayExact(t: Totals, keys: seq<Key>, i: nat, before: Tables, middle: Tables, after: Tables,
                        dryRun: bool, action: Action)
    requires i < |keys| && Exact(t, keys[..i], before, middle, dryRun) && (dryRun <==> action.DryRun?)
    requires if action.Created? then SentOne(middle, after, keys[i]) else after == middle
    ensures Exact(Add(t, action), keys[..i + 1], before, after, dryRun)
  {
  }

  lemma SentStaysExact(keys: seq<Key>, i: nat, creator: Creator, before: Tables, middle: Tables, after: Tables)
    requires i < |keys| && SentExactly(keys[..i], creator, before, middle)
    requires var action := ActionOn(middle, keys[i], creator(keys[i]), false);
             action.Some? && if action.value.Created? then SentOne(middle, after, keys[i]) else after == middle
    ensures SentExactly(keys[..i + 1], creator, before, after)
  {
    assert keys[..i + 1] == keys[..i] + [keys[i]];
  }

  // ---- All rules -------------------------------------------------------------------------------------

  function ReceiptKey(due: DueRule, id: nat): Key {
    Key(due.rule.campaignKey, ReceiptTarget, id, due.targetDate)
  }

  function UserKey(due: DueRule, id: nat): Key {
    Key(due.rule.campaignKey, UserTarget, id, due.targetDate)
  }

  /** What the declared rule says is due: receipts expiring at the offset, or users with matching activity. */
  ghost predicate DueKey(db: Snapshot, due: DueRule, k: Key) {
    if due.rule.kind.WarrantyReceipt? then
      due.rule.dayOffset.Some? && exists r ::
          r in X.DueReceipts(db, due, due.rule.dayOffset.value) && k == ReceiptKey(due, r.id)
    else
      R.RecentSince(due).Some?
      && exists m :: R.DueAmong(db, due, R.RecentSince(due).value, R.Registered(db, ObservationCutoff(due)), m)
          && k == UserKey(due, m.userId)
  }

  /** The rule's campaign on the target date, for a receipt or a user as the kind of the rule says. */
  predicate KeyOfRule(due: DueRule, k: Key) {
    k.campaign == due.rule.campaignKey && k.on == due.targetDate
    && (k.target.ReceiptTarget? <==> due.rule.kind.WarrantyReceipt?)
  }

  lemma DueKeyIsKeyOfRule(db: Snapshot, due: DueRule, k: Key)
    requires DueKey(db, due, k)
    ensures KeyOfRule(due, k)
  {
  }

  /** The same keys as a set, so that they can be counted. */
  ghost function DueKeys(db: Snapshot, due: DueRule): set<Key> {
    if due.rule.kind.WarrantyReceipt? then
      if due.rule.dayOffset.None? then {}
      else set r | r in X.DueReceipts(db, due, due.rule.dayOffset.value) :: ReceiptKey(due, r.id)
    else if R.RecentSince(due).None? then {}
    else
      set u | u in R.Registered(db, ObservationCutoff(due)) && R.InCadence(due, u)
              && R.ReminderFor(db, due, R.RecentSince(due).value, u.id).Some? :: UserKey(due, u.id)
  }

  lemma DueKeysAreTheDueOnes(db: Snapshot, due: DueRule)
    ensures forall k :: k in DueKeys(db, due) <==> DueKey(db, due, k)
  {
    forall k ensures k in DueKeys(db, due) <==> DueKey(db, due, k) {
      if !due.rule.kind.WarrantyReceipt? && R.RecentSince(due).Some? {
        var since := R.RecentSince(due).value;
        var users := R.Registered(db, ObservationCutoff(due));
        if k in DueKeys(db, due) {
          var u :| u in users && R.InCadence(due, u) && R.ReminderFor(db, due, since, u.id).Some?
              && k == UserKey(due, u.id);
          assert R.DueAmong(db, due, since, users, R.ReminderFor(db, due, since, u.id).value);
        }
        if DueKey(db, due, k) {
          var m :| R.DueAmong(db, due, since, users, m) && k == UserKey(due, m.userId);
          var u :| u in users && u.id == m.userId && R.InCadence(due, u)
              && R.ReminderFor(db, due, since, u.id) == Some(m);
        }
      }
    }
  }

  lemma {:induction false} DistinctLength(keys: seq<Key>, members: set<Key>)
    requires forall i, j :: 0 <= i < j < |keys| ==> keys[i] != keys[j]
    requires forall k :: k in keys <==> k in members
    ensures |keys| == |members|
  {
    if keys != [] {
      var last := keys[|keys| - 1];
      var rest := keys[..|keys| - 1];
      assert keys == rest + [last] && last !in rest;
      DistinctLength(rest, members - {last});
    } else {
      assert members == {};
    }
  }

  method KeysOfReceipts(due: DueRule, receipts: seq<StoredReceipt>) returns (keys: seq<Key>)
    ensures |keys| == |receipts| && forall i :: 0 <= i < |keys| ==> keys[i] == ReceiptKey(due, receipts[i].id)
  {
    keys := [];
    for i := 0 to |receipts|
      invariant |keys| == i && forall j :: 0 <= j < i ==> keys[j] == ReceiptKey(due, receipts[j].id)
    {
      keys := keys + [ReceiptKey(due, receipts[i].id)];
    }
  }

  method KeysOfUsers(due: DueRule, reminders: seq<R.Reminder>) returns (keys: seq<Key>)
    ensures |keys| == |reminders| && forall i :: 0 <= i < |keys| ==> keys[i] == UserKey(due, reminders[i].userId)
  {
    keys := [];
    for i := 0 to |reminders|
      invariant |keys| == i && forall j :: 0 <= j < i ==> keys[j] == UserKey(due, reminders[j].userId)
    {
      keys := keys + [UserKey(due, reminders[i].userId)];
    }
  }

  /** One candidate per due key. None: the rule lacks the lookback its kind needs, which raises. */
  method DueNotifications(db: Snapshot, due: DueRule, batchSize: nat) returns (keys: Option<seq<Key>>)
    requires Indexed(db) && batchSize >= 1
    ensures keys.None? <==> !due.rule.kind.WarrantyReceipt? && R.RecentSince(due).None?
    ensures keys.Some? ==> forall k :: k in keys.value <==> DueKey(db, due, k)
    ensures keys.Some? ==> |keys.value| == |DueKeys(db, due)|
    ensures keys.Some? ==> forall i, j :: 0 <= i < j < |keys.value| ==> keys.value[i] != keys.value[j]
    ensures keys.Some? ==> forall k :: k in keys.value ==> KeyOfRule(due, k)
  {
    DueKeysAreTheDueOnes(db, due);
    forall k | DueKey(db, due, k) ensures KeyOfRule(due, k) { DueKeyIsKeyOfRule(db, due, k); }
    if due.rule.kind.WarrantyReceipt? {
      var receipts := X.IterExpiring(db, due, batchSize);
      var found := KeysOfReceipts(due, receipts);
      if due.rule.dayOffset.Some? { X.DueReceiptsAreTheDeclaredOnes(db, due, due.rule.dayOffset.value); }
      DistinctLength(found, DueKeys(db, due));
      return Some(found);
    }
    var reminders := R.IterReminders(db, due, batchSize);
    if reminders.None? {
      return None;
    }
    var found := KeysOfUsers(due, reminders.value);
    ReminderKeysAreDue(db, due, reminders.value, found);
    DistinctLength(found, DueKeys(db, due));
    return Some(found);
  }

  lemma ReminderKeysAreDue(db: Snapshot, due: DueRule, reminders: seq<R.Reminder>, keys: seq<Key>)
    requires !due.rule.kind.WarrantyReceipt? && R.RecentSince(due).Some?
    requires R.Complete(db, due, R.RecentSince(due).value, R.Registered(db, ObservationCutoff(due)), reminders)
    requires |keys| == |reminders| && forall i :: 0 <= i < |keys| ==> keys[i] == UserKey(due, reminders[i].userId)
    ensures forall k :: k in keys <==> DueKey(db, due, k)
  {
    forall k ensures k in keys <==> DueKey(db, due, k) {
      if k in keys {
        var i :| 0 <= i < |keys| && keys[i] == k;
        assert reminders[i] in reminders;
      }
      if DueKey(db, due, k) {
        var m :| R.DueAmong(db, due, R.RecentSince(due).value, R.Registered(db, ObservationCutoff(due)), m)
            && k == UserKey(due, m.userId);
        assert m in reminders;
        var i :| 0 <= i < |reminders| && reminders[i] == m;
        assert keys[i] == k;
      }
    }
  }

  datatype Command = Command(now: int, targetDate: Option<int>, campaignKey: Option<string>, batchSize: nat,
                             dryRun: bool)

  /** The rule takes part in this run, on the day it gives. */
  function Selected(rule: Rule, command: Command): Option<DueRule> {
    if command.campaignKey.Some? && rule.campaignKey != command.campaignKey.value then None
    else ResolveDueRule(rule, command.now, command.targetDate)
  }

  ghost predicate DueInRun(db: Snapshot, rules: seq<Rule>, command: Command, k: Key) {
    exists i :: 0 <= i < |rules| && Selected(rules[i], command).Some?
        && DueKey(db, Selected(rules[i], command).value, k)
  }

  function Sum(a: Totals, b: Totals): Totals {
    Totals(a.candidates + b.candidates, a.created + b.created, a.skipped + b.skipped, a.failed + b.failed)
  }

  ghost predicate SentSoFar(db: Snapshot, rules: seq<Rule>, command: Command, creator: Creator, before: Tables,
                            after: Tables) {
    && (forall k :: k in after.occurrences <==>
          k in before.occurrences || (creator(k).Saved? && DueInRun(db, rules, command, k)))
    && forall k :: k in before.occurrences ==> after.occurrences[k] == before.occurrences[k]
  }

  /** The rule is due but lacks the lookback that its kind needs. */
  predicate Raises(rule: Rule, command: Command) {
    Selected(rule, command).Some? && rule.kind.InactiveReceipt? && rule.lookbackDays.None?
  }

  /** Due keys, counted once for every rule that makes them due. */
  ghost function CandidateCount(db: Snapshot, rules: seq<Rule>, command: Command): nat {
    if rules == [] then 0
    else
      var last := Selected(rules[|rules| - 1], command);
      CandidateCount(db, rules[..|rules| - 1], command) + if last.Some? then |DueKeys(db, last.value)| else 0
  }

  /** Due keys not taken before that the notification module finds invalid, once for every rule. */
  ghost function FailureCount(db: Snapshot, rules: seq<Rule>, command: Command, creator: Creator, before: Tables): nat {
    if rules == [] then 0
    else
      var last := Selected(rules[|rules| - 1], command);
      FailureCount(db, rules[..|rules| - 1], command, creator, before)
      + if last.Some? then |FailedKeys(DueKeys(db, last.value), creator, before)| else 0
  }

  ghost function FailedKeys(keys: set<Key>, creator: Creator, before: Tables): set<Key> {
    set k | k in keys && k !in before.occurrences && creator(k).Invalidated?
  }

  lemma {:induction false} FailedOnce(keys: seq<Key>, members: set<Key>, creator: Creator, before: Tables)
    requires forall i, j :: 0 <= i < j < |keys| ==> keys[i] != keys[j]
    requires forall k :: k in keys <==> k in members
    ensures |FailedAt(keys, creator, before)| == |FailedKeys(members, creator, before)|
  {
    if keys != [] {
      var n := |keys| - 1;
      assert keys == keys[..n] + [keys[n]] && keys[n] !in keys[..n];
      FailedOnce(keys[..n], members - {keys[n]}, creator, before);
      OneMoreFailedAt(keys[..n], keys[n], creator, before);
      OneMoreFailedKey(members, keys[n], creator, before);
    }
  }

  lemma OneMoreFailedAt(keys: seq<Key>, k: Key, creator: Creator, before: Tables)
    ensures |FailedAt(keys + [k], creator, before)| ==
            |FailedAt(keys, creator, before)| +
            if k !in before.occurrences && creator(k).Invalidated? then 1 else 0
  {
    assert FailedAt(keys + [k], creator, before) ==
           FailedAt(keys, creator, before) +
           if k !in before.occurrences && creator(k).Invalidated? then {|keys|} else {};
  }

  lemma OneMoreFailedKey(keys: set<Key>, k: Key, creator: Creator, before: Tables)
    requires k in keys
    ensures |FailedKeys(keys, creator, before)| ==
            |FailedKeys(keys - {k}, creator, before)| +
            if k !in before.occurrences && creator(k).Invalidated? then 1 else 0
  {
    assert FailedKeys(keys, creator, before) ==
           FailedKeys(keys - {k}, creator, before) +
           if k !in before.occurrences && creator(k).Invalidated? then {k} else {};
  }

  /** Sending changes nothing about which due keys fail. */
  lemma OneMoreFailing(db: Snapshot, rules: seq<Rule>, i: nat, command: Command, creator: Creator, before: Tables,
                       middle: Tables, keys: seq<Key>)
    requires i < |rules| && Selected(rules[i], command).Some?
    requires SentSoFar(db, rules[..i], command, creator, before, middle)
    requires forall a, b :: 0 <= a < b < |keys| ==> keys[a] != keys[b]
    requires forall k :: k in keys <==> k in DueKeys(db, Selected(rules[i], command).value)
    ensures FailureCount(db, rules[..i + 1], command, creator, before) ==
            FailureCount(db, rules[..i], command, creator, before) + |FailedAt(keys, creator, middle)|
  {
    assert rules[..i + 1][..i] == rules[..i];
    assert FailedAt(keys, creator, middle) == FailedAt(keys, creator, before);
    FailedOnce(keys, DueKeys(db, Selected(rules[i], command).value), creator, before);
  }

  ghost predicate SummaryExact(t: Totals, candidates: nat, before: Tables, after: Tables, dryRun: bool) {
    && t.candidates == candidates
    && (!dryRun ==> t.candidates == t.created + t.skipped + t.failed)
    && (dryRun ==> t.created == t.skipped == t.failed == 0 && after == before)
    && |after.notifications| == |before.notifications| + t.created
  }

  /** What a run has done once it is through with `rules`. */
  ghost predicate Processed(db: Snapshot, rules: seq<Rule>, command: Command, creator: Creator, before: Tables,
                            after: Tables) {
    if command.dryRun then after == before else SentSoFar(db, rules, command, creator, before, after)
  }

  /** The run is through with the first `i` rules, none of which raised. */
  ghost predicate Through(db: Snapshot, rules: seq<Rule>, i: nat, command: Command, creator: Creator,
                          totals: Totals, before: Tables, after: Tables)
    requires i <= |rules|
  {
    && (forall j :: 0 <= j < i ==> !Raises(rules[j], command))
    && SummaryExact(totals, CandidateCount(db, rules[..i], command), before, after, command.dryRun)
    && (!command.dryRun ==> totals.failed == FailureCount(db, rules[..i], command, creator, before))
    && Processed(db, rules[..i], command, creator, before, after)
  }

  /** A due occurrence that is not taken, for which the notification module raises. */
  ghost predicate CandidateRaises(db: Snapshot, due: DueRule, creator: Creator, before: Tables) {
    exists k :: DueKey(db, due, k) && RaisesFor(before, k, creator)
  }

  /** The rule itself raises, or the notification module does for one of its due occurrences. */
  ghost predicate RuleRaises(db: Snapshot, rule: Rule, command: Command, creator: Creator, before: Tables) {
    || Raises(rule, command)
    || (!command.dryRun && Selected(rule, command).Some?
        && CandidateRaises(db, Selected(rule, command).value, creator, before))
  }

  /** The due occurrences of the rule, in some order, up to one that raised, or none if the rule itself raised. */
  ghost predicate PartOfRule(db: Snapshot, rule: Rule, command: Command, creator: Creator, middle: Tables,
                             after: Tables) {
    || (Raises(rule, command) && after == middle)
    || exists keys :: StoppedAtKey(keys, creator, middle, after) && Selected(rule, command).Some?
         && forall k :: k in keys <==> DueKey(db, Selected(rule, command).value, k)
  }

  /** Rule `i` raised: what it and the rules before it committed until then stays. */
  ghost predicate StoppedAt(db: Snapshot, rules: seq<Rule>, i: nat, command: Command, creator: Creator,
                            before: Tables, after: Tables)
    requires i < |rules|
  {
    exists totals, middle ::
      Through(db, rules, i, command, creator, totals, before, middle)
      && PartOfRule(db, rules[i], command, creator, middle, after)
  }

  /** One round of the loop over rules. None: it raised. */
  method CreateForNextRule(session: OccurrenceSession, db: Snapshot, rules: seq<Rule>, i: nat, command: Command,
                           creator: Creator, totals: Totals, ghost before: Tables)
    returns (next: Option<Totals>)
    requires session.working == session.stored && Matched(session.stored) && Indexed(db) && command.batchSize >= 1
    requires i < |rules| && Through(db, rules, i, command, creator, totals, before, session.stored)
    modifies session
    ensures Matched(session.stored)
    ensures next.None? <==> RuleRaises(db, rules[i], command, creator, old(session.stored))
    ensures next.None? ==> PartOfRule(db, rules[i], command, creator, old(session.stored), session.stored)
    ensures next.Some? ==> session.working == session.stored
    ensures next.Some? ==> Through(db, rules, i + 1, command, creator, next.value, before, session.stored)
  {
    ghost var middle := session.stored;
    var due := Selected(rules[i], command);
    if due.None? {
      OneMoreLeftOut(db, rules, i, command, creator, before, middle, totals);
      return Some(totals);
    }
    var keys := DueNotifications(db, due.value, command.batchSize);
    if keys.None? {
      return None;
    }
    var added := CreateForRule(session, keys.value, creator, command.dryRun);
    assert (exists k :: k in keys.value && RaisesFor(middle, k, creator)) <==>
           CandidateRaises(db, due.value, creator, middle);
    if added.None? {
      assert StoppedAtKey(keys.value, creator, middle, session.stored);
      return None;
    }
    OneMoreThrough(db, rules, i, command, creator, before, middle, session.stored, keys.value, totals, added.value);
    return Some(Sum(totals, added.value));
  }

  lemma OneMoreThrough(db: Snapshot, rules: seq<Rule>, i: nat, command: Command, creator: Creator,
                       before: Tables, middle: Tables, after: Tables, keys: seq<Key>, totals: Totals, added: Totals)
    requires i < |rules| && Selected(rules[i], command).Some? && !Raises(rules[i], command)
    requires Through(db, rules, i, command, creator, totals, before, middle)
    requires Exact(added, keys, middle, after, command.dryRun)
    requires !command.dryRun ==> SentExactly(keys, creator, middle, after)
    requires !command.dryRun ==> added.failed == |FailedAt(keys, creator, middle)|
    requires forall k :: k in keys <==> DueKey(db, Selected(rules[i], command).value, k)
    requires forall a, b :: 0 <= a < b < |keys| ==> keys[a] != keys[b]
    requires |keys| == |DueKeys(db, Selected(rules[i], command).value)|
    ensures Through(db, rules, i + 1, command, creator, Sum(totals, added), before, after)
  {
    OneMoreProcessed(db, rules, i, command, creator, before, middle, after, keys, totals, added);
    if !command.dryRun {
      DueKeysAreTheDueOnes(db, Selected(rules[i], command).value);
      OneMoreFailing(db, rules, i, command, creator, before, middle, keys);
    }
  }

  /** Whether an occurrence that is not taken raises does not depend on what the run has sent before. */
  lemma RaisesLikeAtStart(db: Snapshot, rules: seq<Rule>, i: nat, command: Command, creator: Creator, totals: Totals,
                          before: Tables, middle: Tables)
    requires i < |rules| && Through(db, rules, i, command, creator, totals, before, middle)
    ensures RuleRaises(db, rules[i], command, creator, middle) <==>
            RuleRaises(db, rules[i], command, creator, before)
  {
    forall k ensures RaisesFor(middle, k, creator) <==> RaisesFor(before, k, creator) {
    }
  }

  /**
   * A run raises exactly when one of its rules does, or the notification module for one of its due
   * occurrences. It then stops there, and what was committed until then stays. Otherwise it sends
   * exactly the due occurrences that the notification module saves, each once, keeps every earlier one,
   * and counts every due key.
   */
  method CreateDueNotifications(session: OccurrenceSession, db: Snapshot, rules: seq<Rule>, command: Command,
                                creator: Creator)
    returns (result: Option<Totals>)
    requires session.working == session.stored && Matched(session.stored) && Indexed(db) && command.batchSize >= 1
    modifies session
    ensures session.working == session.stored && Matched(session.stored)
    ensures result.None? <==>
            exists i :: 0 <= i < |rules| && RuleRaises(db, rules[i], command, creator, old(session.stored))
    ensures result.Some? ==> Processed(db, rules, command, creator, old(session.stored), session.stored)
    ensures result.Some? ==>
              SummaryExact(result.value, CandidateCount(db, rules, command), old(session.stored), session.stored,
                           command.dryRun)
    ensures result.Some? && !command.dryRun ==>
              result.value.failed == FailureCount(db, rules, command, creator, old(session.stored))
    ensures result.None? ==>
              exists i :: 0 <= i < |rules|
                  && StoppedAt(db, rules, i, command, creator, old(session.stored), session.stored)
  {
    var totals := ZERO;
    ghost var before := session.stored;
    for i := 0 to |rules|
      invariant session.working == session.stored && Matched(session.stored)
      invariant Through(db, rules, i, command, creator, totals, before, session.stored)
      invariant forall j :: 0 <= j < i ==> !RuleRaises(db, rules[j], command, creator, before)
    {
      RaisesLikeAtStart(db, rules, i, command, creator, totals, before, session.stored);
      var next := CreateForNextRule(session, db, rules, i, command, creator, totals, before);
      if next.None? {
        assert StoppedAt(db, rules, i, command, creator, before, session.stored);
        session.Rollback();
        return None;
      }
      totals := next.value;
    }
    assert rules[..|rules|] == rules;
    return Some(totals);
  }

  /**
   * Validation does not keep rules from raising: an inactivity rule needs a repeat interval and consent,
   * but no lookback. On any run without a campaign filter or an earlier day such a rule may be the one.
   */
  lemma AValidatedRuleRaises(blank: char -> bool, command: Command)
    requires !blank('a') && command.campaignKey.None? && command.targetDate.None?
    ensures exists rule :: Validated(blank, rule) && Raises(rule, command)
  {
    var rule := Rule("a", true, InactiveReceipt, None, None, Some(1), None, 0, true, "a", "a");
    assert Validated(blank, rule) && Raises(rule, command);
  }

  lemma DueInOneMore(db: Snapshot, rules: seq<Rule>, i: nat, command: Command, k: Key)
    requires i < |rules|
    ensures DueInRun(db, rules[..i + 1], command, k) <==>
            DueInRun(db, rules[..i], command, k) ||
                (Selected(rules[i], command).Some? && DueKey(db, Selected(rules[i], command).value, k))
  {
    if DueInRun(db, rules[..i], command, k) {
      var j :| 0 <= j < i && Selected(rules[..i][j], command).Some?
          && DueKey(db, Selected(rules[..i][j], command).value, k);
      assert rules[..i + 1][j] == rules[..i][j];
    }
    if Selected(rules[i], command).Some? && DueKey(db, Selected(rules[i], command).value, k) {
      assert rules[..i + 1][i] == rules[i];
    }
    if DueInRun(db, rules[..i + 1], command, k) {
      var j :| 0 <= j < i + 1 && Selected(rules[..i + 1][j], command).Some?
          && DueKey(db, Selected(rules[..i + 1][j], command).value, k);
      if j < i { assert rules[..i][j] == rules[..i + 1][j]; }
    }
  }

  lemma OneMoreProcessed(db: Snapshot, rules: seq<Rule>, i: nat, command: Command, creator: Creator,
                         before: Tables, middle: Tables, after: Tables, keys: seq<Key>, totals: Totals, added: Totals)
    requires i < |rules| && Selected(rules[i], command).Some?
    requires SummaryExact(totals, CandidateCount(db, rules[..i], command), before, middle, command.dryRun)
    requires Processed(db, rules[..i], command, creator, before, middle)
    requires Exact(added, keys, middle, after, command.dryRun)
    requires !command.dryRun ==> SentExactly(keys, creator, middle, after)
    requires forall k :: k in keys <==> DueKey(db, Selected(rules[i], command).value, k)
    requires |keys| == |DueKeys(db, Selected(rules[i], command).value)|
    ensures SummaryExact(Sum(totals, added), CandidateCount(db, rules[..i + 1], command), before, after, command.dryRun)
    ensures Processed(db, rules[..i + 1], command, creator, before, after)
  {
    assert rules[..i + 1][..i] == rules[..i];
    if !command.dryRun { RuleExtendsRun(db, rules, i, command, creator, before, middle, after, keys); }
  }

  lemma OneMoreLeftOut(db: Snapshot, rules: seq<Rule>, i: nat, command: Command, creator: Creator,
                       before: Tables, after: Tables, totals: Totals)
    requires i < |rules| && Selected(rules[i], command).None?
    requires SummaryExact(totals, CandidateCount(db, rules[..i], command), before, after, command.dryRun)
    requires Processed(db, rules[..i], command, creator, before, after)
    ensures FailureCount(db, rules[..i + 1], command, creator, before) ==
            FailureCount(db, rules[..i], command, creator, before)
    ensures SummaryExact(totals, CandidateCount(db, rules[..i + 1], command), before, after, command.dryRun)
    ensures Processed(db, rules[..i + 1], command, creator, before, after)
  {
    assert rules[..i + 1][..i] == rules[..i];
    RuleLeftOut(db, rules, i, command);
  }

  lemma RuleLeftOut(db: Snapshot, rules: seq<Rule>, i: nat, command: Command)
    requires i < |rules| && Selected(rules[i], command).None?
    ensures forall k :: DueInRun(db, rules[..i + 1], command, k) <==> DueInRun(db, rules[..i], command, k)
  {
    forall k ensures DueInRun(db, rules[..i + 1], command, k) <==> DueInRun(db, rules[..i], command, k) {
      DueInOneMore(db, rules, i, command, k);
    }
  }

  lemma RuleExtendsRun(db: Snapshot, rules: seq<Rule>, i: nat, command: Command, creator: Creator,
                       before: Tables, middle: Tables, after: Tables, keys: seq<Key>)
    requires i < |rules| && Selected(rules[i], command).Some?
    requires SentSoFar(db, rules[..i], command, creator, before, middle) && SentExactly(keys, creator, middle, after)
    requires forall k :: k in keys <==> DueKey(db, Selected(rules[i], command).value, k)
    ensures SentSoFar(db, rules[..i + 1], command, creator, before, after)
  {
    forall k ensures k in after.occurrences <==>
        k in before.occurrences || (creator(k).Saved? && DueInRun(db, rules[..i + 1], command, k)) {
      SentByOneMore(db, rules, i, command, creator, before, middle, after, keys, k);
    }
  }

  lemma SentByOneMore(db: Snapshot, rules: seq<Rule>, i: nat, command: Command, creator: Creator,
                      before: Tables, middle: Tables, after: Tables, keys: seq<Key>, k: Key)
    requires i < |rules| && Selected(rules[i], command).Some?
    requires k in middle.occurrences <==>
             k in before.occurrences || (creator(k).Saved? && DueInRun(db, rules[..i], command, k))
    requires k in after.occurrences <==> k in middle.occurrences || (k in keys && creator(k).Saved?)
    requires k in keys <==> DueKey(db, Selected(rules[i], command).value, k)
    ensures k in after.occurrences <==>
            k in before.occurrences || (creator(k).Saved? && DueInRun(db, rules[..i + 1], command, k))
  {
    DueInOneMore(db, rules, i, command, k);
  }

  /**
   * Running again with the same answers, in batches of any size, finds nothing left to send, even if
   * users have deleted notifications in between.
   */
  lemma SecondRunSendsNothing(db: Snapshot, rules: seq<Rule>, command: Command, again: Command, creator: Creator,
                              a: Tables, b: Tables, deleted: set<NotificationId>, c: Tables)
    requires again == command.(batchSize := again.batchSize)
    requires SentSoFar(db, rules, command, creator, a, b)
    requires SentSoFar(db, rules, again, creator, b.(notifications := b.notifications - deleted), c)
    ensures c.occurrences == b.occurrences
  {
    forall k ensures k in c.occurrences <==> k in b.occurrences {
      if DueInRun(db, rules, again, k) {
        var i :| 0 <= i < |rules| && Selected(rules[i], again).Some? && DueKey(db, Selected(rules[i], again).value, k);
        assert Selected(rules[i], command) == Selected(rules[i], again);
        assert DueInRun(db, rules, command, k);
      }
    }
  }
}
