/**
 * What is due on a day, said by the columns of users, receipts and rules alone, and what that means for
 * whole runs: which occurrences a run sends, and that runs for different days do not get in each other's way.
 */
module SchedulerDueDays {
  import opened Prelude
  import opened ScheduleRules
  import opened DueSnapshot
  import opened OrderedRows
  import opened SchedulerProtocol
  import opened SchedulerUseCase
  import X = ExpiryEnumeration
  import R = ReminderEnumeration

  // ---- What is due ---------------------------------------------------------------------------------------

  /** The first delay counts, without it the lookback, and without both a member is due at once. */
  predicate StartsAt(rule: Rule, first: nat) {
    && (rule.firstDelayDays.Some? ==> first == rule.firstDelayDays.value)
    && (rule.firstDelayDays.None? && rule.lookbackDays.Some? ==> first == rule.lookbackDays.value)
    && (rule.firstDelayDays.None? && rule.lookbackDays.None? ==> first == 0)
  }

  predicate RepeatsEvery(rule: Rule, interval: nat) {
    if rule.repeatIntervalDays.Some? then interval == rule.repeatIntervalDays.value else interval == 0
  }

  ghost predicate OnCadence(rule: Rule, days: int) {
    exists first: nat, interval: nat, n: nat ::
      NthDay(first, interval, n, days) && StartsAt(rule, first) && RepeatsEvery(rule, interval)
  }

  /** The receipt was there by the send time of the day. */
  predicate SeenBy(rule: Rule, day: int, createdAt: int) {
    createdAt < day * DAY + rule.sendTime
  }

  /** Unregistered: no receipt was seen. Inactive: some were, but none since the lookback began. */
  ghost predicate ActivityFits(db: Snapshot, rule: Rule, day: int, userId: nat) {
    match rule.kind
    case AllUser => true
    case WarrantyReceipt => false
    case UnregisteredReceipt =>
      forall r :: r in db.receipts && r.userId == userId ==> !SeenBy(rule, day, r.createdAt)
    case InactiveReceipt =>
      && rule.lookbackDays.Some?
      && (exists r :: r in db.receipts && r.userId == userId && SeenBy(rule, day, r.createdAt))
      && forall r :: r in db.receipts && r.userId == userId && SeenBy(rule, day, r.createdAt) ==>
           r.createdAt < (day - rule.lookbackDays.value) * DAY
  }

  ghost predicate ReceiptFits(db: Snapshot, rule: Rule, day: int, r: StoredReceipt) {
    && rule.dayOffset.Some? && r.expiresOn == day + rule.dayOffset.value
    && SeenBy(rule, day, r.createdAt) && exists u :: u in db.users && u.id == r.userId
  }

  ghost predicate ReceiptDue(db: Snapshot, rule: Rule, day: int, receiptId: nat) {
    exists r :: r in db.receipts && r.id == receiptId && ReceiptFits(db, rule, day, r)
  }

  ghost predicate UserDue(db: Snapshot, rule: Rule, day: int, userId: nat) {
    exists u :: u in db.users && u.id == userId && SeenBy(rule, day, u.createdAt)
        && OnCadence(rule, day - u.createdAt / DAY) && ActivityFits(db, rule, day, u.id)
  }

  /** The occurrence is due under the rule on the day. */
  ghost predicate DueByColumns(db: Snapshot, rule: Rule, day: int, k: Key) {
    && k.campaign == rule.campaignKey && k.on == day
    && if rule.kind.WarrantyReceipt? then k.target.ReceiptTarget? && ReceiptDue(db, rule, day, k.targetId)
       else k.target.UserTarget? && UserDue(db, rule, day, k.targetId)
  }

  lemma CadenceByColumns(rule: Rule, days: int)
    ensures MatchesJoinCadence(rule, days) <==> OnCadence(rule, days)
  {
    CadenceIsAnArithmeticProgression(rule, days);
    assert StartsAt(rule, FirstDueDay(rule)) && RepeatsEvery(rule, Interval(rule));
    if n :| 0 <= n && NthDay(FirstDueDay(rule), Interval(rule), n, days) {
      var times: nat := n;
      assert NthDay(FirstDueDay(rule), Interval(rule), times, days);
    }
  }

  lemma UserExistsByColumns(db: Snapshot, userId: nat)
    ensures X.UserExists(db, userId) <==> exists u :: u in db.users && u.id == userId
  {
    if X.UserExists(db, userId) {
      var i :| 0 <= i < |db.users| && db.users[i].id == userId;
      assert db.users[i] in db.users;
    }
  }

  lemma ReceiptByColumns(db: Snapshot, due: DueRule, r: StoredReceipt)
    requires Indexed(db) && due.rule.dayOffset.Some?
    ensures r in X.DueReceipts(db, due, due.rule.dayOffset.value) <==>
            r in db.receipts && ReceiptFits(db, due.rule, due.targetDate, r)
  {
    X.DueReceiptsAreTheDeclaredOnes(db, due, due.rule.dayOffset.value);
    UserExistsByColumns(db, r.userId);
  }

  lemma ReceiptsByColumns(db: Snapshot, due: DueRule, k: Key)
    requires Indexed(db) && due.rule.kind.WarrantyReceipt?
    ensures DueKey(db, due, k) <==> DueByColumns(db, due.rule, due.targetDate, k)
  {
    if due.rule.dayOffset.Some? {
      forall r: StoredReceipt
        ensures r in X.DueReceipts(db, due, due.rule.dayOffset.value) <==>
                r in db.receipts && ReceiptFits(db, due.rule, due.targetDate, r)
      {
        ReceiptByColumns(db, due, r);
      }
      if DueByColumns(db, due.rule, due.targetDate, k) {
        var r :| r in db.receipts && r.id == k.targetId && ReceiptFits(db, due.rule, due.targetDate, r);
        assert k == ReceiptKey(due, r.id);
      }
    }
  }

  lemma ReminderByColumns(db: Snapshot, due: DueRule, userId: nat)
    requires R.RecentSince(due).Some?
    ensures R.ReminderFor(db, due, R.RecentSince(due).value, userId).Some? <==>
            ActivityFits(db, due.rule, due.targetDate, userId)
  {
    R.ReminderForMeansTheDeclaredRule(db, due, userId);
    forall r: StoredReceipt
      ensures R.Observed(r, userId, ObservationCutoff(due)) <==>
              r.userId == userId && SeenBy(due.rule, due.targetDate, r.createdAt)
    {
    }
  }

  lemma UsersByColumns(db: Snapshot, due: DueRule, k: Key)
    requires !due.rule.kind.WarrantyReceipt?
    ensures DueKey(db, due, k) <==> DueByColumns(db, due.rule, due.targetDate, k)
  {
    if R.RecentSince(due).Some? {
      var since, cutoff := R.RecentSince(due).value, ObservationCutoff(due);
      DueKeysAreTheDueOnes(db, due);
      forall u: User
        ensures u in R.Registered(db, cutoff) <==> u in db.users && SeenBy(due.rule, due.targetDate, u.createdAt)
        ensures R.InCadence(due, u) <==> OnCadence(due.rule, due.targetDate - u.createdAt / DAY)
        ensures R.ReminderFor(db, due, since, u.id).Some? <==> ActivityFits(db, due.rule, due.targetDate, u.id)
      {
        FilterMembers(db.users, R.RegisteredBefore(cutoff), u);
        CadenceByColumns(due.rule, due.targetDate - u.createdAt / DAY);
        ReminderByColumns(db, due, u.id);
      }
    }
  }

  /** The keys that a rule makes due are exactly those that the columns of the snapshot say. */
  lemma DueKeysByColumns(db: Snapshot, due: DueRule, k: Key)
    requires Indexed(db)
    ensures DueKey(db, due, k) <==> DueByColumns(db, due.rule, due.targetDate, k)
  {
    if due.rule.kind.WarrantyReceipt? {
      ReceiptsByColumns(db, due, k);
    } else {
      UsersByColumns(db, due, k);
    }
  }

  // ---- What a run sends --------------------------------------------------------------------------------------

  /** The day that a run is for. */
  function DayOf(command: Command): int {
    match command.targetDate
    case Some(day) => day
    case None => command.now / DAY
  }

  /** The rule takes part in the run: enabled, of the campaign asked for, and its send time has come. */
  predicate TakesPart(rule: Rule, command: Command) {
    && (command.campaignKey.None? || command.campaignKey == Some(rule.campaignKey))
    && rule.enabled && DayOf(command) * DAY + rule.sendTime <= command.now
  }

  lemma SelectedByColumns(rule: Rule, command: Command)
    requires Timed(rule)
    ensures Selected(rule, command) ==
            if TakesPart(rule, command) then Some(DueRule(rule, DayOf(command))) else None
  {
    DueMeansCutoffHasPassed(rule, command.now, command.targetDate);
  }

  ghost predicate DueInRunByColumns(db: Snapshot, rules: seq<Rule>, command: Command, k: Key) {
    exists i :: 0 <= i < |rules| && TakesPart(rules[i], command) && DueByColumns(db, rules[i], DayOf(command), k)
  }

  ghost predicate AllTimed(rules: seq<Rule>) {
    forall i :: 0 <= i < |rules| ==> Timed(rules[i])
  }

  lemma RunByColumns(db: Snapshot, rules: seq<Rule>, command: Command, k: Key)
    requires Indexed(db) && AllTimed(rules)
    ensures DueInRun(db, rules, command, k) <==> DueInRunByColumns(db, rules, command, k)
  {
    forall i | 0 <= i < |rules|
      ensures (Selected(rules[i], command).Some? && DueKey(db, Selected(rules[i], command).value, k)) <==>
              TakesPart(rules[i], command) && DueByColumns(db, rules[i], DayOf(command), k)
    {
      SelectedByColumns(rules[i], command);
      DueKeysByColumns(db, DueRule(rules[i], DayOf(command)), k);
    }
  }

  /** A completed run sends exactly the occurrences that are due on its day and that the module saves. */
  lemma RunSendsWhatIsDue(db: Snapshot, rules: seq<Rule>, command: Command, creator: Creator, a: Tables, b: Tables,
                          k: Key)
    requires Indexed(db) && AllTimed(rules) && !command.dryRun && Processed(db, rules, command, creator, a, b)
    ensures k in b.occurrences <==>
            k in a.occurrences || (creator(k).Saved? && DueInRunByColumns(db, rules, command, k))
  {
    RunByColumns(db, rules, command, k);
  }

  /** Runs for different days share no occurrence. */
  lemma DaysShareNoOccurrence(db: Snapshot, rules: seq<Rule>, command: Command, db': Snapshot, rules': seq<Rule>,
                              command': Command, k: Key)
    requires DueInRunByColumns(db, rules, command, k) && DueInRunByColumns(db', rules', command', k)
    ensures DayOf(command) == DayOf(command') == k.on
  {
  }

  /**
   * What was sent on one day never keeps what is due on another from being sent: whatever the runs in
   * question read, and whatever users deleted in between, an occurrence due in the second run is there
   * afterwards exactly if it was there before both runs or the module saves it now.
   */
  lemma AnotherDayIsSentToo(db: Snapshot, rules: seq<Rule>, command: Command, creator: Creator, a: Tables, b: Tables,
                            deleted: set<NotificationId>, db': Snapshot, rules': seq<Rule>, command': Command,
                            creator': Creator, c: Tables, k: Key)
    requires Indexed(db) && Indexed(db') && AllTimed(rules) && AllTimed(rules')
    requires !command.dryRun && Processed(db, rules, command, creator, a, b)
    requires !command'.dryRun
    requires Processed(db', rules', command', creator', b.(notifications := b.notifications - deleted), c)
    requires DayOf(command) != DayOf(command') && DueInRunByColumns(db', rules', command', k)
    ensures k in c.occurrences <==> k in a.occurrences || creator'(k).Saved?
  {
    RunSendsWhatIsDue(db, rules, command, creator, a, b, k);
    RunSendsWhatIsDue(db', rules', command', creator', b.(notifications := b.notifications - deleted), c, k);
    if DueInRunByColumns(db, rules, command, k) {
      DaysShareNoOccurrence(db, rules, command, db', rules', command', k);
    }
  }
}
