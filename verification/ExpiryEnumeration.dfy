/** Who gets a warranty notification: the cursor loop over expiring receipts. */
module ExpiryEnumeration {
  import opened Prelude
  import opened ScheduleRules
  import opened DueSnapshot
  import opened OrderedRows

  predicate ExpiresOnTarget(due: DueRule, offset: nat, r: StoredReceipt) {
    r.expiresOn == due.targetDate + offset && r.createdAt < ObservationCutoff(due)
  }

  function ExpiringReceiptsPage(db: Snapshot, due: DueRule, offset: nat, limit: nat,
                                cursor: Option<nat>): Page<StoredReceipt> {
    Cut(Take(Filter(db.receipts, r => ExpiresOnTarget(due, offset, r) && (cursor.None? || r.id > cursor.value)),
             limit + 1), limit)
  }

  function Expiring(db: Snapshot, due: DueRule, offset: nat): seq<StoredReceipt> {
    Filter(db.receipts, r => ExpiresOnTarget(due, offset, r))
  }

  predicate UserExists(db: Snapshot, userId: nat) {
    exists i :: 0 <= i < |db.users| && db.users[i].id == userId
  }

  lemma ExpiringPageAt(db: Snapshot, due: DueRule, offset: nat, limit: nat, cursor: Option<nat>, i: nat)
    requires Indexed(db) && i <= |Expiring(db, due, offset)| && limit >= 1
    requires cursor == if i == 0 then None else Some(Expiring(db, due, offset)[i - 1].id)
    ensures Covers(Expiring(db, due, offset), i, ExpiringReceiptsPage(db, due, offset, limit, cursor))
  {
    var all := Expiring(db, due, offset);
    var past := (r: StoredReceipt) => cursor.None? || r.id > cursor.value;
    FilterTwice(db.receipts, r => ExpiresOnTarget(due, offset, r), past,
                r => ExpiresOnTarget(due, offset, r) && (cursor.None? || r.id > cursor.value));
    FilterKeepsOrder(db.receipts, r => ExpiresOnTarget(due, offset, r),
                     (a: StoredReceipt, b: StoredReceipt) => a.id < b.id);
    assert forall k :: 0 <= k < |all| ==> (past(all[k]) <==> k >= i);
    PastCursor(all, i, past);
    CutCovers(all, i, limit);
  }

  function OfExistingUser(db: Snapshot): StoredReceipt -> bool {
    (r: StoredReceipt) => UserExists(db, r.userId)
  }

  method KeepExisting(db: Snapshot, rows: seq<StoredReceipt>) returns (kept: seq<StoredReceipt>)
    ensures kept == Filter(rows, OfExistingUser(db))
  {
    kept := [];
    for k := 0 to |rows|
      invariant kept == Filter(rows[..k], OfExistingUser(db))
    {
      assert rows[..k + 1] == rows[..k] + [rows[k]];
      FilterConcat(rows[..k], [rows[k]], OfExistingUser(db));
      if UserExists(db, rows[k].userId) {
        kept := kept + [rows[k]];
      }
    }
    assert rows[..|rows|] == rows;
  }

  /** The receipts that get a candidate: due on the target day and of a user that still exists. */
  function DueReceipts(db: Snapshot, due: DueRule, offset: nat): seq<StoredReceipt> {
    Filter(Expiring(db, due, offset), OfExistingUser(db))
  }

  /** `i` rows of the expiring receipts are behind the cursor. */
  ghost predicate CursorAt(db: Snapshot, due: DueRule, offset: nat, cursor: Option<nat>, i: nat) {
    && i <= |Expiring(db, due, offset)|
    && cursor == if i == 0 then None else Some(Expiring(db, due, offset)[i - 1].id)
  }

  function DueAmongFirst(db: Snapshot, due: DueRule, offset: nat, i: nat): seq<StoredReceipt>
    requires i <= |Expiring(db, due, offset)|
  {
    Filter(Expiring(db, due, offset)[..i], OfExistingUser(db))
  }

  lemma ExpiringPageStep(db: Snapshot, due: DueRule, offset: nat, limit: nat, cursor: Option<nat>, i: nat)
    requires Indexed(db) && CursorAt(db, due, offset, cursor, i) && limit >= 1
    ensures var page := ExpiringReceiptsPage(db, due, offset, limit, cursor);
            var j := i + |page.rows|;
            && j <= |Expiring(db, due, offset)|
            && DueAmongFirst(db, due, offset, j) == DueAmongFirst(db, due, offset, i) +
                Filter(page.rows, OfExistingUser(db))
            && (!page.hasNext ==> DueAmongFirst(db, due, offset, j) == DueReceipts(db, due, offset))
            && (page.hasNext ==> j > i && page.next.Some? && CursorAt(db, due, offset, Some(page.next.value.id), j))
  {
    var all, page := Expiring(db, due, offset), ExpiringReceiptsPage(db, due, offset, limit, cursor);
    ExpiringPageAt(db, due, offset, limit, cursor, i);
    CoveredFilter(all, i, page, OfExistingUser(db));
  }

  /** The loop is at row `i`, and has yielded what comes before. */
  ghost predicate Reached(db: Snapshot, due: DueRule, offset: nat, cursor: Option<nat>, i: nat,
                          yielded: seq<StoredReceipt>) {
    CursorAt(db, due, offset, cursor, i) && yielded == DueAmongFirst(db, due, offset, i)
  }

  /** One request for a page of expiring receipts. */
  method FetchExpiring(db: Snapshot, due: DueRule, offset: nat, limit: nat, cursor: Option<nat>, ghost i: nat,
                       ghost before: seq<StoredReceipt>)
    returns (page: Page<StoredReceipt>)
    requires Indexed(db) && limit >= 1 && Reached(db, due, offset, cursor, i, before)
    ensures i + |page.rows| <= |Expiring(db, due, offset)|
    ensures var now := before + Filter(page.rows, OfExistingUser(db));
            && (!page.hasNext ==> now == DueReceipts(db, due, offset))
            && (page.hasNext ==> page.next.Some? && page.rows != [])
            && (page.hasNext ==> Reached(db, due, offset, Some(page.next.value.id), i + |page.rows|, now))
  {
    ExpiringPageStep(db, due, offset, limit, cursor, i);
    page := ExpiringReceiptsPage(db, due, offset, limit, cursor);
  }

  /**
   * The loop over expiring receipts, which skips receipts of users that no longer exist. Whatever the
   * batch size, it yields the declared receipts once each, in id order; a page with a successor always
   * carries the cursor.
   */
  method IterExpiring(db: Snapshot, due: DueRule, batchSize: nat) returns (yielded: seq<StoredReceipt>)
    requires Indexed(db) && batchSize >= 1
    ensures yielded == if due.rule.dayOffset.None? then [] else DueReceipts(db, due, due.rule.dayOffset.value)
  {
    yielded := [];
    if due.rule.dayOffset.None? {
      return;
    }
    var offset := due.rule.dayOffset.value;
    ghost var i := 0;
    var cursor: Option<nat> := None;
    while true
      invariant Reached(db, due, offset, cursor, i, yielded)
      decreases |Expiring(db, due, offset)| - i
    {
      var page := FetchExpiring(db, due, offset, batchSize, cursor, i, yielded);
      var kept := KeepExisting(db, page.rows);
      yielded := yielded + kept;
      i := i + |page.rows|;
      if !page.hasNext {
        return;
      }
      if page.next.None? {
        assert false;
      }
      cursor := Some(page.next.value.id);
    }
  }

  /** Exactly the due receipts of existing users, each once, in id order. */
  lemma DueReceiptsAreTheDeclaredOnes(db: Snapshot, due: DueRule, offset: nat)
    requires Indexed(db)
    ensures forall r :: r in DueReceipts(db, due, offset) <==>
                        r in db.receipts && ExpiresOnTarget(due, offset, r) && UserExists(db, r.userId)
    ensures forall i, j :: 0 <= i < j < |DueReceipts(db, due, offset)| ==>
                             DueReceipts(db, due, offset)[i].id < DueReceipts(db, due, offset)[j].id
  {
    forall r ensures r in DueReceipts(db, due, offset) <==>
                     r in db.receipts && ExpiresOnTarget(due, offset, r) && UserExists(db, r.userId)
    {
      FilterMembers(db.receipts, r => ExpiresOnTarget(due, offset, r), r);
      FilterMembers(Expiring(db, due, offset), OfExistingUser(db), r);
    }
    var byId := (a: StoredReceipt, b: StoredReceipt) => a.id < b.id;
    FilterKeepsOrder(db.receipts, r => ExpiresOnTarget(due, offset, r), byId);
    FilterKeepsOrder(Expiring(db, due, offset), OfExistingUser(db), byId);
  }
}
