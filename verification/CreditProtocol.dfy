/**
 * Racing grants and reserve-then-finalize usages over one credit database. A transaction reads,
 * locks, computes, flushes and commits in separate steps; other transactions run in between. Row locks
 * follow from how far a transaction has got, and the unique indexes act when rows are flushed.
 */
module CreditProtocol {
  import opened Prelude
  import opened RedemptionKeys
  import opened CreditLedger

  type TxnId = nat

  datatype Work =
    | GrantWork(user: UserId, amount: nat, key: Option<Key>, source: Option<Source>)
    | UseWork(user: UserId, amount: nat)

  /**
   * `seen` is what the locking read returned. `insert` is whether the save, which looks the row up
   * once more, found no row; `next` is the balance it writes.
   */
  datatype Phase =
    | Started
    | Replayed
    | Checked
    | Locked(seen: Option<Balance>)
    | Saved(seen: Option<Balance>, insert: bool, next: Balance)
    | Flushed(seen: Option<Balance>, insert: bool, next: Balance)

  datatype Txn = Txn(work: Work, phase: Phase)

  datatype State = State(balances: map<UserId, Balance>, ledger: seq<Entry>, open: map<TxnId, Txn>)

  datatype Step =
    | Begin(t: TxnId, work: Work)
    | Check(t: TxnId)
    | Lock(t: TxnId)
    | Save(t: TxnId)
    | Flush(t: TxnId)
    | Commit(t: TxnId)
    | Abort(t: TxnId)
    | DeleteUser(user: UserId)

  function EntryOf(w: Work): Entry {
    match w
    case GrantWork(user, amount, key, source) => Entry(user, Grant, amount, key, source)
    case UseWork(user, amount) => Entry(user, Use, amount, None, None)
  }

  function Lookup(balances: map<UserId, Balance>, user: UserId): Option<Balance> {
    if user in balances then Some(balances[user]) else None
  }

  function OrEmpty(b: Option<Balance>): Balance {
    if b.Some? then b.value else EMPTY
  }

  /** The balance after the work, or None when the user cannot cover it. */
  function Outcome(w: Work, seen: Option<Balance>): Option<Balance> {
    Applied(OrEmpty(seen), EntryOf(w).action, w.amount)
  }

  /** What one more entry does to the balances the ledger stands for. */
  lemma EntryMovesOneBalance(ledger: seq<Entry>, w: Work, o: UserId)
    requires o == w.user ==> Outcome(w, Some(LedgerBalance(ledger, o))).Some?
    ensures LedgerBalance(ledger + [EntryOf(w)], o) ==
            if o == w.user then Outcome(w, Some(LedgerBalance(ledger, o))).value else LedgerBalance(ledger, o)
  {
    TotalAppend(ledger, EntryOf(w), o, Grant);
    TotalAppend(ledger, EntryOf(w), o, Use);
  }

  /** A locking read keeps the row locked only if it found one; a flushed update locks its row. */
  predicate HoldsRow(txn: Txn, user: UserId) {
    txn.work.user == user &&
    match txn.phase
    case Locked(seen) => seen.Some?
    case Saved(seen, _, _) => seen.Some?
    case Flushed(seen, insert, _) => seen.Some? || !insert
    case _ => false
  }

  predicate RowFree(s: State, t: TxnId, user: UserId) {
    forall o :: o in s.open && o != t ==> !HoldsRow(s.open[o], user)
  }

  predicate HasEntry(ledger: seq<Entry>, e: Entry) {
    exists i :: 0 <= i < |ledger| && SameIdentity(ledger[i], e)
  }

  /** A flush waits for other transactions' flushed rows that its own rows collide with. */
  predicate MustWait(s: State, t: TxnId)
    requires t in s.open && s.open[t].phase.Saved?
  {
    var txn := s.open[t];
    || (!txn.phase.insert && !RowFree(s, t, txn.work.user))
    || exists o :: o in s.open && o != t && s.open[o].phase.Flushed?
         && ((txn.phase.insert && s.open[o].phase.insert && s.open[o].work.user == txn.work.user)
             || SameIdentity(EntryOf(s.open[o].work), EntryOf(txn.work)))
  }

  /** A primary-key or unique-index violation, or an update whose row is gone. */
  predicate FlushFails(s: State, t: TxnId)
    requires t in s.open && s.open[t].phase.Saved?
  {
    var txn := s.open[t];
    (txn.phase.insert <==> txn.work.user in s.balances) || HasEntry(s.ledger, EntryOf(txn.work))
  }

  /** The save found no row, and another transaction has committed the user's first one since. */
  predicate FirstRowLost(s: State, t: TxnId) {
    t in s.open && s.open[t].phase.Saved? && s.open[t].phase.insert && s.open[t].work.user in s.balances
  }

  /** The save found a row, and the user's account has been deleted since: the update fails and raises. */
  predicate RowGone(s: State, t: TxnId) {
    t in s.open && s.open[t].phase.Saved? && !s.open[t].phase.insert && s.open[t].work.user !in s.balances
  }

  predicate Enabled(s: State, step: Step) {
    match step
    case Begin(t, work) => t !in s.open && work.amount >= 1
    case Check(t) => t in s.open && s.open[t].phase.Started?
    case Lock(t) => t in s.open && s.open[t].phase.Checked? && RowFree(s, t, s.open[t].work.user)
    case Save(t) => t in s.open && s.open[t].phase.Locked?
    case Flush(t) => t in s.open && s.open[t].phase.Saved? && !MustWait(s, t)
    case Commit(t) => t in s.open && (s.open[t].phase.Flushed? || s.open[t].phase.Replayed?)
    case Abort(t) => t in s.open
    case DeleteUser(user) => forall o :: o in s.open ==> !HoldsRow(s.open[o], user)
  }

  function At(s: State, t: TxnId, phase: Phase): State
    requires t in s.open
  {
    s.(open := s.open[t := s.open[t].(phase := phase)])
  }

  /** The session is rolled back: none of the transaction's rows remain. */
  function RolledBack(s: State, t: TxnId): State {
    s.(open := s.open - {t})
  }

  function Next(s: State, step: Step): State
    requires Enabled(s, step)
  {
    match step
    case Begin(t, work) => s.(open := s.open[t := Txn(work, if work.GrantWork? then Started else Checked)])
    case Check(t) => At(s, t, if HasEntry(s.ledger, EntryOf(s.open[t].work)) then Replayed else Checked)
    case Lock(t) => At(s, t, Locked(Lookup(s.balances, s.open[t].work.user)))
    case Save(t) =>
      var txn := s.open[t];
      var next := Outcome(txn.work, txn.phase.seen);
      if next.None? then RolledBack(s, t)
      else At(s, t, Saved(txn.phase.seen, txn.work.user !in s.balances, next.value))
    case Flush(t) =>
      var phase := s.open[t].phase;
      if FlushFails(s, t) then RolledBack(s, t) else At(s, t, Flushed(phase.seen, phase.insert, phase.next))
    case Commit(t) =>
      var txn := s.open[t];
      if txn.phase.Replayed? then RolledBack(s, t)
      else State(s.balances[txn.work.user := txn.phase.next], s.ledger + [EntryOf(txn.work)], s.open - {t})
    case Abort(t) => RolledBack(s, t)
    case DeleteUser(user) => s.(balances := s.balances - {user}, ledger := Without(s.ledger, user))
  }

  predicate Init(s: State) {
    s == State(map[], [], map[])
  }

  ghost predicate Run(states: seq<State>, steps: seq<Step>) {
    && |states| == |steps| + 1
    && Init(states[0])
    && forall i {:trigger steps[i]} :: 0 <= i < |steps| ==>
        Enabled(states[i], steps[i]) && states[i + 1] == Next(states[i], steps[i])
  }

  // ---- The invariant --------------------------------------------------------------------------------

  ghost predicate Rows(s: State) {
    && (forall u :: u in s.balances ==> Consistent(s.balances[u]) && s.balances[u].total >= 1)
    && (forall i :: 0 <= i < |s.ledger| ==> s.ledger[i].amount >= 1)
  }

  /** What a transaction has read and computed still agrees with the rows it has locked. */
  ghost predicate InStep(s: State, txn: Txn) {
    && txn.work.amount >= 1
    && (match txn.phase
        case Locked(seen) => seen.Some? ==> Lookup(s.balances, txn.work.user) == seen
        case Saved(seen, insert, next) =>
          Outcome(txn.work, seen) == Some(next) && (seen.Some? ==> Lookup(s.balances, txn.work.user) == seen && !insert)
        case Flushed(seen, insert, next) =>
          && Outcome(txn.work, seen) == Some(next)
          && (seen.Some? ==> Lookup(s.balances, txn.work.user) == seen && !insert)
          && (insert <==> txn.work.user !in s.balances)
          && !HasEntry(s.ledger, EntryOf(txn.work))
        case _ => true)
  }

  ghost predicate AllInStep(s: State) {
    forall t :: t in s.open ==> InStep(s, s.open[t])
  }

  ghost predicate LocksExclusive(s: State) {
    forall t, o :: t in s.open && o in s.open && t != o ==>
        !(HoldsRow(s.open[t], s.open[o].work.user) && HoldsRow(s.open[o], s.open[o].work.user))
  }

  predicate Collide(a: Txn, b: Txn) {
    a.phase.Flushed? && b.phase.Flushed?
    && ((a.phase.insert && b.phase.insert && a.work.user == b.work.user) ||
        SameIdentity(EntryOf(a.work), EntryOf(b.work)))
  }

  ghost predicate FlushedApart(s: State) {
    forall t, o :: t in s.open && o in s.open && t != o ==> !Collide(s.open[t], s.open[o])
  }

  ghost predicate Inv(s: State) {
    Rows(s) && UniqueIdentities(s.ledger) && AllInStep(s) && LocksExclusive(s) && FlushedApart(s)
  }

  /** A step that changes neither table, and at most one transaction. */
  ghost predicate Touches(s: State, t: TxnId, s': State) {
    && s'.balances == s.balances && s'.ledger == s.ledger
    && s'.open.Keys <= s.open.Keys + {t}
    && (forall o :: o in s'.open && o != t ==> s'.open[o] == s.open[o])
  }

  lemma TransactionStepKeepsInv(s: State, t: TxnId, s': State)
    requires Inv(s) && Touches(s, t, s')
    requires t in s'.open ==> InStep(s', s'.open[t])
    requires t in s'.open ==> forall o :: o in s.open && o != t ==>
               !(HoldsRow(s'.open[t], s.open[o].work.user) && HoldsRow(s.open[o], s.open[o].work.user))
               && !Collide(s'.open[t], s.open[o]) && !Collide(s.open[o], s'.open[t])
    ensures Inv(s')
  {
    forall o | o in s'.open ensures InStep(s', s'.open[o]) {
      if o != t { assert InStep(s, s.open[o]); }
    }
    forall a, b | a in s'.open && b in s'.open && a != b
      ensures !(HoldsRow(s'.open[a], s'.open[b].work.user) && HoldsRow(s'.open[b], s'.open[b].work.user))
      ensures !Collide(s'.open[a], s'.open[b])
    {
      if a != t && b != t {
        assert !Collide(s.open[a], s.open[b]);
      }
    }
  }

  predicate Committing(s: State, step: Step)
  {
    step.Commit? && step.t in s.open && s.open[step.t].phase.Flushed?
  }

  lemma InvKeptByOpenSteps(s: State, step: Step)
    requires Inv(s) && Enabled(s, step) && !Committing(s, step) && !step.DeleteUser?
    ensures Inv(Next(s, step))
  {
    var s' := Next(s, step);
    assert step.t in s.open ==> InStep(s, s.open[step.t]);
    TransactionStepKeepsInv(s, step.t, s');
  }

  lemma InvKeptByCommit(s: State, t: TxnId)
    requires Inv(s) && Enabled(s, Commit(t)) && s.open[t].phase.Flushed?
    ensures Inv(Next(s, Commit(t)))
  {
    var s' := Next(s, Commit(t));
    var txn := s.open[t];
    assert InStep(s, txn);
    NextBalanceIsConsistent(s, t);
    forall o | o in s'.open ensures InStep(s', s'.open[o]) {
      assert InStep(s, s.open[o]) && !Collide(s.open[t], s.open[o]);
      OthersStayInStep(s, t, o);
    }
    forall a, b | a in s'.open && b in s'.open && a != b
      ensures !(HoldsRow(s'.open[a], s'.open[b].work.user) && HoldsRow(s'.open[b], s'.open[b].work.user))
      ensures !Collide(s'.open[a], s'.open[b]) {}
  }

  lemma NextBalanceIsConsistent(s: State, t: TxnId)
    requires Rows(s) && t in s.open && s.open[t].phase.Flushed? && InStep(s, s.open[t])
    ensures Consistent(s.open[t].phase.next) && s.open[t].phase.next.total >= 1
  {
  }

  lemma OthersStayInStep(s: State, t: TxnId, o: TxnId)
    requires Inv(s) && t in s.open && o in s.open && t != o && s.open[t].phase.Flushed?
    ensures InStep(Next(s, Commit(t)), s.open[o])
  {
    var s' := Next(s, Commit(t));
    var txn, other := s.open[t], s.open[o];
    assert InStep(s, txn) && InStep(s, other) && !Collide(txn, other);
    if other.work.user == txn.work.user {
      assert !(HoldsRow(txn, other.work.user) && HoldsRow(other, other.work.user));
    }
    if other.phase.Flushed? {
      assert s'.ledger[..|s.ledger|] == s.ledger;
    }
  }

  lemma FewerEntries(kept: seq<Entry>, all: seq<Entry>, e: Entry)
    requires forall x :: x in kept ==> x in all
    ensures HasEntry(kept, e) ==> HasEntry(all, e)
  {
    if HasEntry(kept, e) {
      var i :| 0 <= i < |kept| && SameIdentity(kept[i], e);
      assert kept[i] in all;
    }
  }

  lemma InvKeptByDelete(s: State, user: UserId)
    requires Inv(s) && Enabled(s, DeleteUser(user))
    ensures Inv(Next(s, DeleteUser(user)))
  {
    var s' := Next(s, DeleteUser(user));
    WithoutMembers(s.ledger, user);
    WithoutKeepsIdentities(s.ledger, user);
    forall i | 0 <= i < |s'.ledger| ensures s'.ledger[i].amount >= 1 && s'.ledger[i] in s.ledger {
      assert s'.ledger[i] in s'.ledger;
    }
    forall o | o in s'.open ensures InStep(s', s'.open[o]) {
      assert InStep(s, s.open[o]) && !HoldsRow(s.open[o], user);
      FewerEntries(s'.ledger, s.ledger, EntryOf(s.open[o].work));
    }
  }

  /** Every step of every transaction keeps the invariant, lost updates included. */
  lemma InvKept(s: State, step: Step)
    requires Inv(s) && Enabled(s, step)
    ensures Inv(Next(s, step))
  {
    if Committing(s, step) {
      InvKeptByCommit(s, step.t);
    } else if step.DeleteUser? {
      InvKeptByDelete(s, step.user);
    } else {
      InvKeptByOpenSteps(s, step);
    }
  }
}
