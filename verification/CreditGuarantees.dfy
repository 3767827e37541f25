/** What the stored balances and the ledger are worth over every run of racing transactions. */
module CreditGuarantees {
  import opened Prelude
  import opened RedemptionKeys
  import opened CreditLedger
  import opened CreditProtocol

  /** The stored balance of every user is what the ledger says it is. */
  ghost predicate Agreement(s: State) {
    forall u :: OrEmpty(Lookup(s.balances, u)) == LedgerBalance(s.ledger, u)
  }

  /**
   * The save found a row where the locking read had found none, so it overwrites, without a lock on
   * what it read, a row that another transaction committed in between.
   */
  predicate Stale(s: State, t: TxnId) {
    t in s.open && s.open[t].phase.Flushed? && s.open[t].phase.seen.None? && !s.open[t].phase.insert
  }

  predicate StaleCommit(s: State, step: Step) {
    step.Commit? && Stale(s, step.t)
  }

  lemma RunKeepsInv(states: seq<State>, steps: seq<Step>, i: nat)
    requires Run(states, steps) && i < |states|
    ensures Inv(states[i])
  {
    if i > 0 {
      RunKeepsInv(states, steps, i - 1);
      assert Enabled(states[i - 1], steps[i - 1]);
      InvKept(states[i - 1], steps[i - 1]);
    }
  }

  /** Committed state changes only when flushed work commits and when an account is deleted. */
  lemma OthersChangeNothing(s: State, step: Step)
    requires Enabled(s, step) && !Committing(s, step) && !step.DeleteUser?
    ensures Next(s, step).balances == s.balances && Next(s, step).ledger == s.ledger
  {
  }

  lemma CommitKeepsAgreement(s: State, t: TxnId)
    requires Inv(s) && t in s.open && s.open[t].phase.Flushed? && Agreement(s) && !Stale(s, t)
    ensures Agreement(Next(s, Commit(t)))
  {
    var s' := Next(s, Commit(t));
    var txn := s.open[t];
    assert InStep(s, txn);
    forall o ensures OrEmpty(Lookup(s'.balances, o)) == LedgerBalance(s'.ledger, o) {
      assert OrEmpty(Lookup(s.balances, o)) == LedgerBalance(s.ledger, o);
      EntryMovesOneBalance(s.ledger, txn.work, o);
    }
  }

  /** A stale commit forgets everything granted before: the balance falls short by the old total. */
  lemma StaleCommitLosesTheOldTotal(s: State, t: TxnId)
    requires Inv(s) && Agreement(s) && Stale(s, t)
    ensures var u := s.open[t].work.user;
            u in s.balances &&
            Total(Next(s, Commit(t)).ledger, u, Grant) - Next(s, Commit(t)).balances[u].total ==
                s.balances[u].total >= 1
    ensures !Agreement(Next(s, Commit(t)))
  {
    var s' := Next(s, Commit(t));
    var txn := s.open[t];
    var u := txn.work.user;
    assert InStep(s, txn);
    assert OrEmpty(Lookup(s.balances, u)) == LedgerBalance(s.ledger, u);
    TotalAppend(s.ledger, EntryOf(txn.work), u, Grant);
    assert OrEmpty(Lookup(s'.balances, u)) == txn.phase.next;
    assert OrEmpty(Lookup(s'.balances, u)) != LedgerBalance(s'.ledger, u);
  }

  lemma DeletionKeepsAgreement(s: State, user: UserId)
    requires Agreement(s) && Enabled(s, DeleteUser(user))
    ensures Agreement(Next(s, DeleteUser(user)))
  {
    var s' := Next(s, DeleteUser(user));
    forall o ensures OrEmpty(Lookup(s'.balances, o)) == LedgerBalance(s'.ledger, o) {
      TotalWithout(s.ledger, user, o, Grant);
      TotalWithout(s.ledger, user, o, Use);
      assert OrEmpty(Lookup(s.balances, o)) == LedgerBalance(s.ledger, o);
    }
  }

  /** One step keeps the balances in agreement with the ledger exactly when it is not a stale commit. */
  lemma AgreementKeptExactly(s: State, step: Step)
    requires Inv(s) && Agreement(s) && Enabled(s, step)
    ensures Agreement(Next(s, step)) <==> !StaleCommit(s, step)
  {
    if Committing(s, step) {
      if Stale(s, step.t) {
        StaleCommitLosesTheOldTotal(s, step.t);
      } else {
        CommitKeepsAgreement(s, step.t);
      }
    } else if step.DeleteUser? {
      DeletionKeepsAgreement(s, step.user);
    } else {
      OthersChangeNothing(s, step);
      AgreementIsAboutTables(s, Next(s, step));
    }
  }

  lemma AgreementIsAboutTables(s: State, s': State)
    requires Agreement(s) && s'.balances == s.balances && s'.ledger == s.ledger
    ensures Agreement(s')
  {
    forall u ensures OrEmpty(Lookup(s'.balances, u)) == LedgerBalance(s'.ledger, u) {
      assert OrEmpty(Lookup(s.balances, u)) == LedgerBalance(s.ledger, u);
    }
  }

  ghost predicate AlwaysAgrees(states: seq<State>, n: nat)
    requires n < |states|
  {
    forall i {:trigger states[i]} :: 0 <= i <= n ==> Agreement(states[i])
  }

  ghost predicate NoStaleCommit(states: seq<State>, steps: seq<Step>, n: nat)
    requires n <= |steps| < |states|
  {
    forall i {:trigger steps[i]} :: 0 <= i < n ==> !StaleCommit(states[i], steps[i])
  }

  /** A run keeps ledger and balances in agreement throughout exactly when it has no stale commit. */
  lemma {:induction false} LedgerAgreementExactly(states: seq<State>, steps: seq<Step>, n: nat)
    requires Run(states, steps) && n <= |steps|
    ensures AlwaysAgrees(states, n) <==> NoStaleCommit(states, steps, n)
  {
    if n == 0 {
      assert Agreement(states[0]);
    } else {
      LedgerAgreementExactly(states, steps, n - 1);
      RunKeepsInv(states, steps, n - 1);
      assert Enabled(states[n - 1], steps[n - 1]);
      if AlwaysAgrees(states, n - 1) {
        assert Agreement(states[n - 1]);
        AgreementKeptExactly(states[n - 1], steps[n - 1]);
        assert NoStaleCommit(states, steps, n) <==> !StaleCommit(states[n - 1], steps[n - 1]);
        assert AlwaysAgrees(states, n) <==> Agreement(states[n]);
      } else {
        var i :| 0 <= i <= n - 1 && !Agreement(states[i]);
        assert !AlwaysAgrees(states, n);
        var j :| 0 <= j < n - 1 && StaleCommit(states[j], steps[j]);
        assert !NoStaleCommit(states, steps, n);
      }
    }
  }

  // ---- What a caller can arrange ------------------------------------------------------------------------

  /** No two transactions of a user without a balance row are open at the same time. */
  ghost predicate FirstWorkAlone(s: State) {
    forall t, o :: t in s.open && o in s.open && t != o && s.open[t].work.user == s.open[o].work.user ==>
        s.open[t].work.user in s.balances
  }

  ghost predicate AlwaysAlone(states: seq<State>, n: nat)
    requires n <= |states|
  {
    forall i {:trigger states[i]} :: 0 <= i < n ==> FirstWorkAlone(states[i])
  }

  /** Its locking read found no row. */
  predicate SawNoRow(txn: Txn) {
    match txn.phase
    case Locked(seen) => seen.None?
    case Saved(seen, _, _) => seen.None?
    case Flushed(seen, _, _) => seen.None?
    case _ => false
  }

  /** Where a locking read found no row there still is none, and the save will not find one either. */
  ghost predicate NoneOvertaken(s: State) {
    forall t :: t in s.open && SawNoRow(s.open[t]) ==>
        s.open[t].work.user !in s.balances && (!s.open[t].phase.Locked? ==> s.open[t].phase.insert)
  }

  lemma NoneOvertakenKept(s: State, step: Step)
    requires NoneOvertaken(s) && FirstWorkAlone(s) && Enabled(s, step)
    ensures NoneOvertaken(Next(s, step))
  {
    var s' := Next(s, step);
    forall t | t in s'.open && SawNoRow(s'.open[t])
      ensures s'.open[t].work.user !in s'.balances && (!s'.open[t].phase.Locked? ==> s'.open[t].phase.insert)
    {
      if step.Commit? {
        assert t in s.open && s'.open[t] == s.open[t];
      }
    }
  }

  lemma {:induction false} NoneOvertakenAlong(states: seq<State>, steps: seq<Step>, n: nat)
    requires Run(states, steps) && n <= |steps| && AlwaysAlone(states, n)
    ensures NoneOvertaken(states[n]) && NoStaleCommit(states, steps, n)
  {
    if n > 0 {
      NoneOvertakenAlong(states, steps, n - 1);
      assert Enabled(states[n - 1], steps[n - 1]) && FirstWorkAlone(states[n - 1]);
      NoneOvertakenKept(states[n - 1], steps[n - 1]);
    }
  }

  /**
   * Balances and ledger agree throughout any run in which transactions of a user without a balance row
   * do not overlap, however much everything else does.
   */
  lemma AloneAtFirstAgrees(states: seq<State>, steps: seq<Step>, n: nat)
    requires Run(states, steps) && n <= |steps| && AlwaysAlone(states, n)
    ensures AlwaysAgrees(states, n)
  {
    NoneOvertakenAlong(states, steps, n);
    LedgerAgreementExactly(states, steps, n);
  }

  /**
   * Whatever the races: no key is in the ledger twice, whoever it belongs to, no source twice for one user
   * and kind of entry, and every stored balance adds up.
   */
  lemma IdempotentWhateverTheRace(states: seq<State>, steps: seq<Step>, n: nat, i: nat, j: nat, u: UserId)
    requires Run(states, steps) && n < |states| && i < j < |states[n].ledger|
    ensures var a, b := states[n].ledger[i], states[n].ledger[j];
            && (a.key.Some? ==> a.key != b.key)
            && (a.source.Some? && a.user == b.user && a.action == b.action ==> a.source != b.source)
    ensures u in states[n].balances ==>
              var b := states[n].balances[u];
              b.total == b.used + b.remaining && b.used >= 0 && b.remaining >= 0
  {
    RunKeepsInv(states, steps, n);
    assert !SameIdentity(states[n].ledger[i], states[n].ledger[j]);
  }

  // ---- Waiting -------------------------------------------------------------------------------------------

  /** The transaction itself can take its next step. */
  predicate CanGoOn(s: State, t: TxnId) {
    || Enabled(s, Check(t)) || Enabled(s, Lock(t)) || Enabled(s, Save(t)) || Enabled(s, Flush(t))
    || Enabled(s, Commit(t))
  }

  /** `o` keeps `txn` waiting: by its lock on the user's row, or by flushed rows that collide with those of `txn`. */
  predicate Blocks(o: Txn, txn: Txn) {
    match txn.phase
    case Checked => HoldsRow(o, txn.work.user)
    case Saved(_, insert, _) =>
      || (!insert && HoldsRow(o, txn.work.user))
      || (o.phase.Flushed? && insert && o.phase.insert && o.work.user == txn.work.user)
      || (o.phase.Flushed? && SameIdentity(EntryOf(o.work), EntryOf(txn.work)))
    case _ => false
  }

  /** The duplicate check lets a grant through exactly if its identity is new; a repetition writes nothing. */
  lemma RepetitionIsReplayed(s: State, t: TxnId)
    requires Enabled(s, Check(t))
    ensures var repeated := exists e :: e in s.ledger && SameIdentity(e, EntryOf(s.open[t].work));
            && Next(s, Check(t)).open[t].phase == (if repeated then Replayed else Checked)
            && (repeated ==>
                  && Enabled(Next(s, Check(t)), Commit(t))
                  && Next(Next(s, Check(t)), Commit(t)) == s.(open := s.open - {t}))
  {
    var e := EntryOf(s.open[t].work);
    if i :| 0 <= i < |s.ledger| && SameIdentity(s.ledger[i], e) {
      assert s.ledger[i] in s.ledger;
    }
    if x :| x in s.ledger && SameIdentity(x, e) {
      var i :| 0 <= i < |s.ledger| && s.ledger[i] == x;
    }
  }

  /** A transaction may always give up, and waits exactly while another open one blocks it. */
  lemma WaitsExactly(s: State, t: TxnId)
    requires t in s.open
    ensures CanGoOn(s, t) <==> forall o :: o in s.open && o != t ==> !Blocks(s.open[o], s.open[t])
    ensures Enabled(s, Abort(t)) && Next(s, Abort(t)) == s.(open := s.open - {t})
  {
    assert s.open[t].phase.Checked? ==> (CanGoOn(s, t) <==> Enabled(s, Lock(t)));
    assert s.open[t].phase.Saved? ==> (CanGoOn(s, t) <==> !MustWait(s, t));
  }

  /** It neither waits for a lock on a row nor for the flush of its rows. */
  predicate NeverWaits(txn: Txn) {
    !txn.phase.Checked? && !txn.phase.Saved?
  }

  lemma HolderGoesOn(s: State, t: TxnId)
    requires Inv(s) && t in s.open && s.open[t].phase.Saved? && HoldsRow(s.open[t], s.open[t].work.user)
    requires forall o :: o in s.open ==> !NeverWaits(s.open[o])
    ensures CanGoOn(s, t)
  {
    WaitsExactly(s, t);
  }

  lemma NobodyHolds(s: State, t: TxnId)
    requires t in s.open && forall o :: o in s.open ==> !HoldsRow(s.open[o], s.open[o].work.user)
    requires forall o :: o in s.open ==> !NeverWaits(s.open[o])
    ensures CanGoOn(s, t)
  {
    WaitsExactly(s, t);
  }

  /** Locks never deadlock: while transactions are open, one of them can go on. */
  lemma NeverStuck(states: seq<State>, steps: seq<Step>, n: nat)
    requires Run(states, steps) && n < |states| && states[n].open != map[]
    ensures exists t :: t in states[n].open && CanGoOn(states[n], t)
  {
    var s := states[n];
    RunKeepsInv(states, steps, n);
    if t :| t in s.open && NeverWaits(s.open[t]) {
      WaitsExactly(s, t);
    } else if t :| t in s.open && HoldsRow(s.open[t], s.open[t].work.user) {
      HolderGoesOn(s, t);
    } else {
      var t :| t in s.open;
      NobodyHolds(s, t);
    }
  }

  /** An account can be deleted unless an open transaction has locked its balance row, which then exists. */
  lemma DeletionWaitsForALock(states: seq<State>, steps: seq<Step>, n: nat, user: UserId)
    requires Run(states, steps) && n < |states| && !Enabled(states[n], DeleteUser(user))
    ensures user in states[n].balances
    ensures exists t :: t in states[n].open && HoldsRow(states[n].open[t], user)
  {
    RunKeepsInv(states, steps, n);
    var t :| t in states[n].open && HoldsRow(states[n].open[t], user);
    assert InStep(states[n], states[n].open[t]);
  }

  /** A flush absorbed as a duplicate although its identity is new: the first-row race, and nothing else. */
  lemma AbsorbedConflicts(s: State, t: TxnId)
    requires Inv(s) && Enabled(s, Flush(t)) && FlushFails(s, t) && s.open[t].work.GrantWork?
    ensures Next(s, Flush(t)) == RolledBack(s, t)
    ensures !HasEntry(s.ledger, EntryOf(s.open[t].work)) ==> s.open[t].phase.seen.None?
  {
    assert InStep(s, s.open[t]);
  }

  // ---- The lost update ------------------------------------------------------------------------------

  lemma RunExtends(states: seq<State>, steps: seq<Step>, step: Step)
    requires Run(states, steps) && Enabled(states[|steps|], step)
    ensures Run(states + [Next(states[|steps|], step)], steps + [step])
  {
  }

  ghost predicate Reachable(s: State) {
    exists states, steps :: Run(states, steps) && states[|steps|] == s
  }

  lemma ReachableNext(s: State, step: Step)
    requires Reachable(s) && Enabled(s, step)
    ensures Reachable(Next(s, step))
  {
    var states, steps :| Run(states, steps) && states[|steps|] == s;
    RunExtends(states, steps, step);
    assert (states + [Next(s, step)])[|steps + [step]|] == Next(s, step);
  }

  // The credit grants of two direct redemptions, of promotions 1 and 2, by the new user 7.
  const FIVE := GrantWork(7, 5, Some(DirectKey(1, 7, None)), Some(Source(PromotionRedemption, 101)))
  const THREE := GrantWork(7, 3, Some(DirectKey(2, 7, None)), Some(Source(PromotionRedemption, 102)))

  /** Both locking reads of the new user's row have come back empty. */
  const BOTH_SAW_NO_ROW := State(map[], [], map[1 := Txn(FIVE, Locked(None)), 2 := Txn(THREE, Locked(None))])

  /** The first grant has committed, and the second's save has found its row. */
  const OVERTAKEN := State(map[7 := Balance(5, 0, 5)], [EntryOf(FIVE)],
                           map[2 := Txn(THREE, Saved(None, false, Balance(3, 0, 3)))])

  lemma BothMaySeeNoRow()
    ensures Reachable(BOTH_SAW_NO_ROW)
  {
    var s0 := State(map[], [], map[]);
    var none: seq<Step> := [];
    assert Run([s0], none) && [s0][|none|] == s0;
    var s1 := State(map[], [], map[1 := Txn(FIVE, Started)]);
    ReachableNext(s0, Begin(1, FIVE));
    assert Next(s0, Begin(1, FIVE)) == s1;
    ReachableNext(s1, Check(1));
    var s2 := State(map[], [], map[1 := Txn(FIVE, Checked)]);
    assert Next(s1, Check(1)) == s2;
    ReachableNext(s2, Lock(1));
    var s3 := State(map[], [], map[1 := Txn(FIVE, Locked(None))]);
    assert Next(s2, Lock(1)) == s3;
    ReachableNext(s3, Begin(2, THREE));
    var s4 := State(map[], [], map[1 := Txn(FIVE, Locked(None)), 2 := Txn(THREE, Started)]);
    assert Next(s3, Begin(2, THREE)) == s4;
    ReachableNext(s4, Check(2));
    var s5 := State(map[], [], map[1 := Txn(FIVE, Locked(None)), 2 := Txn(THREE, Checked)]);
    assert Next(s4, Check(2)) == s5;
    ReachableNext(s5, Lock(2));
    assert Next(s5, Lock(2)) == BOTH_SAW_NO_ROW;
  }

  lemma OneMayOvertake()
    ensures Reachable(OVERTAKEN)
  {
    BothMaySeeNoRow();
    var s6 := BOTH_SAW_NO_ROW;
    var b5 := Balance(5, 0, 5);
    ReachableNext(s6, Save(1));
    var s7 := State(map[], [], map[1 := Txn(FIVE, Saved(None, true, b5)), 2 := Txn(THREE, Locked(None))]);
    assert Next(s6, Save(1)) == s7;
    ReachableNext(s7, Flush(1));
    var s8 := State(map[], [], map[1 := Txn(FIVE, Flushed(None, true, b5)), 2 := Txn(THREE, Locked(None))]);
    assert Next(s7, Flush(1)) == s8;
    ReachableNext(s8, Commit(1));
    var s9 := State(map[7 := b5], [EntryOf(FIVE)], map[2 := Txn(THREE, Locked(None))]);
    assert Next(s8, Commit(1)) == s9;
    ReachableNext(s9, Save(2));
    assert Next(s9, Save(2)) == OVERTAKEN;
  }

  /**
   * Two first grants of a new user: both locking reads find no row, one grant commits, and the other's
   * save overwrites its row. The ledger holds 5 + 3 credits, the balance 3.
   */
  lemma TwoFirstGrantsLoseOne()
    ensures exists s :: Reachable(s) && !Agreement(s)
              && LedgerBalance(s.ledger, 7).total == 8 && Lookup(s.balances, 7) == Some(Balance(3, 0, 3))
  {
    OneMayOvertake();
    ReachableNext(OVERTAKEN, Flush(2));
    var s11 := Next(OVERTAKEN, Flush(2));
    assert s11.open[2].phase == Flushed(None, false, Balance(3, 0, 3));
    ReachableNext(s11, Commit(2));
    var s12 := Next(s11, Commit(2));
    TotalAppend([EntryOf(FIVE)], EntryOf(THREE), 7, Grant);
    assert s12.ledger == [EntryOf(FIVE)] + [EntryOf(THREE)];
    assert Total([EntryOf(FIVE)], 7, Grant) == 5;
    assert LedgerBalance(s12.ledger, 7).total == 8 && OrEmpty(Lookup(s12.balances, 7)) == Balance(3, 0, 3);
  }
}
