/**
 * The credit commands as they run inside one database session: its own uncommitted writes on top of
 * what is stored. What other transactions commit while a command runs arrives as new stored tables.
 */
module CreditUseCases {
  import opened Prelude
  import opened RedemptionKeys
  import opened CreditLedger
  import opened Promotions
  import opened IdSets
  import opened OrderedRows
  import C = CreditProtocol

  datatype Tables = Tables(
    balances: map<UserId, Balance>, ledger: seq<Entry>,
    promotions: map<Id, Promotion>, codes: map<Id, Code>, redemptions: seq<Redemption>)

  ghost predicate WellFormed(t: Tables) {
    && (forall u :: u in t.balances ==> Consistent(t.balances[u]))
    && UniqueIdentities(t.ledger)
    && forall u :: C.OrEmpty(C.Lookup(t.balances, u)) == LedgerBalance(t.ledger, u)
  }

  /** The tables after the work is done, or None when the user cannot cover it. */
  function Done(t: Tables, w: C.Work): Option<Tables> {
    var next := C.Outcome(w, C.Lookup(t.balances, w.user));
    if next.None? then None
    else Some(t.(balances := t.balances[w.user := next.value], ledger := t.ledger + [C.EntryOf(w)]))
  }

  predicate HasIdentity(w: C.Work) {
    w.GrantWork? && (w.key.Some? || w.source.Some?)
  }

  predicate AlreadyGranted(t: Tables, w: C.Work) {
    C.HasEntry(t.ledger, C.EntryOf(w))
  }

  /** A grant is a repetition exactly if some ledger row has its key, or its source, its user and its kind. */
  lemma RepetitionExactly(t: Tables, w: C.Work)
    requires w.GrantWork?
    ensures AlreadyGranted(t, w) <==>
            exists e :: e in t.ledger
                && ((w.key.Some? && e.key == w.key)
                    || (w.source.Some? && e.source == w.source && e.user == w.user && e.action == Grant))
  {
    if AlreadyGranted(t, w) {
      var i :| 0 <= i < |t.ledger| && SameIdentity(t.ledger[i], C.EntryOf(w));
      assert t.ledger[i] in t.ledger;
    }
    if e :| e in t.ledger && SameIdentity(e, C.EntryOf(w)) {
      var i :| 0 <= i < |t.ledger| && t.ledger[i] == e;
    }
  }

  function Granted(t: Tables, w: C.Work): Tables
    requires w.GrantWork?
  {
    if AlreadyGranted(t, w) then t else Done(t, w).value
  }

  /** Repeating a grant that has an identity does nothing. */
  lemma GrantIsIdempotent(t: Tables, w: C.Work)
    requires HasIdentity(w)
    ensures Granted(Granted(t, w), w) == Granted(t, w)
  {
    if !AlreadyGranted(t, w) {
      assert Granted(t, w).ledger[|t.ledger|] == C.EntryOf(w);
    }
  }

  lemma NewIdentityKeepsUnique(ledger: seq<Entry>, e: Entry)
    requires UniqueIdentities(ledger) && !C.HasEntry(ledger, e)
    ensures UniqueIdentities(ledger + [e])
  {
  }

  /** What the work makes of a balance is what its entry makes of the ledger. */
  lemma WorkKeepsAgreement(t: Tables, w: C.Work, o: UserId)
    requires Done(t, w).Some? && C.OrEmpty(C.Lookup(t.balances, o)) == LedgerBalance(t.ledger, o)
    ensures var t' := Done(t, w).value;
            C.OrEmpty(C.Lookup(t'.balances, o)) == LedgerBalance(t'.ledger, o)
  {
    C.EntryMovesOneBalance(t.ledger, w, o);
  }

  /** Grants and covered usages keep balances consistent, identities unique and the ledger in agreement. */
  lemma WorkKeepsTables(t: Tables, w: C.Work)
    requires WellFormed(t) && w.amount >= 1 && !AlreadyGranted(t, w) && Done(t, w).Some?
    ensures WellFormed(Done(t, w).value)
  {
    var t' := Done(t, w).value;
    NewIdentityKeepsUnique(t.ledger, C.EntryOf(w));
    forall o ensures C.OrEmpty(C.Lookup(t'.balances, o)) == LedgerBalance(t'.ledger, o) {
      assert C.OrEmpty(C.Lookup(t.balances, o)) == LedgerBalance(t.ledger, o);
      WorkKeepsAgreement(t, w, o);
    }
  }

  /** The stored row passes the balance's own checks, as the table's check constraints demand. */
  predicate RowConsistent(t: Tables, user: UserId) {
    user in t.balances ==> Consistent(t.balances[user])
  }

  datatype Write =
    | PutBalance(user: UserId, balance: Balance)
    | AddEntry(entry: Entry)
    | PutPromotion(promotionId: Id, promotion: Promotion)
    | PutCode(codeId: Id, code: Code)
    | AddRedemption(redemption: Redemption)

  function Applying(t: Tables, w: Write): Tables {
    match w
    case PutBalance(user, balance) => t.(balances := t.balances[user := balance])
    case AddEntry(entry) => t.(ledger := t.ledger + [entry])
    case PutPromotion(id, promotion) => t.(promotions := t.promotions[id := promotion])
    case PutCode(id, code) => t.(codes := t.codes[id := code])
    case AddRedemption(redemption) => t.(redemptions := t.redemptions + [redemption])
  }

  /** The tables with the writes on top. */
  function WithWrites(t: Tables, writes: seq<Write>): Tables {
    if writes == [] then t
    else Applying(WithWrites(t, writes[..|writes| - 1]), writes[|writes| - 1])
  }

  lemma OneMoreWrite(t: Tables, writes: seq<Write>, w: Write)
    ensures WithWrites(t, writes + [w]) == Applying(WithWrites(t, writes), w)
  {
    assert (writes + [w])[..|writes|] == writes;
  }

  lemma TwoWrites(t: Tables, writes: seq<Write>, v: Write, w: Write)
    ensures WithWrites(t, writes + [v, w]) == Applying(Applying(WithWrites(t, writes), v), w)
  {
    assert writes + [v, w] == writes + [v] + [w];
    OneMoreWrite(t, writes, v);
    OneMoreWrite(t, writes + [v], w);
  }

  class CreditSession {
    var stored: Tables
    var writes: seq<Write>

    constructor (stored: Tables)
      ensures this.stored == stored && writes == []
    {
      this.stored := stored;
      writes := [];
    }

    /** What the session's own queries see. */
    function View(): Tables
      reads this
    {
      WithWrites(stored, writes)
    }

    method Add(w: Write)
      modifies this`writes
      ensures writes == old(writes) + [w] && View() == Applying(old(View()), w)
    {
      OneMoreWrite(stored, writes, w);
      writes := writes + [w];
    }

    /** Others have committed: their tables are what is stored now. */
    method Refresh(meanwhile: Tables)
      modifies this`stored
      ensures stored == meanwhile
    {
      stored := meanwhile;
    }

    method Commit()
      modifies this
      ensures stored == old(View()) && writes == []
    {
      stored := View();
      writes := [];
    }

    method Rollback()
      modifies this`writes
      ensures writes == []
    {
      writes := [];
    }

    method FindForUpdate(user: UserId) returns (row: Option<Balance>)
      ensures row == C.Lookup(View().balances, user)
    {
      var view := View();
      row := if user in view.balances then Some(view.balances[user]) else None;
    }

    method HasEntry(e: Entry) returns (found: bool)
      ensures found == C.HasEntry(View().ledger, e)
    {
      var ledger := View().ledger;
      found := false;
      for i := 0 to |ledger|
        invariant found <==> exists j :: 0 <= j < i && SameIdentity(ledger[j], e)
      {
        if SameIdentity(ledger[i], e) {
          found := true;
        }
      }
    }
  }

  /** The aggregate restored from the locked row does the work. */
  method WorkOn(w: C.Work, stored: Balance) returns (next: Option<Balance>)
    requires w.amount >= 1 && Consistent(stored)
    ensures next == Applied(stored, C.EntryOf(w).action, w.amount)
  {
    var credit := new UserCredit(w.user, stored);
    if w.GrantWork? {
      credit.Credit(w.amount);
    } else {
      var covered := credit.Debit(w.amount);
      if !covered {
        return None;
      }
    }
    next := Some(credit.balance);
  }

  /** The two rows of a piece of work, computed from the tables the session saw. */
  function RowsOf(view: Tables, w: C.Work): seq<Write>
    requires C.Outcome(w, C.Lookup(view.balances, w.user)).Some?
  {
    [PutBalance(w.user, C.Outcome(w, C.Lookup(view.balances, w.user)).value), AddEntry(C.EntryOf(w))]
  }

  lemma RowsDoTheWork(t: Tables, writes: seq<Write>, w: C.Work)
    requires C.Outcome(w, C.Lookup(WithWrites(t, writes).balances, w.user)).Some?
    ensures Done(WithWrites(t, writes), w) == Some(WithWrites(t, writes + RowsOf(WithWrites(t, writes), w)))
  {
    var view := WithWrites(t, writes);
    TwoWrites(t, writes, PutBalance(w.user, C.Outcome(w, C.Lookup(view.balances, w.user)).value),
              AddEntry(C.EntryOf(w)));
  }

  /** What is stored when the save looks the balance row up once more, and when the rows are flushed. */
  datatype Others = Others(atSave: Tables, atFlush: Tables)

  /** The save found no row, and by the flush another transaction has committed the user's first one. */
  predicate FirstRowTaken(o: Others, user: UserId) {
    user !in o.atSave.balances && user in o.atFlush.balances
  }

  /** The save found a row, and by the flush the user's account has been deleted. */
  predicate RowVanished(o: Others, user: UserId) {
    user in o.atSave.balances && user !in o.atFlush.balances
  }

  datatype Answer = Answered(balance: Balance) | Conflict | Vanished

  /** A grant whose rows clash with committed ones; a grant with an identity takes that for a repetition. */
  predicate Clashes(o: Others, w: C.Work) {
    FirstRowTaken(o, w.user) || AlreadyGranted(o.atFlush, w)
  }

  /**
   * Grants credit once per identity. With a deferred commit the caller's session keeps the writes; the
   * rollback is real in both modes. `Conflict` and `Vanished` are raised.
   */
  method GrantCredit(session: CreditSession, w: C.Work, deferred: bool, others: Others) returns (answer: Answer)
    requires w.GrantWork? && w.amount >= 1
    requires RowConsistent(session.View(), w.user)
    modifies session
    ensures AlreadyGranted(old(session.View()), w) ==>
              session.stored == old(session.stored) && session.writes == old(session.writes) && answer.Answered?
    ensures answer == Vanished <==> !AlreadyGranted(old(session.View()), w) && RowVanished(others, w.user)
    ensures answer == Vanished ==> session.stored == others.atFlush
    ensures !AlreadyGranted(old(session.View()), w) && Clashes(others, w) && !RowVanished(others, w.user) ==>
              && session.stored == others.atFlush
              && (answer == Conflict <==> w.key.None? && w.source.None?)
              && (answer != Conflict ==> session.writes == [])
    ensures !AlreadyGranted(old(session.View()), w) && !Clashes(others, w) && !RowVanished(others, w.user) ==>
              && answer.Answered?
              && var own := old(session.writes) + RowsOf(old(session.View()), w);
                 if deferred then session.stored == others.atFlush && session.writes == own
                 else session.stored == WithWrites(others.atFlush, own) && session.writes == []
    ensures answer.Answered? ==> answer.balance == C.OrEmpty(C.Lookup(session.View().balances, w.user))
  {
    var duplicate := session.HasEntry(C.EntryOf(w));
    if duplicate {
      return Answered(C.OrEmpty(C.Lookup(session.View().balances, w.user)));
    }
    var row := session.FindForUpdate(w.user);
    var next := WorkOn(w, C.OrEmpty(row));
    ghost var own := session.writes + RowsOf(session.View(), w);
    var insert := w.user !in others.atSave.balances;
    session.Add(PutBalance(w.user, next.value));
    session.Add(AddEntry(C.EntryOf(w)));
    assert session.writes == own;
    session.Refresh(others.atFlush);
    if !insert && w.user !in others.atFlush.balances {
      return Vanished;
    }
    if (insert && w.user in others.atFlush.balances) || AlreadyGranted(others.atFlush, w) {
      if !HasIdentity(w) {
        return Conflict;
      }
      session.Rollback();
      return Answered(C.OrEmpty(C.Lookup(session.View().balances, w.user)));
    }
    if !deferred {
      session.Commit();
    }
    return Answered(C.OrEmpty(C.Lookup(session.View().balances, w.user)));
  }

  /** Debits without committing and without a ledger row; false: insufficient credit. */
  method ReserveCredit(session: CreditSession, user: UserId, amount: nat) returns (reserved: bool)
    requires amount >= 1
    requires RowConsistent(session.View(), user)
    modifies session`writes
    ensures reserved <==> Done(old(session.View()), C.UseWork(user, amount)).Some?
    ensures reserved <==> user in old(session.View().balances) && old(session.View().balances)[user].remaining >= amount
    ensures session.writes == if reserved
              then old(session.writes) + RowsOf(old(session.View()), C.UseWork(user, amount))[..1]
              else old(session.writes)
  {
    var row := session.FindForUpdate(user);
    var next := WorkOn(C.UseWork(user, amount), C.OrEmpty(row));
    reserved := next.Some?;
    if reserved {
      session.Add(PutBalance(user, next.value));
    }
  }

  method FinalizeUsage(session: CreditSession, user: UserId, amount: nat)
    modifies session
    ensures session.stored == Applying(old(session.View()), AddEntry(C.EntryOf(C.UseWork(user, amount))))
    ensures session.writes == []
  {
    session.Add(AddEntry(C.EntryOf(C.UseWork(user, amount))));
    session.Commit();
  }

  // ---- Receipt analysis: reserve one credit, work, then finalize or roll back -----------------------------

  datatype Evidence = Evidence(merchant: bool, purchasedItem: bool, totalPaid: bool, paymentProof: bool)

  /** `blankName`: the item name is missing or blank. `validFields`: the result's own checks accept the fields. */
  datatype Extraction = Extraction(
    blankName: bool, validFields: bool, hasTotal: bool, evidence: Option<Evidence>,
    receipts: seq<nat>, unreadable: seq<nat>, unsupported: seq<nat>)

  datatype Verdict = Accepted | Unsupported(files: seq<nat>) | Unreadable(files: seq<nat>) | InvalidFields

  predicate FullEvidence(e: Extraction) {
    && e.hasTotal && e.evidence.Some?
    && e.evidence.value.merchant && e.evidence.value.purchasedItem && e.evidence.value.totalPaid
        && e.evidence.value.paymentProof
  }

  /** Without full evidence nothing counts as a receipt, and every readable file is unsupported. */
  function EnforcePolicy(e: Extraction, files: seq<nat>): Extraction {
    if e.receipts == [] || FullEvidence(e) then e
    else e.(receipts := [], unsupported := SortedIds(Filter(files, (f: nat) => f !in e.unreadable)))
  }

  function Judge(e: Extraction, files: seq<nat>): Verdict {
    if e.unsupported != [] then Unsupported(e.unsupported)
    else if e.unreadable != [] then Unreadable(e.unreadable)
    else if e.receipts == [] then Unsupported(files)
    else if e.blankName then Unreadable(files)
    else if !e.validFields then InvalidFields
    else Accepted
  }

  /** Complete: a receipt, all evidence for it, a name, valid fields, and nothing wrong with any file. */
  predicate NeedsNoPolicy(e: Extraction) {
    && e.unsupported == [] && e.unreadable == [] && e.receipts != [] && !e.blankName && e.validFields
    && e.hasTotal && e.evidence == Some(Evidence(true, true, true, true))
  }

  /**
   * When the evidence needs no policy, unsupported files are blamed before unreadable ones, and the whole
   * request if there is no receipt or no name in it.
   */
  lemma BlameWithFullEvidence(e: Extraction, files: seq<nat>)
    requires e.receipts == [] || (e.hasTotal && e.evidence == Some(Evidence(true, true, true, true)))
    ensures var verdict := Judge(EnforcePolicy(e, files), files);
            && (verdict.Unsupported? <==> e.unsupported != [] || (e.unreadable == [] && e.receipts == []))
            && (verdict.Unreadable? <==>
                  e.unsupported == [] && (e.unreadable != [] || (e.receipts != [] && e.blankName)))
            && (verdict.Accepted? ==> e.validFields)
            && (verdict.Unsupported? || verdict.Unreadable? ==>
                  verdict.files ==
                    if e.unsupported != [] then e.unsupported
                    else if e.unreadable != [] then e.unreadable else files)
  {
  }

  /**
   * A receipt is accepted exactly when every file is readable and supported and the evidence is
   * complete. The files blamed for missing evidence are the request's readable ones, or the unreadable
   * ones if there is none.
   */
  lemma PolicyAcceptsExactlyCompleteReceipts(e: Extraction, files: seq<nat>, f: nat)
    ensures Judge(EnforcePolicy(e, files), files).Accepted? <==> NeedsNoPolicy(e)
    ensures e.receipts != [] && !(e.hasTotal && e.evidence == Some(Evidence(true, true, true, true))) ==>
              match Judge(EnforcePolicy(e, files), files)
              case Unsupported(blamed) => f in blamed <==> f in files && f !in e.unreadable
              case Unreadable(blamed) =>
                blamed == e.unreadable != [] && forall g :: g in files ==> g in e.unreadable
              case _ => false
  {
    var blamed := EnforcePolicy(e, files).unsupported;
    if e.receipts != [] && !FullEvidence(e) {
      BlamedAreTheReadable(e, files);
      if blamed == [] {
        forall g | g in files ensures g in e.unreadable { assert g !in blamed; }
      } else {
        assert blamed[0] in blamed;
      }
    }
  }

  /** Without full evidence the policy marks exactly the readable files as unsupported. */
  lemma BlamedAreTheReadable(e: Extraction, files: seq<nat>)
    requires e.receipts != [] && !FullEvidence(e)
    ensures forall g :: g in EnforcePolicy(e, files).unsupported <==> g in files && g !in e.unreadable
  {
    var keep := (g: nat) => g !in e.unreadable;
    SortedIdsSorts(Filter(files, keep));
    forall g ensures g in Filter(files, keep) <==> g in files && g !in e.unreadable {
      FilterMembers(files, keep, g);
    }
  }

  /**
   * Analyses a receipt for one credit. `extraction` is None when the provider fails, `committed` says
   * whether the final commit goes through, and `meanwhile` is what is stored by then: the reserved row
   * is locked, everything else may have changed. Charged exactly when everything succeeds; otherwise
   * the stored tables are as others left them and nothing remains in the session.
   */
  method ExtractReceipt(session: CreditSession, user: UserId, files: seq<nat>, extraction: Option<Extraction>,
                        meanwhile: Tables, committed: bool)
    returns (charged: bool)
    requires session.writes == [] && RowConsistent(session.stored, user)
    requires C.Lookup(meanwhile.balances, user) == C.Lookup(session.stored.balances, user)
    modifies session
    ensures session.writes == []
    ensures charged <==>
              Done(meanwhile, C.UseWork(user, 1)).Some? && extraction.Some? && NeedsNoPolicy(extraction.value)
                  && committed
    ensures session.stored == if charged then Done(meanwhile, C.UseWork(user, 1)).value else meanwhile
    ensures charged ==>
              && user in meanwhile.balances && meanwhile.balances[user].remaining >= 1
              && var b := meanwhile.balances[user];
                 session.stored ==
                 meanwhile.(balances := meanwhile.balances[user := Balance(b.total, b.used + 1, b.remaining - 1)],
                            ledger := meanwhile.ledger + [Entry(user, Use, 1, None, None)])
  {
    var w := C.UseWork(user, 1);
    var reserved := ReserveCredit(session, user, 1);
    session.Refresh(meanwhile);
    if !reserved {
      return false;
    }
    if extraction.None? {
      session.Rollback();
      return false;
    }
    PolicyAcceptsExactlyCompleteReceipts(extraction.value, files, 0);
    var verdict := Judge(EnforcePolicy(extraction.value, files), files);
    if !verdict.Accepted? || !committed {
      session.Rollback();
      return false;
    }
    RowsDoTheWork(meanwhile, [], w);
    TwoWrites(meanwhile, [], RowsOf(meanwhile, w)[0], RowsOf(meanwhile, w)[1]);
    OneMoreWrite(meanwhile, [], RowsOf(meanwhile, w)[0]);
    FinalizeUsage(session, user, 1);
    return true;
  }

  // ---- The session form is the protocol run alone -------------------------------------------------------

  function CreditTables(s: C.State): Tables {
    Tables(s.balances, s.ledger, map[], map[], [])
  }

  /** In a quiet database the protocol's six steps do exactly what the use case does. */
  lemma GrantAloneRefines(s: C.State, t: C.TxnId, w: C.Work)
    requires C.Inv(s) && s.open == map[] && w.GrantWork? && w.amount >= 1 && !C.HasEntry(s.ledger, C.EntryOf(w))
    ensures var s1 := C.Next(s, C.Begin(t, w));
            && C.Enabled(s1, C.Check(t)) && var s2 := C.Next(s1, C.Check(t));
            && C.Enabled(s2, C.Lock(t)) && var s3 := C.Next(s2, C.Lock(t));
            && C.Enabled(s3, C.Save(t)) && var s4 := C.Next(s3, C.Save(t));
            && C.Enabled(s4, C.Flush(t)) && var s5 := C.Next(s4, C.Flush(t));
            && C.Enabled(s5, C.Commit(t)) && var s6 := C.Next(s5, C.Commit(t));
            Some(CreditTables(s6)) == Done(CreditTables(s), w) && s6.open == map[]
  {
    var s1 := C.Next(s, C.Begin(t, w));
    var s2 := C.Next(s1, C.Check(t));
    assert s2.open == map[t := C.Txn(w, C.Checked)];
    var s3 := C.Next(s2, C.Lock(t));
    var seen := C.Lookup(s.balances, w.user);
    assert s3.open == map[t := C.Txn(w, C.Locked(seen))];
    var s4 := C.Next(s3, C.Save(t));
    var next := C.Outcome(w, seen).value;
    assert s4.open == map[t := C.Txn(w, C.Saved(seen, w.user !in s.balances, next))];
    var s5 := C.Next(s4, C.Flush(t));
    assert s5.open == map[t := C.Txn(w, C.Flushed(seen, w.user !in s.balances, next))];
  }

  lemma UsageAloneRefines(s: C.State, t: C.TxnId, user: UserId, amount: nat)
    requires C.Inv(s) && s.open == map[] && amount >= 1
    ensures var w := C.UseWork(user, amount);
            var s1 := C.Next(s, C.Begin(t, w));
            && C.Enabled(s1, C.Lock(t)) && var s2 := C.Next(s1, C.Lock(t));
            && C.Enabled(s2, C.Save(t)) && var s3 := C.Next(s2, C.Save(t));
            if Done(CreditTables(s), w).None? then s3 == s
            else
              && C.Enabled(s3, C.Flush(t)) && var s4 := C.Next(s3, C.Flush(t));
              && C.Enabled(s4, C.Commit(t)) && var s5 := C.Next(s4, C.Commit(t));
              Some(CreditTables(s5)) == Done(CreditTables(s), w) && s5.open == map[]
  {
    var w := C.UseWork(user, amount);
    var s1 := C.Next(s, C.Begin(t, w));
    assert s1.open == map[t := C.Txn(w, C.Checked)];
    var s2 := C.Next(s1, C.Lock(t));
    var seen := C.Lookup(s.balances, user);
    assert s2.open == map[t := C.Txn(w, C.Locked(seen))];
    var s3 := C.Next(s2, C.Save(t));
    if C.Outcome(w, seen).Some? {
      var next := C.Outcome(w, seen).value;
      assert s3.open == map[t := C.Txn(w, C.Saved(seen, false, next))];
      var s4 := C.Next(s3, C.Flush(t));
      assert s4.open == map[t := C.Txn(w, C.Flushed(seen, false, next))];
    } else {
      assert s3 == s;
    }
  }
}
