/**
 * Any number of scheduler runs over one occurrence table: repeated, concurrent and crashing. A run
 * reserves an occurrence, creates its notification, binds the two and commits, one candidate at a time.
 */
module SchedulerProtocol {
  import opened Prelude

  type RunId = nat
  type NotificationId = nat

  datatype TargetType = ReceiptTarget | UserTarget

  datatype Key = Key(campaign: string, target: TargetType, targetId: nat, on: int)

  datatype Totals = Totals(candidates: nat, created: nat, skipped: nat, failed: nat)

  datatype Action = Created | Skipped | Failed | DryRun

  const ZERO := Totals(0, 0, 0, 0)

  function Add(t: Totals, action: Action): Totals {
    match action
    case Created => Totals(t.candidates + 1, t.created + 1, t.skipped, t.failed)
    case Skipped => Totals(t.candidates + 1, t.created, t.skipped + 1, t.failed)
    case Failed => Totals(t.candidates + 1, t.created, t.skipped, t.failed + 1)
    case DryRun => Totals(t.candidates + 1, t.created, t.skipped, t.failed)
  }

  /** Rows written since the run's last commit or rollback belong to its open transaction. */
  datatype Phase =
    | Idle
    | Reserved(key: Key)
    | Drafted(key: Key, id: NotificationId)
    | Bound(key: Key, id: NotificationId)
    | Dead

  datatype Run = Run(dryRun: bool, phase: Phase, totals: Totals)

  datatype Sent = Sent(key: Key, run: RunId)

  /**
   * Committed occurrences with the notification they are bound to; every notification ever committed,
   * with the occurrence it was created for and the run that committed it; those that their users have
   * deleted since, which leaves their occurrence alone; and all runs, dead ones included.
   */
  datatype State = State(
    occurrences: map<Key, Option<NotificationId>>,
    created: map<NotificationId, Sent>,
    deleted: set<NotificationId>,
    runs: map<RunId, Run>,
    used: set<NotificationId>)

  /** `Crash`: the process dies, or an exception that no candidate handles ends the run. */
  datatype Step =
    | Start(r: RunId, dryRun: bool)
    | Candidate(r: RunId, key: Key)
    | Create(r: RunId, id: NotificationId)
    | Invalid(r: RunId)
    | NoConsent(r: RunId)
    | Bind(r: RunId)
    | Commit(r: RunId)
    | Crash(r: RunId)
    | DeleteNotification(id: NotificationId)

  predicate Init(s: State) {
    s == State(map[], map[], {}, map[], {})
  }

  function StoredNotifications(s: State): map<NotificationId, Sent> {
    s.created - s.deleted
  }

  predicate Writing(run: Run, key: Key) {
    InFlight(run) && run.phase.key == key
  }

  /** An insert of the same key by an open transaction makes `reserve` wait for its end. */
  predicate KeyFree(s: State, r: RunId, key: Key) {
    forall o :: o in s.runs && o != r ==> !Writing(s.runs[o], key)
  }

  predicate Enabled(s: State, step: Step) {
    match step
    case Start(r, dryRun) => r !in s.runs
    case Candidate(r, key) => r in s.runs && s.runs[r].phase.Idle? && (s.runs[r].dryRun || KeyFree(s, r, key))
    case Create(r, id) => r in s.runs && s.runs[r].phase.Reserved? && id !in s.used
    case Invalid(r) => r in s.runs && s.runs[r].phase.Reserved?
    case NoConsent(r) => r in s.runs && s.runs[r].phase.Reserved?
    case Bind(r) => r in s.runs && s.runs[r].phase.Drafted?
    case Commit(r) => r in s.runs && s.runs[r].phase.Bound?
    case Crash(r) => r in s.runs && !s.runs[r].phase.Dead?
    case DeleteNotification(id) => id in StoredNotifications(s)
  }

  function Becomes(s: State, r: RunId, phase: Phase): State
    requires r in s.runs
  {
    s.(runs := s.runs[r := s.runs[r].(phase := phase)])
  }

  /** The candidate is done with; whatever was not committed is gone. */
  function Finished(s: State, r: RunId, action: Action): State
    requires r in s.runs
  {
    s.(runs := s.runs[r := Run(s.runs[r].dryRun, Idle, Add(s.runs[r].totals, action))])
  }

  function Next(s: State, step: Step): State
    requires Enabled(s, step)
  {
    match step
    case Start(r, dryRun) => s.(runs := s.runs[r := Run(dryRun, Idle, ZERO)])
    case Candidate(r, key) =>
      if s.runs[r].dryRun then Finished(s, r, DryRun)
      else if key in s.occurrences then Finished(s, r, Skipped)
      else Becomes(s, r, Reserved(key))
    case Create(r, id) => Becomes(s, r, Drafted(s.runs[r].phase.key, id)).(used := s.used + {id})
    case Invalid(r) => Finished(s, r, Failed)
    case NoConsent(r) => Finished(s, r, Skipped)
    case Bind(r) => Becomes(s, r, Bound(s.runs[r].phase.key, s.runs[r].phase.id))
    case Commit(r) =>
      var key, id := s.runs[r].phase.key, s.runs[r].phase.id;
      Finished(s, r, Created).(occurrences := s.occurrences[key := Some(id)], created := s.created[id := Sent(key, r)])
    case Crash(r) => Becomes(s, r, Dead)
    case DeleteNotification(id) => s.(deleted := s.deleted + {id})
  }

  ghost predicate Trace(states: seq<State>, steps: seq<Step>) {
    && |states| == |steps| + 1
    && Init(states[0])
    && forall i {:trigger steps[i]} :: 0 <= i < |steps| ==>
        Enabled(states[i], steps[i]) && states[i + 1] == Next(states[i], steps[i])
  }

  // ---- The invariant ---------------------------------------------------------------------------------

  /** Committed occurrences and the notifications ever committed are in one-to-one correspondence. */
  ghost predicate OneToOne(s: State) {
    && (forall k :: k in s.occurrences ==>
          s.occurrences[k].Some? && s.occurrences[k].value in s.created && s.created[s.occurrences[k].value].key == k)
    && (forall n :: n in s.created ==>
          s.created[n].key in s.occurrences && s.occurrences[s.created[n].key] == Some(n) && s.created[n].run in s.runs)
    && s.deleted <= s.created.Keys <= s.used
  }

  predicate InFlight(run: Run) {
    run.phase.Reserved? || run.phase.Drafted? || run.phase.Bound?
  }

  predicate HasDraft(run: Run) {
    run.phase.Drafted? || run.phase.Bound?
  }

  /** What a run has written but not committed is not committed by anybody. */
  ghost predicate Uncommitted(s: State, run: Run) {
    && (InFlight(run) ==> !run.dryRun && run.phase.key !in s.occurrences)
    && (HasDraft(run) ==> run.phase.id in s.used && run.phase.id !in s.created)
  }

  predicate Apart(a: Run, b: Run) {
    && (InFlight(a) && InFlight(b) ==> a.phase.key != b.phase.key)
    && (HasDraft(a) && HasDraft(b) ==> a.phase.id != b.phase.id)
  }

  ghost predicate Exclusive(s: State) {
    && (forall r :: r in s.runs ==> Uncommitted(s, s.runs[r]))
    && (forall r, o :: r in s.runs && o in s.runs && r != o ==> Apart(s.runs[r], s.runs[o]))
  }

  function SentBy(s: State, r: RunId): set<NotificationId> {
    set n | n in s.created && s.created[n].run == r
  }

  ghost predicate Tallied(s: State, r: RunId)
    requires r in s.runs
  {
    var t := s.runs[r].totals;
    && t.created == |SentBy(s, r)|
    && (s.runs[r].dryRun ==> t.created == t.skipped == t.failed == 0)
    && (!s.runs[r].dryRun ==> t.candidates == t.created + t.skipped + t.failed)
  }

  ghost predicate AllTallied(s: State) {
    && (forall r :: r in s.runs ==> Tallied(s, r))
    && (forall n :: n in s.created ==> s.created[n].run in s.runs)
  }

  ghost predicate Inv(s: State) {
    OneToOne(s) && Exclusive(s) && AllTallied(s)
  }

  lemma OneToOneKept(s: State, step: Step)
    requires OneToOne(s) && Exclusive(s) && Enabled(s, step)
    ensures OneToOne(Next(s, step))
  {
    if step.Commit? { assert Uncommitted(s, s.runs[step.r]); }
  }

  lemma ExclusiveKept(s: State, step: Step)
    requires Exclusive(s) && Enabled(s, step) && s.created.Keys <= s.used
    ensures Exclusive(Next(s, step))
  {
    var s' := Next(s, step);
    forall r | r in s'.runs ensures Uncommitted(s', s'.runs[r]) {
      if r in s.runs {
        assert Uncommitted(s, s.runs[r]);
        if !step.DeleteNotification? && r != step.r && step.r in s.runs { assert Apart(s.runs[r], s.runs[step.r]); }
      }
    }
    forall r, o | r in s'.runs && o in s'.runs && r != o ensures Apart(s'.runs[r], s'.runs[o]) {
      if r in s.runs && o in s.runs {
        assert Apart(s.runs[r], s.runs[o]) && Uncommitted(s, s.runs[r]) && Uncommitted(s, s.runs[o]);
        assert step.Candidate? && !s.runs[step.r].dryRun ==> KeyFree(s, step.r, step.key);
        assert step.DeleteNotification? || r != step.r ==> s'.runs[r] == s.runs[r];
        assert step.DeleteNotification? || o != step.r ==> s'.runs[o] == s.runs[o];
      }
    }
  }

  lemma OneMoreSent(s: State, s': State, id: NotificationId, sent: Sent, r: RunId)
    requires s'.created == s.created[id := sent] && id !in s.created
    ensures |SentBy(s', r)| == |SentBy(s, r)| + if sent.run == r then 1 else 0
  {
    assert SentBy(s', r) == SentBy(s, r) + if sent.run == r then {id} else {};
  }

  lemma SentByAfter(s: State, step: Step, r: RunId)
    requires Exclusive(s) && Enabled(s, step)
    ensures |SentBy(Next(s, step), r)| == |SentBy(s, r)| + if step.Commit? && step.r == r then 1 else 0
  {
    if step.Commit? {
      var run := s.runs[step.r];
      assert Uncommitted(s, run);
      OneMoreSent(s, Next(s, step), run.phase.id, Sent(run.phase.key, step.r), r);
    } else {
      assert Next(s, step).created == s.created;
      assert SentBy(Next(s, step), r) == SentBy(s, r);
    }
  }

  lemma TalliedKept(s: State, step: Step, r: RunId)
    requires Exclusive(s) && AllTallied(s) && Enabled(s, step) && r in Next(s, step).runs
    ensures Tallied(Next(s, step), r)
  {
    SentByAfter(s, step, r);
    if r in s.runs {
      assert Tallied(s, r) && Uncommitted(s, s.runs[r]);
      TotalsAfter(s, step, r);
    } else {
      assert SentBy(s, r) == {};
    }
  }

  /** What a step adds to a run's totals. */
  lemma TotalsAfter(s: State, step: Step, r: RunId)
    requires Enabled(s, step) && r in s.runs && Uncommitted(s, s.runs[r])
    ensures r in Next(s, step).runs && Next(s, step).runs[r].dryRun == s.runs[r].dryRun
    ensures var t, t' := s.runs[r].totals, Next(s, step).runs[r].totals;
            || t' == t
            || (s.runs[r].dryRun && t' == Add(t, DryRun))
            || (!s.runs[r].dryRun && (t' == Add(t, Skipped) || t' == Add(t, Failed) || t' == Add(t, Created)))
    ensures Next(s, step).runs[r].totals.created ==
            s.runs[r].totals.created + if step.Commit? && step.r == r then 1 else 0
  {
  }

  lemma InvKept(s: State, step: Step)
    requires Inv(s) && Enabled(s, step)
    ensures Inv(Next(s, step))
  {
    OneToOneKept(s, step);
    ExclusiveKept(s, step);
    forall r | r in Next(s, step).runs ensures Tallied(Next(s, step), r) {
      TalliedKept(s, step, r);
    }
  }

  lemma {:induction false} TraceKeepsInv(states: seq<State>, steps: seq<Step>, i: nat)
    requires Trace(states, steps) && i < |states|
    ensures Inv(states[i])
  {
    if i > 0 {
      TraceKeepsInv(states, steps, i - 1);
      assert Enabled(states[i - 1], steps[i - 1]);
      InvKept(states[i - 1], steps[i - 1]);
    }
  }

  // ---- Guarantees --------------------------------------------------------------------------------------

  /** However runs interleave, crash and repeat, at most one notification is ever committed for an occurrence. */
  lemma AtMostOneNotification(states: seq<State>, steps: seq<Step>, i: nat, a: NotificationId, b: NotificationId)
    requires Trace(states, steps) && i < |states| && a in states[i].created && b in states[i].created
    requires states[i].created[a].key == states[i].created[b].key
    ensures a == b
  {
    TraceKeepsInv(states, steps, i);
  }

  /** Every committed occurrence is bound to a notification created for it, stored unless its user deleted it. */
  lemma CommittedOccurrenceIsBound(states: seq<State>, steps: seq<Step>, i: nat, k: Key)
    requires Trace(states, steps) && i < |states| && k in states[i].occurrences
    ensures states[i].occurrences[k].Some? && states[i].occurrences[k].value in states[i].created
    ensures states[i].created[states[i].occurrences[k].value].key == k
    ensures states[i].occurrences[k].value in StoredNotifications(states[i]) <==>
            states[i].occurrences[k].value !in states[i].deleted
  {
    TraceKeepsInv(states, steps, i);
  }

  /** Both rows appear in the same step, that of the run that commits them, and in no other. */
  lemma RowsAppearTogether(states: seq<State>, steps: seq<Step>, i: nat, k: Key)
    requires Trace(states, steps) && i < |steps| && k !in states[i].occurrences && k in states[i + 1].occurrences
    ensures steps[i].Commit? && states[i + 1].occurrences[k].Some?
    ensures var n := states[i + 1].occurrences[k].value;
            n !in states[i].created && n in states[i + 1].created && states[i + 1].created[n] == Sent(k, steps[i].r)
  {
    TraceKeepsInv(states, steps, i);
    assert Enabled(states[i], steps[i]);
    assert Uncommitted(states[i], states[i].runs[steps[i].r]);
  }

  /** A dry run commits nothing and counts candidates only. */
  lemma DryRunCommitsNothing(states: seq<State>, steps: seq<Step>, i: nat, r: RunId)
    requires Trace(states, steps) && i < |states| && r in states[i].runs && states[i].runs[r].dryRun
    ensures SentBy(states[i], r) == {}
    ensures states[i].runs[r].totals == Totals(states[i].runs[r].totals.candidates, 0, 0, 0)
  {
    TraceKeepsInv(states, steps, i);
    assert Tallied(states[i], r);
  }

  /** The summary of any other run adds up, and counts exactly the notifications it committed. */
  lemma SummaryIsExact(states: seq<State>, steps: seq<Step>, i: nat, r: RunId)
    requires Trace(states, steps) && i < |states| && r in states[i].runs && !states[i].runs[r].dryRun
    ensures var t := states[i].runs[r].totals;
            t.candidates == t.created + t.skipped + t.failed && t.created == |SentBy(states[i], r)|
  {
    TraceKeepsInv(states, steps, i);
    assert Tallied(states[i], r);
  }

  /** A committed occurrence stays bound for good, so that deleting its notification never sends it again. */
  lemma {:induction false} SentStaysSent(states: seq<State>, steps: seq<Step>, i: nat, j: nat, k: Key)
    requires Trace(states, steps) && i <= j < |states| && k in states[i].occurrences
    ensures k in states[j].occurrences && states[j].occurrences[k] == states[i].occurrences[k]
  {
    if i < j {
      SentStaysSent(states, steps, i, j - 1, k);
      OccurrenceKeptInTrace(states, steps, j - 1, k);
    }
  }

  lemma OccurrenceKeptInTrace(states: seq<State>, steps: seq<Step>, i: nat, k: Key)
    requires Trace(states, steps) && i < |steps| && k in states[i].occurrences
    ensures k in states[i + 1].occurrences && states[i + 1].occurrences[k] == states[i].occurrences[k]
  {
    TraceKeepsInv(states, steps, i);
    assert Enabled(states[i], steps[i]) && states[i + 1] == Next(states[i], steps[i]);
    OccurrenceKept(states[i], steps[i], k);
  }

  lemma OccurrenceKept(s: State, step: Step, k: Key)
    requires Inv(s) && Enabled(s, step) && k in s.occurrences
    ensures k in Next(s, step).occurrences && Next(s, step).occurrences[k] == s.occurrences[k]
  {
    if step.Commit? { assert Uncommitted(s, s.runs[step.r]); }
  }

  /** A candidate that a run finishes with `Created`, or skips because its key is taken, has been sent. */
  lemma FinishedCandidateIsSent(s: State, step: Step)
    requires OneToOne(s) && Enabled(s, step) && (step.Candidate? || step.Commit?) && !s.runs[step.r].dryRun
    ensures step.Candidate? && Next(s, step).runs[step.r].phase.Idle? ==>
            step.key in s.occurrences && s.occurrences[step.key].Some?
    ensures step.Commit? ==>
              Lookup(Next(s, step).occurrences, s.runs[step.r].phase.key) == Some(Some(s.runs[step.r].phase.id))
  {
  }

  function Lookup(occurrences: map<Key, Option<NotificationId>>, key: Key): Option<Option<NotificationId>> {
    if key in occurrences then Some(occurrences[key]) else None
  }

  /** What the run can do with the candidate in its hands. */
  predicate CanGoOn(s: State, r: RunId, id: NotificationId)
    requires r in s.runs && InFlight(s.runs[r])
  {
    match s.runs[r].phase
    case Reserved(_) => Enabled(s, Create(r, id)) && Enabled(s, Invalid(r)) && Enabled(s, NoConsent(r))
    case Drafted(_, _) => Enabled(s, Bind(r))
    case Bound(_, _) => Enabled(s, Commit(r))
  }

  /**
   * Runs start at any time and go on by themselves. Only a run that wants a key which another one is
   * writing has to wait, and that other one does not wait in turn.
   */
  lemma RunsWaitOnlyForTheirKey(s: State, r: RunId, key: Key, dryRun: bool, id: NotificationId)
    requires id !in s.used
    ensures r !in s.runs ==> Enabled(s, Start(r, dryRun))
    ensures r in s.runs && InFlight(s.runs[r]) ==> CanGoOn(s, r, id)
    ensures r in s.runs && s.runs[r].phase.Idle? && !Enabled(s, Candidate(r, key)) ==>
              && !s.runs[r].dryRun
              && exists o :: o in s.runs && o != r && InFlight(s.runs[o]) && s.runs[o].phase.key == key
                             && CanGoOn(s, o, id)
  {
  }

  /** A run may die at any point. Nothing it had not committed remains, and another run can take its key at once. */
  lemma DeadRunIsReplaced(states: seq<State>, steps: seq<Step>, i: nat, r: RunId, o: RunId)
    requires Trace(states, steps) && i < |states| && r in states[i].runs && !states[i].runs[r].phase.Dead?
    ensures Enabled(states[i], Crash(r))
    ensures var s' := Next(states[i], Crash(r));
            && s'.occurrences == states[i].occurrences && StoredNotifications(s') == StoredNotifications(states[i])
            && (InFlight(states[i].runs[r]) && o in s'.runs && s'.runs[o].phase.Idle? && !s'.runs[o].dryRun ==>
                  var key := states[i].runs[r].phase.key;
                  Enabled(s', Candidate(o, key)) && Next(s', Candidate(o, key)).runs[o].phase == Reserved(key))
  {
    TraceKeepsInv(states, steps, i);
    if InFlight(states[i].runs[r]) { UnfinishedKeyIsFree(states[i], Crash(r)); }
  }

  /** A user may delete any stored notification at any time, which takes nothing else away. */
  lemma UserMayDelete(s: State, id: NotificationId, other: NotificationId)
    requires id in s.created && id !in s.deleted && other != id
    ensures Enabled(s, DeleteNotification(id))
    ensures var s' := Next(s, DeleteNotification(id));
            && id !in StoredNotifications(s') && s'.occurrences == s.occurrences && s'.runs == s.runs
            && (other in StoredNotifications(s') <==> other in StoredNotifications(s))
  {
    assert id in StoredNotifications(s);
  }

  /** One that fails, lacks consent or dies with its run leaves its key free to retry. */
  lemma UnfinishedKeyIsFree(s: State, step: Step)
    requires Exclusive(s) && Enabled(s, step) && (step.Invalid? || step.NoConsent? || step.Crash?)
    requires InFlight(s.runs[step.r])
    ensures var key := s.runs[step.r].phase.key;
            && key !in Next(s, step).occurrences
            && forall o :: o in Next(s, step).runs ==> !Writing(Next(s, step).runs[o], key)
  {
    var key := s.runs[step.r].phase.key;
    assert Uncommitted(s, s.runs[step.r]);
    forall o | o in Next(s, step).runs && o != step.r ensures !Writing(Next(s, step).runs[o], key) {
      assert Apart(s.runs[o], s.runs[step.r]);
    }
  }
}
