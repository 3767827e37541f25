/**
 * The scheduler's command and its protocol: a candidate or a whole rule processed with no other run at
 * work goes as the command says, and in a crowd every commit still writes the command's two rows.
 */
module SchedulerRuns {
  import opened Prelude
  import opened SchedulerProtocol
  import U = SchedulerUseCase

  function TablesOf(s: State): U.Tables {
    U.Tables(s.occurrences, map n | n in StoredNotifications(s) :: s.created[n].key)
  }

  lemma StoredTablesMatch(s: State)
    requires OneToOne(s)
    ensures U.Matched(TablesOf(s))
  {
    var t := TablesOf(s);
    forall k ensures U.OccurrenceMatched(t, k) {
      if k in s.occurrences { assert s.occurrences[k].value in s.created; }
    }
    forall n ensures U.NotificationMatched(t, n) {
      if n in t.notifications { assert s.created[n].key in s.occurrences; }
    }
  }

  // ---- In a crowd ------------------------------------------------------------------------------------

  /** Whatever other runs are doing, a commit sends one notification as the command does. */
  lemma CommitRefines(s: State, r: RunId)
    requires Inv(s) && Enabled(s, Commit(r))
    ensures var key, id := s.runs[r].phase.key, s.runs[r].phase.id;
            && TablesOf(Next(s, Commit(r))) == U.WithNotification(TablesOf(s), key, id)
            && U.SentOne(TablesOf(s), TablesOf(Next(s, Commit(r))), key)
  {
    var key, id := s.runs[r].phase.key, s.runs[r].phase.id;
    assert Uncommitted(s, s.runs[r]);
    CommittedTables(s, r);
    StoredTablesMatch(s);
    NotCreatedIsNew(s, id);
    U.NotificationSendsOne(TablesOf(s), key, id);
  }

  lemma CommittedTables(s: State, r: RunId)
    requires OneToOne(s) && Enabled(s, Commit(r)) && s.runs[r].phase.id !in s.created
    ensures TablesOf(Next(s, Commit(r))) == U.WithNotification(TablesOf(s), s.runs[r].phase.key, s.runs[r].phase.id)
  {
    var s' := Next(s, Commit(r));
    assert s'.deleted == s.deleted && s.runs[r].phase.id !in s.deleted;
    assert StoredNotifications(s').Keys == StoredNotifications(s).Keys + {s.runs[r].phase.id};
    assert TablesOf(s').notifications ==
           TablesOf(s).notifications[s.runs[r].phase.id := s.runs[r].phase.key];
  }

  lemma NotCreatedIsNew(s: State, id: NotificationId)
    requires OneToOne(s) && id !in s.created
    ensures U.IsNew(TablesOf(s), id)
  {
  }

  // ---- Alone -----------------------------------------------------------------------------------------

  /** The steps can be taken one after the other from `s`, and end in `t`. */
  predicate Leads(s: State, steps: seq<Step>, t: State)
    decreases |steps|
  {
    if steps == [] then t == s else Enabled(s, steps[0]) && Leads(Next(s, steps[0]), steps[1..], t)
  }

  lemma {:induction false} LeadsOn(s: State, a: seq<Step>, t: State, b: seq<Step>, u: State)
    requires Leads(s, a, t) && Leads(t, b, u)
    ensures Leads(s, a + b, u)
    decreases |a|
  {
    if a == [] {
      assert a + b == b;
    } else {
      LeadsOn(Next(s, a[0]), a[1..], t, b, u);
      assert (a + b)[0] == a[0] && (a + b)[1..] == a[1..] + b;
    }
  }

  lemma {:induction false} LeadsKeepsInv(s: State, steps: seq<Step>, t: State)
    requires Inv(s) && Leads(s, steps, t)
    ensures Inv(t)
    decreases |steps|
  {
    if steps != [] {
      InvKept(s, steps[0]);
      LeadsKeepsInv(Next(s, steps[0]), steps[1..], t);
    }
  }

  lemma LeadsOne(s: State, a: Step)
    requires Enabled(s, a)
    ensures Leads(s, [a], Next(s, a))
  {
    assert [a][1..] == [];
  }

  lemma LeadsTwo(s: State, a: Step, b: Step)
    requires Enabled(s, a) && Enabled(Next(s, a), b)
    ensures Leads(s, [a, b], Next(Next(s, a), b))
  {
    LeadsOne(Next(s, a), b);
    assert [a, b][1..] == [b];
  }

  /** What a run does for one candidate, by the reply of the notification module. */
  function CandidateSteps(s: State, r: RunId, key: Key, reply: U.Reply, id: NotificationId): seq<Step>
    requires r in s.runs
  {
    if s.runs[r].dryRun || key in s.occurrences then [Candidate(r, key)]
    else match reply
      case Saved => [Candidate(r, key), Create(r, id)] + [Bind(r), Commit(r)]
      case Invalidated => [Candidate(r, key), Invalid(r)]
      case ConsentMissing => [Candidate(r, key), NoConsent(r)]
      case Raised => [Candidate(r, key), Crash(r)]
  }

  /** The run is between candidates, and nobody else is writing this one. */
  ghost predicate Ready(s: State, r: RunId, key: Key) {
    r in s.runs && s.runs[r].phase.Idle? && KeyFree(s, r, key)
  }

  /** Where the command leaves run and tables. */
  ghost predicate EndsAs(s: State, r: RunId, key: Key, id: NotificationId, action: Option<Action>, t: State)
    requires r in s.runs
  {
    && r in t.runs && t.runs[r].dryRun == s.runs[r].dryRun
    && (action.None? ==> t.runs[r].phase.Dead?)
    && (action.Some? ==> t.runs[r].phase.Idle? && t.runs[r].totals == Add(s.runs[r].totals, action.value))
    && TablesOf(t) == (if action == Some(Created) then U.WithNotification(TablesOf(s), key, id) else TablesOf(s))
    && (action == Some(Created) ==> U.SentOne(TablesOf(s), TablesOf(t), key))
    && t.used <= s.used + {id}
    && forall o :: o != r ==> (o in t.runs <==> o in s.runs) && (o in s.runs ==> t.runs[o] == s.runs[o])
  }

  /**
   * With nobody else at the candidate, the protocol's steps for each reply can be taken, and they leave
   * the action, the totals and the tables of the command.
   */
  lemma CreateAloneRefines(s: State, r: RunId, key: Key, reply: U.Reply, id: NotificationId) returns (t: State)
    requires Inv(s) && Ready(s, r, key) && id !in s.used
    ensures Leads(s, CandidateSteps(s, r, key, reply, id), t)
    ensures EndsAs(s, r, key, id, U.ActionOn(TablesOf(s), key, reply, s.runs[r].dryRun), t)
  {
    var first := Candidate(r, key);
    if s.runs[r].dryRun || key in s.occurrences {
      LeadsOne(s, first);
      t := Next(s, first);
    } else if reply.Saved? {
      t := SavedAloneRefines(s, r, key, id);
    } else {
      var second := CandidateSteps(s, r, key, reply, id)[1];
      LeadsTwo(s, first, second);
      t := Next(Next(s, first), second);
    }
  }

  function DraftedFor(s: State, r: RunId, key: Key, id: NotificationId): State
    requires r in s.runs
  {
    Becomes(s, r, Drafted(key, id)).(used := s.used + {id})
  }

  function BoundFor(s: State, r: RunId, key: Key, id: NotificationId): State
    requires r in s.runs
  {
    Becomes(s, r, Bound(key, id)).(used := s.used + {id})
  }

  lemma DraftMoves(s: State, r: RunId, key: Key, id: NotificationId)
    requires Ready(s, r, key) && id !in s.used && !s.runs[r].dryRun && key !in s.occurrences
    ensures Leads(s, [Candidate(r, key), Create(r, id)], DraftedFor(s, r, key, id))
  {
    var reserved := Becomes(s, r, Reserved(key));
    assert Enabled(s, Candidate(r, key)) && Next(s, Candidate(r, key)) == reserved;
    assert Enabled(reserved, Create(r, id)) && Next(reserved, Create(r, id)) == DraftedFor(s, r, key, id);
    LeadsTwo(s, Candidate(r, key), Create(r, id));
  }

  lemma BindMoves(s: State, r: RunId, key: Key, id: NotificationId)
    requires r in s.runs
    ensures var drafted, bound := DraftedFor(s, r, key, id), BoundFor(s, r, key, id);
            && Enabled(drafted, Bind(r)) && Next(drafted, Bind(r)) == bound && Enabled(bound, Commit(r))
            && Leads(drafted, [Bind(r), Commit(r)], Next(bound, Commit(r)))
  {
    var drafted, bound := DraftedFor(s, r, key, id), BoundFor(s, r, key, id);
    assert Next(drafted, Bind(r)) == bound;
    LeadsTwo(drafted, Bind(r), Commit(r));
  }

  lemma SavedAloneRefines(s: State, r: RunId, key: Key, id: NotificationId) returns (t: State)
    requires Inv(s) && Ready(s, r, key) && id !in s.used && !s.runs[r].dryRun && key !in s.occurrences
    ensures Leads(s, CandidateSteps(s, r, key, U.Saved, id), t)
    ensures EndsAs(s, r, key, id, Some(Created), t)
  {
    var drafted, bound := DraftedFor(s, r, key, id), BoundFor(s, r, key, id);
    DraftMoves(s, r, key, id);
    BindMoves(s, r, key, id);
    t := Next(bound, Commit(r));
    LeadsOn(s, [Candidate(r, key), Create(r, id)], drafted, [Bind(r), Commit(r)], t);
    LeadsKeepsInv(s, [Candidate(r, key), Create(r, id)], drafted);
    InvKept(drafted, Bind(r));
    CommitEndsAs(s, r, key, id);
  }

  lemma CommitEndsAs(s: State, r: RunId, key: Key, id: NotificationId)
    requires r in s.runs && Inv(BoundFor(s, r, key, id))
    ensures EndsAs(s, r, key, id, Some(Created), Next(BoundFor(s, r, key, id), Commit(r)))
  {
    CommitRefines(BoundFor(s, r, key, id), r);
    assert TablesOf(BoundFor(s, r, key, id)) == TablesOf(s);
  }

  // ---- A whole rule, alone -----------------------------------------------------------------------------

  ghost predicate Alone(s: State, r: RunId) {
    r in s.runs && s.runs[r].phase.Idle? && forall o :: o in s.runs && o != r ==> !InFlight(s.runs[o])
  }

  /** The ids from `i` on were never used. */
  ghost predicate NewFrom(s: State, ids: seq<NotificationId>, i: nat) {
    forall k :: i <= k < |ids| ==> ids[k] !in s.used
  }

  ghost predicate Distinct(ids: seq<NotificationId>) {
    forall i, j :: 0 <= i < j < |ids| ==> ids[i] != ids[j]
  }

  /** From `s` the run processes its first `i` candidates one after the other, and is then at `t`. */
  ghost predicate GoesThrough(s: State, r: RunId, keys: seq<Key>, creator: U.Creator, ids: seq<NotificationId>,
                              i: nat, t: State)
    requires i <= |keys| == |ids|
    decreases i
  {
    if i == 0 then t == s
    else exists u: State ::
      && r in u.runs && GoesThrough(s, r, keys, creator, ids, i - 1, u)
      && Leads(u, CandidateSteps(u, r, keys[i - 1], creator(keys[i - 1]), ids[i - 1]), t)
  }

  /** Where the command is after `i` candidates, none of which raised. */
  ghost predicate ThroughAlone(s: State, r: RunId, keys: seq<Key>, creator: U.Creator, i: nat, sum: Totals, t: State)
    requires r in s.runs && i <= |keys|
  {
    && U.ThroughKeys(keys, i, creator, s.runs[r].dryRun, sum, TablesOf(s), TablesOf(t))
    && Alone(t, r) && t.runs[r] == Run(s.runs[r].dryRun, Idle, U.Sum(s.runs[r].totals, sum))
  }

  lemma AloneIsReady(s: State, r: RunId, key: Key)
    requires Alone(s, r)
    ensures Ready(s, r, key)
  {
  }

  lemma StaysAlone(u: State, r: RunId, key: Key, id: NotificationId, action: Action, t: State)
    requires Alone(u, r) && EndsAs(u, r, key, id, Some(action), t)
    ensures Alone(t, r) && t.runs[r] == Run(u.runs[r].dryRun, Idle, Add(u.runs[r].totals, action))
  {
  }

  lemma IdsLeft(u: State, t: State, ids: seq<NotificationId>, i: nat)
    requires i < |ids| && Distinct(ids) && NewFrom(u, ids, i) && t.used <= u.used + {ids[i]}
    ensures NewFrom(t, ids, i + 1)
  {
  }

  /** The reply that the command has for the next candidate is an action. */
  lemma NextHasAction(s: State, r: RunId, keys: seq<Key>, creator: U.Creator, i: nat, sum: Totals, u: State)
    returns (action: Action)
    requires r in s.runs && i < |keys| && ThroughAlone(s, r, keys, creator, i, sum, u)
    requires s.runs[r].dryRun || !U.RaisesFor(TablesOf(s), keys[i], creator)
    ensures U.ActionOn(TablesOf(u), keys[i], creator(keys[i]), s.runs[r].dryRun) == Some(action)
  {
    action := U.ActionOn(TablesOf(u), keys[i], creator(keys[i]), s.runs[r].dryRun).value;
  }

  lemma NextCandidateAlone(s: State, r: RunId, keys: seq<Key>, creator: U.Creator, i: nat, sum: Totals, u: State,
                           id: NotificationId, action: Action, t: State)
    requires r in s.runs && i < |keys| && ThroughAlone(s, r, keys, creator, i, sum, u)
    requires U.ActionOn(TablesOf(u), keys[i], creator(keys[i]), s.runs[r].dryRun) == Some(action)
    requires EndsAs(u, r, keys[i], id, Some(action), t)
    ensures ThroughAlone(s, r, keys, creator, i + 1, Add(sum, action), t)
  {
    assert if action.Created? then U.SentOne(TablesOf(u), TablesOf(t), keys[i]) else TablesOf(t) == TablesOf(u);
    U.OneMoreCandidate(keys, i, creator, s.runs[r].dryRun, sum, TablesOf(s), TablesOf(u), TablesOf(t), action);
    StaysAlone(u, r, keys[i], id, action, t);
  }

  lemma StepThrough(s: State, r: RunId, keys: seq<Key>, creator: U.Creator, ids: seq<NotificationId>, i: nat,
                    u: State, t: State)
    requires i < |keys| == |ids| && r in u.runs && GoesThrough(s, r, keys, creator, ids, i, u)
    requires Leads(u, CandidateSteps(u, r, keys[i], creator(keys[i]), ids[i]), t)
    ensures GoesThrough(s, r, keys, creator, ids, i + 1, t)
  {
  }

  /**
   * A run that is alone processes the first `i` candidates of a rule as the command does, if the
   * notification module raises for none of them: the same totals, the same occurrences sent.
   */
  lemma {:induction false} RuleAloneRefines(s: State, r: RunId, keys: seq<Key>, creator: U.Creator,
                                            ids: seq<NotificationId>, i: nat)
    returns (sum: Totals, t: State)
    requires Inv(s) && Alone(s, r) && i <= |keys| == |ids| && Distinct(ids) && NewFrom(s, ids, 0)
    requires s.runs[r].dryRun || U.NoneRaised(keys[..i], creator, TablesOf(s))
    ensures GoesThrough(s, r, keys, creator, ids, i, t) && ThroughAlone(s, r, keys, creator, i, sum, t)
    ensures Inv(t) && NewFrom(t, ids, i)
  {
    if i == 0 {
      t, sum := s, ZERO;
    } else {
      assert keys[..i] == keys[..i - 1] + [keys[i - 1]];
      var before, u := RuleAloneRefines(s, r, keys, creator, ids, i - 1);
      var action := NextHasAction(s, r, keys, creator, i - 1, before, u);
      AloneIsReady(u, r, keys[i - 1]);
      t := CreateAloneRefines(u, r, keys[i - 1], creator(keys[i - 1]), ids[i - 1]);
      NextCandidateAlone(s, r, keys, creator, i - 1, before, u, ids[i - 1], action, t);
      LeadsKeepsInv(u, CandidateSteps(u, r, keys[i - 1], creator(keys[i - 1]), ids[i - 1]), t);
      IdsLeft(u, t, ids, i - 1);
      StepThrough(s, r, keys, creator, ids, i - 1, u, t);
      sum := Add(before, action);
    }
  }

  lemma NextRaises(s: State, r: RunId, keys: seq<Key>, creator: U.Creator, i: nat, sum: Totals, u: State)
    requires r in s.runs && i < |keys| && ThroughAlone(s, r, keys, creator, i, sum, u) && !s.runs[r].dryRun
    requires U.RaisesFor(TablesOf(s), keys[i], creator)
    ensures U.ActionOn(TablesOf(u), keys[i], creator(keys[i]), false) == None
    ensures U.StoppedAtKey(keys, creator, TablesOf(s), TablesOf(u))
  {
    assert U.SentExactly(keys[..i], creator, TablesOf(s), TablesOf(u));
  }

  /** At the first candidate for which the module raises, the run dies and the tables stay as they are. */
  lemma RuleAloneStops(s: State, r: RunId, keys: seq<Key>, creator: U.Creator, ids: seq<NotificationId>, i: nat)
    returns (t: State)
    requires Inv(s) && Alone(s, r) && i < |keys| == |ids| && Distinct(ids) && NewFrom(s, ids, 0)
    requires !s.runs[r].dryRun && U.NoneRaised(keys[..i], creator, TablesOf(s))
    requires U.RaisesFor(TablesOf(s), keys[i], creator)
    ensures GoesThrough(s, r, keys, creator, ids, i + 1, t)
    ensures r in t.runs && t.runs[r].phase.Dead? && U.StoppedAtKey(keys, creator, TablesOf(s), TablesOf(t))
  {
    var sum, u := RuleAloneRefines(s, r, keys, creator, ids, i);
    AloneIsReady(u, r, keys[i]);
    NextRaises(s, r, keys, creator, i, sum, u);
    t := CreateAloneRefines(u, r, keys[i], creator(keys[i]), ids[i]);
    StepThrough(s, r, keys, creator, ids, i, u, t);
  }
}
