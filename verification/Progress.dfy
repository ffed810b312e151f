/** No schedule deadlocks, and every reachable state can be run to completion. */
module Progress {
  import opened Prelude
  import opened Pricing
  import opened Orders
  import opened Baskets
  import opened Checkouts
  import opened Ledger
  import opened Interleaving
  import opened Serialisability

  /** The unfinished calls waiting for something beyond a given row. */
  ghost function WaitingBeyond(txns: map<nat, Txn>, r: Row): set<nat> {
    set i | i in txns && Wants(txns[i]).Some? && Before(r, Wants(txns[i]).value)
  }

  lemma BeforeIsStrictOrder(a: Row, b: Row, c: Row)
    ensures !Before(a, a)
    ensures Before(a, b) && Before(b, c) ==> Before(a, c)
  {
  }

  /** What a waiting transaction holds comes before what it waits for. */
  lemma HeldBeforeWanted(cfg: Settings, tables: Tables, clock: Time, t: Txn, r: Row)
    requires TxnOk(cfg, tables, clock, t) && r in t.held && Wants(t).Some?
    ensures Before(r, Wants(t).value)
  {
    if t.phase == Locking {
      assert t.todo[0] == Wants(t).value;
    }
  }

  /** Following the holders of wanted locks upward reaches a transaction that can step. */
  lemma {:induction false} SomeoneCanStep(cfg: Settings, opening: Tables, w: World, i: nat) returns (k: nat)
    requires WorldOk(cfg, opening, w) && i in w.txns && !Finished(w.txns[i])
    ensures k in w.txns && Enabled(w, k)
    decreases if Wants(w.txns[i]).Some? then 1 else 0,
              if Wants(w.txns[i]).Some? then WaitingBeyond(w.txns, Wants(w.txns[i]).value) else {}
  {
    if Enabled(w, i) {
      k := i;
    } else {
      var wanted := Wants(w.txns[i]).value;
      var holder :| holder in w.txns && holder != i && wanted in w.txns[holder].held;
      assert TxnOk(cfg, w.tables, w.clock, w.txns[holder]);
      if Wants(w.txns[holder]).Some? {
        var next := Wants(w.txns[holder]).value;
        HeldBeforeWanted(cfg, w.tables, w.clock, w.txns[holder], wanted);
        forall j | j in WaitingBeyond(w.txns, next) ensures j in WaitingBeyond(w.txns, wanted) {
          BeforeIsStrictOrder(wanted, next, Wants(w.txns[j]).value);
        }
        BeforeIsStrictOrder(next, next, next);
        assert holder in WaitingBeyond(w.txns, wanted) && holder !in WaitingBeyond(w.txns, next);
      }
      k := SomeoneCanStep(cfg, opening, w, holder);
    }
  }

  // ------------------------------------------------------------------------
  // Each step brings its call closer to the end
  // ------------------------------------------------------------------------

  const LEVELS: nat := 7

  /** How far along a call is: higher levels are earlier. */
  function Stage(t: Txn): nat {
    match t.phase
    case Start => 6
    case Locking => if OnOrderRow(t.job) && t.order.None? then 5 else if t.todo != [] then 4 else 3
    case Inserting => 2
    case Prepared => 1
    case KeyLost => 1
    case Done(_) => 0
  }

  /** The weight a call puts on one level: while locking, one for each row still to lock. */
  function Load(t: Txn, level: nat): nat {
    if level != Stage(t) || level == 0 then 0
    else if level == 4 then |t.todo|
    else 1
  }

  ghost function Weight(txns: map<nat, Txn>, level: nat): nat
    decreases |txns|
  {
    if txns == map[] then 0
    else
      var i :| i in txns;
      assert |txns - {i}| < |txns| by { assert txns.Keys == (txns - {i}).Keys + {i}; }
      Load(txns[i], level) + Weight(txns - {i}, level)
  }

  lemma {:induction false} WeightSplit(txns: map<nat, Txn>, k: nat, level: nat)
    requires k in txns
    ensures Weight(txns, level) == Load(txns[k], level) + Weight(txns - {k}, level)
    decreases |txns|
  {
    var i :| i in txns && Weight(txns, level) == Load(txns[i], level) + Weight(txns - {i}, level);
    if i != k {
      assert txns.Keys == (txns - {i}).Keys + {i} == (txns - {k}).Keys + {k};
      WeightSplit(txns - {i}, k, level);
      WeightSplit(txns - {k}, i, level);
      assert (txns - {i}) - {k} == (txns - {k}) - {i};
    }
  }

  lemma WeightSet(txns: map<nat, Txn>, k: nat, t: Txn, level: nat)
    requires k in txns
    ensures Weight(txns[k := t], level) == Weight(txns, level) - Load(txns[k], level) + Load(t, level)
  {
    WeightSplit(txns, k, level);
    WeightSplit(txns[k := t], k, level);
    assert txns[k := t] - {k} == txns - {k};
  }

  /** u is further along than t: a lower level, or fewer rows to lock on the same one. */
  predicate Closer(u: Txn, t: Txn) {
    Stage(u) < Stage(t) || (Stage(u) == Stage(t) == 4 && |u.todo| < |t.todo|)
  }

  /** The commit step ends its call. */
  lemma CommitIsProgress(cfg: Settings, w: World, i: nat)
    requires i in w.txns && w.txns[i].phase == Prepared && Enabled(w, i)
    ensures var next := Stepped(cfg, w, i);
      next.txns == w.txns[i := next.txns[i]] && next.txns[i].phase.Done?
  {
    var t := w.txns[i];
    var ended := if Perform(cfg, View(t), t.job, t.now).Success? then End(t, Committed)
                 else End(t, Refused(Perform(cfg, View(t), t.job, t.now).error));
    assert Stepped(cfg, w, i).txns == w.txns[i := ended];
  }

  /** A step moves its own call closer to the end, and no other. */
  lemma StepIsProgress(cfg: Settings, opening: Tables, w: World, i: nat)
    requires WorldOk(cfg, opening, w) && i in w.txns && Enabled(w, i)
    ensures var next := Stepped(cfg, w, i);
      && next.txns == w.txns[i := next.txns[i]]
      && Closer(next.txns[i], w.txns[i])
  {
    var t := w.txns[i];
    assert TxnOk(cfg, w.tables, w.clock, t);
    if t.phase == Prepared {
      CommitIsProgress(cfg, w, i);
    } else {
      PrivateStepIsProgress(cfg, w, i);
    }
  }

  lemma PrivateStepIsProgress(cfg: Settings, w: World, i: nat)
    requires i in w.txns && Enabled(w, i) && w.txns[i].phase != Prepared && TxnOk(cfg, w.tables, w.clock, w.txns[i])
    ensures var next := Stepped(cfg, w, i);
      && next.txns == w.txns[i := next.txns[i]]
      && Closer(next.txns[i], w.txns[i])
  {
    var t := w.txns[i];
    match t.phase
    case Start =>
      StartIsProgress(w, t);
      assert Stepped(cfg, w, i).txns == w.txns[i := Started(w, t)];
    case Locking =>
      if t.todo != [] {
        LockingIsProgress(cfg, w, t);
        assert Stepped(cfg, w, i).txns == w.txns[i := Locked(w, t)];
      } else {
        DecidingIsProgress(cfg, w, t);
        assert Stepped(cfg, w, i).txns == w.txns[i := Evaluated(cfg, w, t)];
      }
    case Inserting =>
      assert Decided(cfg, w.tables, t);
      InsertingIsProgress(w, t);
      assert Stepped(cfg, w, i).txns == w.txns[i := Inserted(w, t)];
    case KeyLost => ReReadIsProgress(cfg, w, i);
  }

  lemma InsertingIsProgress(w: World, t: Txn)
    requires t.phase == Inserting && t.job.PlaceJob?
    ensures Closer(Inserted(w, t), t)
  {
  }

  lemma ReReadIsProgress(cfg: Settings, w: World, i: nat)
    requires i in w.txns && Enabled(w, i) && w.txns[i].phase == KeyLost && TxnOk(cfg, w.tables, w.clock, w.txns[i])
    ensures var next := Stepped(cfg, w, i);
      && next.txns == w.txns[i := next.txns[i]]
      && Closer(next.txns[i], w.txns[i])
  {
    assert Reports(w.tables, w.txns[i]);
  }

  lemma StartIsProgress(w: World, t: Txn)
    requires t.phase == Start
    ensures Closer(Started(w, t), t)
  {
  }

  lemma DecidingIsProgress(cfg: Settings, w: World, t: Txn)
    requires TxnOk(cfg, w.tables, w.clock, t) && t.phase == Locking && t.todo == []
    ensures Closer(Evaluated(cfg, w, t), t)
  {
    assert Covered(w.tables, t);
  }

  lemma LockingIsProgress(cfg: Settings, w: World, t: Txn)
    requires TxnOk(cfg, w.tables, w.clock, t) && t.phase == Locking && t.todo != []
    ensures Closer(Locked(w, t), t)
  {
    assert !t.todo[0].KeyRow?;
    if OnOrderRow(t.job) && t.order.None? {
      assert t.todo[0] == OrderRow(t.job.order);
    } else {
      assert !t.todo[0].OrderRow?;
    }
  }

  ghost predicate Lighter(a: map<nat, Txn>, b: map<nat, Txn>, level: nat) {
    && Weight(a, level) < Weight(b, level)
    && forall above :: level < above < LEVELS ==> Weight(a, above) == Weight(b, above)
  }

  /** A step lightens its level and leaves every earlier level's weight alone. */
  lemma StepLightens(cfg: Settings, opening: Tables, w: World, i: nat)
    requires WorldOk(cfg, opening, w) && i in w.txns && Enabled(w, i)
    ensures 1 <= Stage(w.txns[i]) < LEVELS
    ensures Lighter(Stepped(cfg, w, i).txns, w.txns, Stage(w.txns[i]))
  {
    var next := Stepped(cfg, w, i);
    StepIsProgress(cfg, opening, w, i);
    forall level | Stage(w.txns[i]) <= level < LEVELS
      ensures Weight(next.txns, level) == Weight(w.txns, level) - Load(w.txns[i], level) + Load(next.txns[i], level)
    {
      WeightSet(w.txns, i, next.txns[i], level);
    }
  }

  lemma ScheduleCons(cfg: Settings, w: World, first: Action, rest: seq<Action>)
    requires Act(cfg, w, first).Some?
    ensures Schedule(cfg, w, [first] + rest) == Schedule(cfg, Act(cfg, w, first).value, rest)
    decreases |rest|
  {
    var all := [first] + rest;
    if rest == [] {
      assert all[..0] == [];
    } else {
      ScheduleCons(cfg, w, first, rest[..|rest| - 1]);
      assert all[..|all| - 1] == [first] + rest[..|rest| - 1];
    }
  }

  /** Lighter on one level and equal above is less in the order the levels are compared. */
  lemma Lexicographic(a: map<nat, Txn>, b: map<nat, Txn>, level: nat)
    requires 1 <= level < LEVELS && Lighter(a, b, level)
    ensures Weight(a, 6) < Weight(b, 6) || (Weight(a, 6) == Weight(b, 6)
      && (Weight(a, 5) < Weight(b, 5) || (Weight(a, 5) == Weight(b, 5)
      && (Weight(a, 4) < Weight(b, 4) || (Weight(a, 4) == Weight(b, 4)
      && (Weight(a, 3) < Weight(b, 3) || (Weight(a, 3) == Weight(b, 3)
      && (Weight(a, 2) < Weight(b, 2) || (Weight(a, 2) == Weight(b, 2) && Weight(a, 1) < Weight(b, 1))))))))))
  {
  }

  ghost predicate AllFinished(w: World) {
    forall i :: i in w.txns ==> Finished(w.txns[i])
  }

  /** While a call is unfinished, some call can step, and its step is less in that order. */
  lemma OneMoreStep(cfg: Settings, opening: Tables, w: World) returns (k: nat)
    requires WorldOk(cfg, opening, w) && !AllFinished(w)
    ensures k in w.txns && Enabled(w, k) && WorldOk(cfg, opening, Stepped(cfg, w, k))
    ensures 1 <= Stage(w.txns[k]) < LEVELS && Lighter(Stepped(cfg, w, k).txns, w.txns, Stage(w.txns[k]))
  {
    var i :| i in w.txns && !Finished(w.txns[i]);
    k := SomeoneCanStep(cfg, opening, w, i);
    StepKeepsOk(cfg, opening, w, k);
    StepLightens(cfg, opening, w, k);
  }

  /** Every sound world can be run, by letting unblocked calls proceed, until all have finished. */
  lemma {:induction false} RunsToCompletion(cfg: Settings, opening: Tables, w: World) returns (actions: seq<Action>)
    requires WorldOk(cfg, opening, w)
    ensures Schedule(cfg, w, actions).Some? && AllFinished(Schedule(cfg, w, actions).value)
    ensures forall a :: a in actions ==> a.Go?
    decreases Weight(w.txns, 6), Weight(w.txns, 5), Weight(w.txns, 4),
              Weight(w.txns, 3), Weight(w.txns, 2), Weight(w.txns, 1)
  {
    if AllFinished(w) {
      actions := [];
    } else {
      var k := OneMoreStep(cfg, opening, w);
      Lexicographic(Stepped(cfg, w, k).txns, w.txns, Stage(w.txns[k]));
      var rest := RunsToCompletion(cfg, opening, Stepped(cfg, w, k));
      actions := [Go(k)] + rest;
      assert Act(cfg, w, Go(k)) == Some(Stepped(cfg, w, k));
      ScheduleCons(cfg, w, Go(k), rest);
    }
  }

  /** Deadlock freedom: after any schedule, while some call is unfinished, some call can step,
      and there is a way for every call to finish. */
  lemma NoScheduleDeadlocks(cfg: Settings, w: World, actions: seq<Action>)
    requires Opening(cfg, w) && Schedule(cfg, w, actions).Some?
    ensures var end := Schedule(cfg, w, actions).value;
      && ((exists i :: i in end.txns && !Finished(end.txns[i])) ==>
            exists k :: k in end.txns && Enabled(end, k) && Act(cfg, end, Go(k)).Some?)
      && (exists rest: seq<Action> :: Schedule(cfg, end, rest).Some? && AllFinished(Schedule(cfg, end, rest).value))
  {
    ScheduleKeepsOk(cfg, w, actions);
    var end := Schedule(cfg, w, actions).value;
    var rest := RunsToCompletion(cfg, w.tables, end);
    if i :| i in end.txns && !Finished(end.txns[i]) {
      var k := SomeoneCanStep(cfg, w.tables, end, i);
      assert Act(cfg, end, Go(k)).Some?;
    }
  }
}
