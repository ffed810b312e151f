/** What the interleaved calls report: a refusal is one the job alone would have met, a rollback was
    asked for, a commit is in the log, and a call with nobody in its way succeeds. */
module Answers {
  import opened Prelude
  import opened Pricing
  import opened Orders
  import opened Baskets
  import opened Checkouts
  import opened Ledger
  import opened Interleaving
  import opened Serialisability
  import opened Progress

  // ------------------------------------------------------------------------
  // A decision is made on everything the job looks at
  // ------------------------------------------------------------------------

  /** While locking, every product the job will look at has been read, is on the list, or is not
      there to be read. */
  ghost predicate ReadsEnough(tables: Tables, t: Txn) {
    t.phase == Locking ==>
      && (t.job.PlaceJob? ==>
            forall p :: p in Requested(t.job.c.items) && p in tables.products ==>
              p in t.products || ProductRow(p) in t.todo)
      && (t.job.PatchJob? ==>
            (t.todo == [] && t.job.product in t.products) || t.todo == [ProductRow(t.job.product)])
  }

  ghost predicate AllReadEnough(w: World) {
    forall i :: i in w.txns ==> ReadsEnough(w.tables, w.txns[i])
  }

  lemma StartReadsEnough(w: World, t: Txn)
    requires t.phase == Start
    ensures ReadsEnough(w.tables, Started(w, t))
  {
    if t.job.PlaceJob? && Started(w, t).phase == Locking {
      var ids := SortedIds(Requested(t.job.c.items).Keys);
      forall p | p in Requested(t.job.c.items) ensures ProductRow(p) in ProductRows(ids) {
        var k :| 0 <= k < |ids| && ids[k] == p;
        assert ProductRows(ids)[k] == ProductRow(p);
      }
    }
  }

  lemma LockReadsEnough(cfg: Settings, w: World, t: Txn)
    requires TxnOk(cfg, w.tables, w.clock, t) && ReadsEnough(w.tables, t) && t.phase == Locking && t.todo != []
    ensures ReadsEnough(w.tables, Locked(w, t))
  {
    var u := Locked(w, t);
    assert forall r :: r in t.todo ==> r == t.todo[0] || r in t.todo[1..];
    if t.job.PlaceJob? {
      assert t.todo[0].ProductRow?;
    }
  }

  lemma StepKeepsCatalogue(cfg: Settings, opening: Tables, w: World, i: nat)
    requires WorldOk(cfg, opening, w) && i in w.txns && Enabled(w, i)
    ensures Stepped(cfg, w, i).tables.products.Keys == w.tables.products.Keys
    ensures w.txns[i].phase != Prepared ==> Stepped(cfg, w, i).tables == w.tables
  {
    if w.txns[i].phase == Prepared {
      assert TxnOk(cfg, w.tables, w.clock, w.txns[i]);
      CommitFrame(cfg, w.tables, w.clock, w.txns[i]);
    }
  }

  lemma StepReadsEnough(cfg: Settings, opening: Tables, w: World, i: nat)
    requires WorldOk(cfg, opening, w) && AllReadEnough(w) && i in w.txns && Enabled(w, i)
    ensures AllReadEnough(Stepped(cfg, w, i))
  {
    var n, t := Stepped(cfg, w, i), w.txns[i];
    StepKeepsCatalogue(cfg, opening, w, i);
    StepKeepsJob(cfg, w, i);
    assert TxnOk(cfg, w.tables, w.clock, t);
    if t.phase == Start {
      StartReadsEnough(w, t);
    } else if t.phase == Locking && t.todo != [] {
      LockReadsEnough(cfg, w, t);
    }
    forall k | k in n.txns && k != i ensures ReadsEnough(n.tables, n.txns[k]) {
      assert n.txns[k] == w.txns[k] && ReadsEnough(w.tables, w.txns[k]);
    }
    OwnPhase(cfg, w, i);
  }

  /** A call that is still locking after its own step came from the list or the start. */
  lemma OwnPhase(cfg: Settings, w: World, i: nat)
    requires i in w.txns && Enabled(w, i)
    ensures var n := Stepped(cfg, w, i).txns;
      i in n && (n[i].phase == Locking ==>
        || (w.txns[i].phase == Start && n[i] == Started(w, w.txns[i]))
        || (w.txns[i].phase == Locking && w.txns[i].todo != [] && n[i] == Locked(w, w.txns[i])))
  {
    var t := w.txns[i];
    match t.phase
    case Start => assert Stepped(cfg, w, i).txns[i] == Started(w, t);
    case Locking =>
      if t.todo == [] {
        assert Stepped(cfg, w, i).txns[i] == Evaluated(cfg, w, t);
      } else {
        assert Stepped(cfg, w, i).txns[i] == Locked(w, t);
      }
    case Inserting => assert t.job.PlaceJob? ==> Stepped(cfg, w, i).txns[i] == Inserted(w, t);
    case Prepared =>
    case KeyLost =>
  }

  // ------------------------------------------------------------------------
  // Refusals
  // ------------------------------------------------------------------------

  predicate Agree(small: map<nat, Product>, large: map<nat, Product>, p: nat) {
    (p in small <==> p in large) && (p in small ==> small[p] == large[p])
  }

  /** Two catalogues that agree on every requested product draft the same answer. */
  lemma SameDraft(cfg: Settings, small: map<nat, Product>, large: map<nat, Product>, c: Checkout)
    requires forall p :: p in Requested(c.items) ==> Agree(small, large, p)
    ensures Drafted(cfg, small, c) == Drafted(cfg, large, c)
  {
    var wanted := Requested(c.items);
    SameReads(small, large, wanted, SortedIds(wanted.Keys));
  }

  lemma {:induction false} SameReads(small: map<nat, Product>, large: map<nat, Product>, wanted: map<nat, nat>,
                                     ids: seq<nat>)
    requires forall id :: id in ids ==> id in wanted && Agree(small, large, id)
    ensures LinesFor(small, wanted, ids) == LinesFor(large, wanted, ids)
    ensures ShortagesFor(small, wanted, ids) == ShortagesFor(large, wanted, ids)
    decreases |ids|
  {
    if ids != [] {
      SameReads(small, large, wanted, ids[..|ids| - 1]);
      assert Agree(small, large, ids[|ids| - 1]);
    }
  }

  ghost predicate HonestNow(cfg: Settings, w: World, t: Txn, e: Refusal) {
    Perform(cfg, w.tables, t.job, w.clock) == Failure(e)
  }

  lemma StartRefusal(cfg: Settings, w: World, t: Txn, e: Refusal)
    requires TxnOk(cfg, w.tables, w.clock, t) && t.phase == Start && Started(w, t).phase == Done(Refused(e))
    ensures HonestNow(cfg, w, t, e)
  {
    assert t.job.PlaceJob?;
  }

  lemma LockRefusal(cfg: Settings, w: World, t: Txn, e: Refusal)
    requires TxnOk(cfg, w.tables, w.clock, t) && ReadsEnough(w.tables, t) && t.phase == Locking && t.todo != []
    requires Locked(w, t).phase == Done(Refused(e))
    ensures HonestNow(cfg, w, t, e)
  {
    if t.todo[0].OrderRow? {
      assert OnOrderRow(t.job) && t.order.None? && t.todo == [OrderRow(t.job.order)];
      OrderRowRefusal(cfg, w.tables, t.job, w.clock);
    }
  }

  /** A job on an order fails as its guard does. */
  lemma OrderRowRefusal(cfg: Settings, t: Tables, j: Job, now: Time)
    requires OnOrderRow(j)
    ensures j.order !in t.orders ==> Perform(cfg, t, j, now) == Failure(NotFound)
    ensures j.order in t.orders && Guard(t.orders[j.order], j, now).Failure? ==>
      Perform(cfg, t, j, now) == Failure(Guard(t.orders[j.order], j, now).error)
    ensures j.order in t.orders && Guard(t.orders[j.order], j, now).Success? ==> Perform(cfg, t, j, now).Success?
  {
  }

  lemma PlaceDecision(cfg: Settings, w: World, t: Txn, e: Refusal)
    requires TxnOk(cfg, w.tables, w.clock, t) && ReadsEnough(w.tables, t) && t.phase == Locking && t.todo == []
    requires t.job.PlaceJob? && Perform(cfg, View(t), t.job, w.clock) == Failure(e)
    ensures HonestNow(cfg, w, t, e)
  {
    forall p | p in Requested(t.job.c.items) ensures Agree(View(t).products, w.tables.products, p) {
      assert p in w.tables.products ==> p in t.products;
      assert p in t.products ==> p in w.tables.products && w.tables.products[p] == t.products[p];
    }
    SameDraft(cfg, View(t).products, w.tables.products, t.job.c);
    assert t.order.None? && View(t).orders == map[];
  }

  lemma PatchDecision(cfg: Settings, w: World, t: Txn, e: Refusal)
    requires TxnOk(cfg, w.tables, w.clock, t) && ReadsEnough(w.tables, t) && t.phase == Locking && t.todo == []
    requires t.job.PatchJob? && Perform(cfg, View(t), t.job, w.clock) == Failure(e)
    ensures HonestNow(cfg, w, t, e)
  {
    assert t.job.product in t.products;
    assert w.tables.products[t.job.product] == t.products[t.job.product];
  }

  /** A job that holds its order row has passed its guard, and cannot fail any more. */
  lemma OrderDecision(cfg: Settings, w: World, t: Txn)
    requires TxnOk(cfg, w.tables, w.clock, t) && t.phase == Locking && t.todo == [] && OnOrderRow(t.job)
    ensures t.order.Some? && Perform(cfg, View(t), t.job, t.now).Success?
  {
    assert Covered(w.tables, t);
    assert View(t).orders == map[t.job.order := t.order.value];
    OrderRowRefusal(cfg, View(t), t.job, t.now);
  }

  lemma EvaluateRefusal(cfg: Settings, w: World, t: Txn, e: Refusal)
    requires TxnOk(cfg, w.tables, w.clock, t) && ReadsEnough(w.tables, t) && t.phase == Locking && t.todo == []
    requires Evaluated(cfg, w, t).phase == Done(Refused(e))
    ensures HonestNow(cfg, w, t, e)
  {
    if OnOrderRow(t.job) {
      OrderDecision(cfg, w, t);
    } else if t.job.PlaceJob? {
      assert t.order.None?;
      PlaceDecision(cfg, w, t, e);
    } else {
      assert t.job.PatchJob? && t.order.None?;
      PatchDecision(cfg, w, t, e);
    }
  }

  /** A step that ends in a refusal ends in the one the job alone would meet on the tables committed
      at that moment. */
  lemma RefusalAtStep(cfg: Settings, opening: Tables, w: World, i: nat, e: Refusal)
    requires WorldOk(cfg, opening, w) && AllReadEnough(w) && i in w.txns && Enabled(w, i)
    requires Stepped(cfg, w, i).txns[i].phase == Done(Refused(e))
    ensures HonestNow(cfg, w, w.txns[i], e)
  {
    var t := w.txns[i];
    assert TxnOk(cfg, w.tables, w.clock, t);
    match t.phase
    case Start => StartRefusal(cfg, w, t, e);
    case Locking =>
      assert ReadsEnough(w.tables, t);
      if t.todo == [] {
        EvaluateRefusal(cfg, w, t, e);
      } else {
        LockRefusal(cfg, w, t, e);
      }
    case Inserting => InsertNeverRefuses(cfg, w, i);
    case Prepared => CommitNeverRefuses(cfg, w, i);
    case KeyLost => ReReadIsOk(cfg, opening, w, i);
  }

  lemma InsertNeverRefuses(cfg: Settings, w: World, i: nat)
    requires i in w.txns && Enabled(w, i) && w.txns[i].phase == Inserting && TxnOk(cfg, w.tables, w.clock, w.txns[i])
    ensures !Stepped(cfg, w, i).txns[i].phase.Done?
  {
    assert Decided(cfg, w.tables, w.txns[i]);
  }

  lemma CommitNeverRefuses(cfg: Settings, w: World, i: nat)
    requires i in w.txns && Enabled(w, i) && w.txns[i].phase == Prepared && TxnOk(cfg, w.tables, w.clock, w.txns[i])
    ensures Stepped(cfg, w, i).txns[i].phase == Done(Committed)
    ensures Stepped(cfg, w, i).log == w.log + [Entry(w.txns[i].job, w.txns[i].now)]
  {
    assert Decided(cfg, w.tables, w.txns[i]);
  }

  // ------------------------------------------------------------------------
  // Over whole schedules
  // ------------------------------------------------------------------------

  lemma {:induction false} ScheduleReadsEnough(cfg: Settings, w: World, actions: seq<Action>)
    requires Opening(cfg, w) && Schedule(cfg, w, actions).Some?
    ensures AllReadEnough(Schedule(cfg, w, actions).value)
    decreases |actions|
  {
    if actions != [] {
      var init, last := actions[..|actions| - 1], actions[|actions| - 1];
      ScheduleReadsEnough(cfg, w, init);
      ScheduleKeepsOk(cfg, w, init);
      var mid := Schedule(cfg, w, init).value;
      match last
      case Go(i) => StepReadsEnough(cfg, w.tables, mid, i);
      case Abort(i) =>
      case Tick(d) =>
    }
  }

  /** Action n of a schedule, and the world it was taken in. */
  ghost predicate TakenIn(cfg: Settings, w: World, actions: seq<Action>, n: nat, a: Action, mid: World) {
    n < |actions| && actions[n] == a && Schedule(cfg, w, actions[..n]) == Some(mid)
  }

  /** At one of the call's own steps, while it was unfinished, its job alone would have been refused
      in the same way. */
  ghost predicate MetAlone(cfg: Settings, w: World, actions: seq<Action>, i: nat, e: Refusal) {
    exists n: nat, mid: World :: TakenIn(cfg, w, actions, n, Go(i), mid)
      && i in mid.txns && !Finished(mid.txns[i]) && HonestNow(cfg, mid, mid.txns[i], e)
  }

  lemma EarlierStillTaken(cfg: Settings, w: World, actions: seq<Action>, n: nat, a: Action, mid: World)
    requires actions != [] && TakenIn(cfg, w, actions[..|actions| - 1], n, a, mid)
    ensures TakenIn(cfg, w, actions, n, a, mid)
  {
    assert actions[..|actions| - 1][..n] == actions[..n];
  }

  /** Honesty of refusals: after any schedule of any mix of calls, whoever was refused met, at one of
      their own steps, committed tables on which their job run alone is refused in the same way. */
  lemma {:induction false} RefusalsAreHonest(cfg: Settings, w: World, actions: seq<Action>, end: World, i: nat,
                                             e: Refusal)
    requires Opening(cfg, w) && Schedule(cfg, w, actions) == Some(end)
    requires i in end.txns && end.txns[i].phase == Done(Refused(e))
    ensures MetAlone(cfg, w, actions, i, e)
    decreases |actions|
  {
    var init, last := actions[..|actions| - 1], actions[|actions| - 1];
    var mid := Schedule(cfg, w, init).value;
    ScheduleKeepsOk(cfg, w, init);
    if i in mid.txns && mid.txns[i].phase == Done(Refused(e)) {
      RefusalsAreHonest(cfg, w, init, mid, i, e);
      var n: nat, at: World :| TakenIn(cfg, w, init, n, Go(i), at)
        && i in at.txns && !Finished(at.txns[i]) && HonestNow(cfg, at, at.txns[i], e);
      EarlierStillTaken(cfg, w, actions, n, Go(i), at);
    } else {
      ScheduleReadsEnough(cfg, w, init);
      OnlyOwnStepRefuses(cfg, mid, last, i);
      RefusalAtStep(cfg, w.tables, mid, i, e);
      assert TakenIn(cfg, w, actions, |actions| - 1, Go(i), mid);
    }
  }

  /** Only its own step refuses a call, and only an abort rolls one back. */
  lemma OnlyOwnStepRefuses(cfg: Settings, w: World, a: Action, i: nat)
    requires Act(cfg, w, a).Some? && i in Act(cfg, w, a).value.txns
    ensures i in w.txns
    ensures var was, now := w.txns[i], Act(cfg, w, a).value.txns[i];
      now == was
      || (a == Go(i) && Enabled(w, i) && !Finished(was))
      || (a == Abort(i) && now == End(was, RolledBack))
  {
    if a.Go? {
      StepKeepsJob(cfg, w, a.i);
    }
  }

  lemma NeverRollsBackItself(cfg: Settings, w: World, i: nat)
    requires i in w.txns && Enabled(w, i)
    ensures Stepped(cfg, w, i).txns[i].phase != Done(RolledBack)
  {
    var t := w.txns[i];
    match t.phase
    case Start => assert Stepped(cfg, w, i).txns[i] == Started(w, t);
    case Locking =>
      if t.todo == [] {
        assert Stepped(cfg, w, i).txns[i] == Evaluated(cfg, w, t);
      } else {
        assert Stepped(cfg, w, i).txns[i] == Locked(w, t);
      }
    case Inserting => assert t.job.PlaceJob? ==> Stepped(cfg, w, i).txns[i] == Inserted(w, t);
    case Prepared =>
    case KeyLost =>
  }

  /** A rollback is reported only where one was forced. */
  lemma {:induction false} RollbacksAreForced(cfg: Settings, w: World, actions: seq<Action>, end: World, i: nat)
    requires Opening(cfg, w) && Schedule(cfg, w, actions) == Some(end)
    requires i in end.txns && end.txns[i].phase == Done(RolledBack)
    ensures Abort(i) in actions
    decreases |actions|
  {
    var init, last := actions[..|actions| - 1], actions[|actions| - 1];
    var mid := Schedule(cfg, w, init).value;
    ScheduleKeepsOk(cfg, w, init);
    OnlyOwnStepRefuses(cfg, mid, last, i);
    if mid.txns[i].phase == Done(RolledBack) {
      RollbacksAreForced(cfg, w, init, mid, i);
      assert forall a :: a in init ==> a in actions;
    } else if last == Go(i) {
      NeverRollsBackItself(cfg, mid, i);
    }
  }

  // ------------------------------------------------------------------------
  // Commits
  // ------------------------------------------------------------------------

  /** How many log entries have a job of a kind, and how many calls report committing one. */
  function LogCount(log: seq<Entry>, kind: Job -> bool): nat {
    if log == [] then 0
    else LogCount(log[..|log| - 1], kind) + if kind(log[|log| - 1].job) then 1 else 0
  }

  function Committers(txns: map<nat, Txn>, kind: Job -> bool): set<nat> {
    set i | i in txns && txns[i].phase == Done(Committed) && kind(txns[i].job)
  }

  lemma StepCommits(cfg: Settings, opening: Tables, w: World, i: nat)
    requires WorldOk(cfg, opening, w) && i in w.txns && Enabled(w, i)
    ensures var n := Stepped(cfg, w, i);
      if w.txns[i].phase == Prepared
      then n.txns[i].phase == Done(Committed) && n.log == w.log + [Entry(w.txns[i].job, w.txns[i].now)]
      else n.txns[i].phase != Done(Committed) && n.log == w.log
  {
    assert TxnOk(cfg, w.tables, w.clock, w.txns[i]);
    if w.txns[i].phase == Prepared {
      CommitNeverRefuses(cfg, w, i);
    } else {
      PrivateStepsDoNotCommit(cfg, w, i);
    }
  }

  lemma PrivateStepsDoNotCommit(cfg: Settings, w: World, i: nat)
    requires i in w.txns && Enabled(w, i) && w.txns[i].phase != Prepared && TxnOk(cfg, w.tables, w.clock, w.txns[i])
    ensures Stepped(cfg, w, i).txns[i].phase != Done(Committed) && Stepped(cfg, w, i).log == w.log
  {
    var t := w.txns[i];
    match t.phase
    case Start => assert Stepped(cfg, w, i).txns[i] == Started(w, t);
    case Locking =>
      if t.todo == [] {
        assert Stepped(cfg, w, i).txns[i] == Evaluated(cfg, w, t);
      } else {
        assert Stepped(cfg, w, i).txns[i] == Locked(w, t);
      }
    case Inserting => InsertNeverRefuses(cfg, w, i);
    case KeyLost => assert Reports(w.tables, t);
  }

  /** The log is exactly the commits that were reported: for every kind of job, as many entries as
      calls that say they committed one. */
  lemma {:induction false} LogIsWhatCommitted(cfg: Settings, w: World, actions: seq<Action>, end: World,
                                              kind: Job -> bool)
    requires Opening(cfg, w) && Schedule(cfg, w, actions) == Some(end)
    ensures LogCount(end.log, kind) == |Committers(end.txns, kind)|
    decreases |actions|
  {
    if actions == [] {
      assert Committers(end.txns, kind) == {};
    } else {
      var init, last := actions[..|actions| - 1], actions[|actions| - 1];
      var mid := Schedule(cfg, w, init).value;
      LogIsWhatCommitted(cfg, w, init, mid, kind);
      ScheduleKeepsOk(cfg, w, init);
      ActCommits(cfg, w.tables, mid, last, kind);
    }
  }

  lemma ActCommits(cfg: Settings, opening: Tables, w: World, a: Action, kind: Job -> bool)
    requires WorldOk(cfg, opening, w) && Act(cfg, w, a).Some?
    requires LogCount(w.log, kind) == |Committers(w.txns, kind)|
    ensures LogCount(Act(cfg, w, a).value.log, kind) == |Committers(Act(cfg, w, a).value.txns, kind)|
  {
    match a
    case Go(i) => StepCounts(cfg, opening, w, i, kind);
    case Abort(i) => AbortCounts(w, i, kind);
    case Tick(d) =>
  }

  lemma AbortCounts(w: World, i: nat, kind: Job -> bool)
    requires i in w.txns && InTransaction(w.txns[i])
    ensures Committers(w.txns[i := End(w.txns[i], RolledBack)], kind) == Committers(w.txns, kind)
  {
  }

  lemma StepCounts(cfg: Settings, opening: Tables, w: World, i: nat, kind: Job -> bool)
    requires WorldOk(cfg, opening, w) && i in w.txns && Enabled(w, i)
    requires LogCount(w.log, kind) == |Committers(w.txns, kind)|
    ensures LogCount(Stepped(cfg, w, i).log, kind) == |Committers(Stepped(cfg, w, i).txns, kind)|
  {
    StepCommits(cfg, opening, w, i);
    StepKeepsJob(cfg, w, i);
    CommittersStep(w, Stepped(cfg, w, i), i, kind, Entry(w.txns[i].job, w.txns[i].now));
  }

  lemma CommittersStep(w: World, n: World, i: nat, kind: Job -> bool, entry: Entry)
    requires i in w.txns && i in n.txns && n.txns == w.txns[i := n.txns[i]] && n.txns[i].job == w.txns[i].job
    requires w.txns[i].phase != Done(Committed)
    requires entry.job == w.txns[i].job
    requires n.log == if n.txns[i].phase == Done(Committed) then w.log + [entry] else w.log
    requires LogCount(w.log, kind) == |Committers(w.txns, kind)|
    ensures LogCount(n.log, kind) == |Committers(n.txns, kind)|
  {
    var was := Committers(w.txns, kind);
    assert i !in was;
    if n.txns[i].phase == Done(Committed) {
      assert n.log[..|n.log| - 1] == w.log;
      assert Committers(n.txns, kind) == if kind(w.txns[i].job) then was + {i} else was;
    } else {
      assert Committers(n.txns, kind) == was;
    }
  }

  // ------------------------------------------------------------------------
  // A call on its own
  // ------------------------------------------------------------------------

  lemma {:induction false} EditsSucceedAtAnyTime(o: Order, p: Order, edits: seq<Edit>, a: Time, b: Time)
    requires EditsApplied(o, edits, a).Success? && SameButStamps(o, p)
    ensures EditsApplied(p, edits, b).Success?
    decreases |edits|
  {
    if edits != [] {
      var n, m := Edited(o, edits[0], a), Edited(p, edits[0], b);
      OneEditSucceedsAtAnyTime(o, p, edits[0], a, b);
      EditsSucceedAtAnyTime(n.value, m.value, edits[1..], a, b);
    }
  }

  /** Rows that differ in the moments of their stamps alone. */
  predicate SameButStamps(o: Order, p: Order) {
    && o.status == p.status && o.rider == p.rider && o.ticket == p.ticket
    && (o.deliveredAt.Some? <==> p.deliveredAt.Some?)
  }

  lemma OneEditSucceedsAtAnyTime(o: Order, p: Order, e: Edit, a: Time, b: Time)
    requires Edited(o, e, a).Success? && SameButStamps(o, p)
    ensures Edited(p, e, b).Success? && SameButStamps(Edited(o, e, a).value, Edited(p, e, b).value)
  {
    match e
    case SetStatus(actor, target, reason, amount) => StatusAtAnyTime(o, p, actor, target, reason, amount, a, b);
    case Assign(r) =>
    case _ =>
  }

  lemma StatusAtAnyTime(o: Order, p: Order, actor: Actor, target: Status, reason: string, amount: Option<nat>,
                        a: Time, b: Time)
    requires StatusSet(o, actor, target, reason, amount, a).Success? && SameButStamps(o, p)
    ensures StatusSet(p, actor, target, reason, amount, b).Success?
    ensures SameButStamps(StatusSet(o, actor, target, reason, amount, a).value,
                          StatusSet(p, actor, target, reason, amount, b).value)
  {
    if target != o.status {
      EnteredAtAnyTime(o, p, target, a, b);
    }
  }

  lemma EnteredAtAnyTime(o: Order, p: Order, target: Status, a: Time, b: Time)
    requires SameButStamps(o, p)
    ensures SameButStamps(Entered(o, target, a), Entered(p, target, b))
  {
  }

  /** Whether a job is refused does not depend on the time of day. */
  lemma SucceedsAtAnyTime(cfg: Settings, t: Tables, j: Job, a: Time, b: Time)
    requires Perform(cfg, t, j, a).Success?
    ensures Perform(cfg, t, j, b).Success?
  {
    if j.EditJob? {
      EditsSucceedAtAnyTime(t.orders[j.order], t.orders[j.order], j.edits, a, b);
    }
  }

  function AnyJob(): Job -> bool {
    (j: Job) => true
  }

  lemma {:induction false} CountsAll(log: seq<Entry>)
    ensures LogCount(log, AnyJob()) == |log|
    decreases |log|
  {
    if log != [] {
      CountsAll(log[..|log| - 1]);
    }
  }

  /** Until the only call commits, the tables are the opening ones. */
  lemma NothingCommitted(cfg: Settings, w: World, actions: seq<Action>, end: World, i: nat)
    requires Opening(cfg, w) && Schedule(cfg, w, actions) == Some(end) && w.txns.Keys == {i}
    requires i in end.txns && end.txns[i].phase != Done(Committed)
    ensures end.log == [] && end.tables == w.tables
  {
    ScheduleKeepsOk(cfg, w, actions);
    LogIsWhatCommitted(cfg, w, actions, end, AnyJob());
    assert Committers(end.txns, AnyJob()) == {};
    CountsAll(end.log);
  }

  lemma OnlyCommit(cfg: Settings, w: World, actions: seq<Action>, end: World, i: nat)
    requires Opening(cfg, w) && Schedule(cfg, w, actions) == Some(end) && w.txns.Keys == {i}
    requires i in end.txns && end.txns[i].phase == Done(Committed)
    ensures exists now ::
      end.log == [Entry(w.txns[i].job, now)] && Perform(cfg, w.tables, w.txns[i].job, now) == Success(end.tables)
  {
    ScheduleKeepsOk(cfg, w, actions);
    var mine := (j: Job) => j == w.txns[i].job;
    LogIsWhatCommitted(cfg, w, actions, end, AnyJob());
    LogIsWhatCommitted(cfg, w, actions, end, mine);
    assert Committers(end.txns, AnyJob()) == {i} && Committers(end.txns, mine) == {i};
    CountsAll(end.log);
    var entry := end.log[0];
    assert end.log == [entry] && end.log[..0] == [];
    assert LogCount(end.log, mine) == if mine(entry.job) then 1 else 0;
    assert RunAll(cfg, w.tables, []) == Some(w.tables);
    assert entry == Entry(w.txns[i].job, entry.now);
  }

  /** A call with nobody else in flight, whose job would succeed on the opening tables, and which
      nobody aborts, can end in one way only: committed, with the tables its job makes of the
      opening ones. */
  lemma AloneCommits(cfg: Settings, w: World, actions: seq<Action>, end: World, i: nat, at: Time)
    requires Opening(cfg, w) && Schedule(cfg, w, actions) == Some(end) && w.txns.Keys == {i}
    requires Abort(i) !in actions && i in end.txns && Finished(end.txns[i])
    requires Perform(cfg, w.tables, w.txns[i].job, at).Success?
    ensures end.txns[i].phase == Done(Committed)
    ensures exists now :: Perform(cfg, w.tables, w.txns[i].job, now) == Success(end.tables)
  {
    ScheduleKeepsOk(cfg, w, actions);
    match end.txns[i].phase.outcome
    case Committed => OnlyCommit(cfg, w, actions, end, i);
    case RolledBack => RollbacksAreForced(cfg, w, actions, end, i);
    case Refused(e) => AloneIsNotRefused(cfg, w, actions, end, i, e, at);
    case Replayed(order) => AloneIsNotReplayed(cfg, w, actions, end, i, at);
  }

  lemma AloneIsNotRefused(cfg: Settings, w: World, actions: seq<Action>, end: World, i: nat, e: Refusal, at: Time)
    requires Opening(cfg, w) && Schedule(cfg, w, actions) == Some(end) && w.txns.Keys == {i}
    requires i in end.txns && Perform(cfg, w.tables, w.txns[i].job, at).Success?
    ensures end.txns[i].phase != Done(Refused(e))
  {
    if end.txns[i].phase == Done(Refused(e)) {
      RefusalsAreHonest(cfg, w, actions, end, i, e);
      var n: nat, mid: World :| TakenIn(cfg, w, actions, n, Go(i), mid)
        && i in mid.txns && !Finished(mid.txns[i]) && HonestNow(cfg, mid, mid.txns[i], e);
      NothingCommitted(cfg, w, actions[..n], mid, i);
      ScheduleKeepsOk(cfg, w, actions[..n]);
      SucceedsAtAnyTime(cfg, w.tables, w.txns[i].job, at, mid.clock);
    }
  }

  lemma AloneIsNotReplayed(cfg: Settings, w: World, actions: seq<Action>, end: World, i: nat, at: Time)
    requires Opening(cfg, w) && Schedule(cfg, w, actions) == Some(end) && w.txns.Keys == {i}
    requires i in end.txns && Perform(cfg, w.tables, w.txns[i].job, at).Success?
    ensures !(end.txns[i].phase.Done? && end.txns[i].phase.outcome.Replayed?)
  {
    ScheduleKeepsOk(cfg, w, actions);
    assert Reports(end.tables, end.txns[i]);
    if end.txns[i].phase.Done? && end.txns[i].phase.outcome.Replayed? {
      NothingCommitted(cfg, w, actions, end, i);
    }
  }

  /** ... and it can end: letting it proceed is enough. */
  lemma AloneCanFinish(cfg: Settings, w: World, i: nat, at: Time)
    requires Opening(cfg, w) && w.txns.Keys == {i} && Perform(cfg, w.tables, w.txns[i].job, at).Success?
    ensures exists actions: seq<Action>, end: World ::
      Schedule(cfg, w, actions) == Some(end) && i in end.txns && end.txns[i].phase == Done(Committed)
  {
    OpeningIsOk(cfg, w);
    var actions := RunsToCompletion(cfg, w.tables, w);
    var end := Schedule(cfg, w, actions).value;
    ScheduleKeepsOk(cfg, w, actions);
    assert Abort(i) !in actions;
    AloneCommits(cfg, w, actions, end, i, at);
  }
}
