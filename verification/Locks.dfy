/** What a call has locked by the time it commits, after any schedule, and what that keeps apart. */
module Locks {
  import opened Prelude
  import opened Pricing
  import opened Orders
  import opened Baskets
  import opened Checkouts
  import opened Ledger
  import opened Interleaving
  import opened Serialisability
  import opened Answers

  /** The rows a call has to itself: its order, the riders that dispatch chooses among, the products on
      file that it sells, returns or edits, and its key. */
  predicate Needs(tables: Tables, t: Txn, r: Row) {
    match r
    case OrderRow(id) => (t.job.CancelJob? || t.job.RestockJob? || t.job.EditJob?) && t.job.order == id
    case RiderRow(id) => t.job.EditJob? && id in t.riderRows
    case KeyRow(key) => t.job.PlaceJob? && t.job.c.key == key && key != ""
    case ProductRow(p) =>
      p in tables.products &&
      match t.job
      case PlaceJob(c, _) => p in Requested(c.items)
      case PatchJob(id, _) => p == id
      case CancelJob(id, _) => id in tables.orders && p in ItemIds(tables.orders[id])
      case RestockJob(id) => id in tables.orders && p in ItemIds(tables.orders[id])
      case _ => false
  }

  /** How far a call has come with the rows that its reads do not show. */
  ghost predicate LockedSoFar(tables: Tables, t: Txn) {
    && (t.phase in {Inserting, Prepared} && t.job.PlaceJob? ==>
          forall p :: p in Requested(t.job.c.items) && p in tables.products ==> p in t.products)
    && (t.phase in {Inserting, Prepared} && t.job.PatchJob? ==> t.job.product in t.products)
    && (InTransaction(t) && t.job.EditJob? && t.order.Some? ==>
          forall r :: r in t.riderRows ==> RiderRow(r) in t.held || RiderRow(r) in t.todo)
  }

  ghost predicate AllLockedSoFar(w: World) {
    forall i :: i in w.txns ==> LockedSoFar(w.tables, w.txns[i])
  }

  lemma RowLockedSoFar(cfg: Settings, w: World, t: Txn)
    requires TxnOk(cfg, w.tables, w.clock, t) && LockedSoFar(w.tables, t) && t.phase == Locking && t.todo != []
    ensures LockedSoFar(w.tables, Locked(w, t))
  {
    assert forall r :: r in t.todo ==> r == t.todo[0] || r in t.todo[1..];
    if t.todo[0].OrderRow? && Locked(w, t).order.Some? {
      forall r | r in t.riderRows ensures RiderRow(r) in RiderRows(t.riderRows) {
        var k :| 0 <= k < |t.riderRows| && t.riderRows[k] == r;
        assert RiderRows(t.riderRows)[k] == RiderRow(r);
      }
    }
  }

  lemma DecisionLockedSoFar(cfg: Settings, w: World, t: Txn)
    requires TxnOk(cfg, w.tables, w.clock, t) && ReadsEnough(w.tables, t) && LockedSoFar(w.tables, t)
    requires t.phase == Locking && t.todo == []
    ensures LockedSoFar(w.tables, Evaluated(cfg, w, t))
  {
  }

  lemma OwnLockedSoFar(cfg: Settings, opening: Tables, w: World, i: nat)
    requires WorldOk(cfg, opening, w) && AllReadEnough(w) && AllLockedSoFar(w) && i in w.txns && Enabled(w, i)
    requires w.txns[i].phase != Prepared
    ensures i in Stepped(cfg, w, i).txns && LockedSoFar(w.tables, Stepped(cfg, w, i).txns[i])
  {
    var t := w.txns[i];
    assert TxnOk(cfg, w.tables, w.clock, t) && ReadsEnough(w.tables, t) && LockedSoFar(w.tables, t);
    match t.phase
    case Start => assert Stepped(cfg, w, i).txns[i] == Started(w, t);
    case Locking =>
      if t.todo == [] {
        DecisionLockedSoFar(cfg, w, t);
        assert Stepped(cfg, w, i).txns[i] == Evaluated(cfg, w, t);
      } else {
        RowLockedSoFar(cfg, w, t);
        assert Stepped(cfg, w, i).txns[i] == Locked(w, t);
      }
    case Inserting => assert t.job.PlaceJob? ==> Stepped(cfg, w, i).txns[i] == Inserted(w, t);
    case KeyLost =>
  }

  lemma StepLockedSoFar(cfg: Settings, opening: Tables, w: World, i: nat)
    requires WorldOk(cfg, opening, w) && AllReadEnough(w) && AllLockedSoFar(w) && i in w.txns && Enabled(w, i)
    ensures AllLockedSoFar(Stepped(cfg, w, i))
  {
    var n := Stepped(cfg, w, i);
    StepKeepsCatalogue(cfg, opening, w, i);
    StepKeepsJob(cfg, w, i);
    if w.txns[i].phase == Prepared {
      CommitNeverRefuses(cfg, w, i);
    } else {
      OwnLockedSoFar(cfg, opening, w, i);
    }
    forall k | k in n.txns && k != i ensures LockedSoFar(n.tables, n.txns[k]) {
      assert n.txns[k] == w.txns[k] && LockedSoFar(w.tables, w.txns[k]);
    }
  }

  lemma ActLockedSoFar(cfg: Settings, opening: Tables, w: World, a: Action)
    requires WorldOk(cfg, opening, w) && AllReadEnough(w) && AllLockedSoFar(w) && Act(cfg, w, a).Some?
    ensures AllLockedSoFar(Act(cfg, w, a).value)
  {
    match a
    case Go(i) => StepLockedSoFar(cfg, opening, w, i);
    case Abort(i) => assert LockedSoFar(w.tables, w.txns[i]);
    case Tick(d) =>
  }

  lemma {:induction false} ScheduleLockedSoFar(cfg: Settings, w: World, actions: seq<Action>)
    requires Opening(cfg, w) && Schedule(cfg, w, actions).Some?
    ensures AllLockedSoFar(Schedule(cfg, w, actions).value)
    decreases |actions|
  {
    if actions != [] {
      var init, last := actions[..|actions| - 1], actions[|actions| - 1];
      ScheduleLockedSoFar(cfg, w, init);
      ScheduleReadsEnough(cfg, w, init);
      ScheduleKeepsOk(cfg, w, init);
      var mid := Schedule(cfg, w, init).value;
      ActLockedSoFar(cfg, w.tables, mid, last);
    }
  }

  lemma PreparedHolds(cfg: Settings, tables: Tables, clock: Time, t: Txn, r: Row)
    requires TxnOk(cfg, tables, clock, t) && LockedSoFar(tables, t) && t.phase == Prepared && Needs(tables, t, r)
    ensures r in t.held
  {
    assert Decided(cfg, tables, t) && Covered(tables, t) && ReadsHold(tables, t);
    assert OnOrderRow(t.job) ==> t.order.Some?;
  }

  /** After any schedule, a call that is about to commit holds every row it needs to itself, and no
      two that are about to commit need the same one: two hand-overs that lock a rider in common,
      two sales of a product, or a sale and an edit of it. */
  lemma ReadyCallsAreApart(cfg: Settings, w: World, actions: seq<Action>, end: World, i: nat, r: Row)
    requires Opening(cfg, w) && Schedule(cfg, w, actions) == Some(end)
    requires i in end.txns && end.txns[i].phase == Prepared && Needs(end.tables, end.txns[i], r)
    ensures r in end.txns[i].held
    ensures forall k :: k in end.txns && k != i ==> r !in end.txns[k].held
    ensures forall k :: k in end.txns && k != i && end.txns[k].phase == Prepared ==> !Needs(end.tables, end.txns[k], r)
  {
    ScheduleLockedSoFar(cfg, w, actions);
    ScheduleKeepsOk(cfg, w, actions);
    forall k | k in end.txns && end.txns[k].phase == Prepared && Needs(end.tables, end.txns[k], r)
      ensures r in end.txns[k].held
    {
      PreparedHolds(cfg, end.tables, end.clock, end.txns[k], r);
    }
  }

  /** A transaction can be rolled back at any point up to its commit, and leaves nothing behind. */
  lemma RollbackLeavesNothing(cfg: Settings, w: World, i: nat)
    requires i in w.txns
    ensures Act(cfg, w, Abort(i)).Some? <==> w.txns[i].phase in {Locking, Inserting, Prepared}
    ensures Act(cfg, w, Abort(i)).Some? ==>
      var n := Act(cfg, w, Abort(i)).value;
      && n.tables == w.tables && n.log == w.log && n.clock == w.clock
      && n.txns == w.txns[i := n.txns[i]]
      && n.txns[i].phase == Done(RolledBack) && n.txns[i].held == {} && n.txns[i].todo == []
  {
  }
}
