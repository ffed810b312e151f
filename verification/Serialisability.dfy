/** Every schedule of the interleaved transactions has the effect of running the committed ones
    one at a time, in commit order. */
module Serialisability {
  import opened Prelude
  import opened Pricing
  import opened Orders
  import opened Baskets
  import opened Checkouts
  import opened Ledger
  import opened Interleaving

  // ------------------------------------------------------------------------
  // What a transaction computed on its own reads is what the job does to the whole tables
  // ------------------------------------------------------------------------

  lemma PlaceIsLocal(cfg: Settings, tables: Tables, view: Tables, c: Checkout, id: nat, now: Time)
    requires view.orders == map[] && Perform(cfg, view, PlaceJob(c, id), now).Success?
    requires forall p :: p in view.products ==> p in tables.products && tables.products[p] == view.products[p]
    requires !KeyUsed(tables.orders, c.key)
    ensures Perform(cfg, tables, PlaceJob(c, id), now) ==
      Success(Overlay(tables, Perform(cfg, view, PlaceJob(c, id), now).value))
    ensures Perform(cfg, view, PlaceJob(c, id), now).value.products.Keys == view.products.Keys
    ensures Perform(cfg, view, PlaceJob(c, id), now).value.orders.Keys == {id}
  {
    var draft := Drafted(cfg, view.products, c);
    assert draft.Success?;
    DraftIsLocal(cfg, view.products, tables.products, c);
    TakeDraftIsLocal(cfg, view.products, tables.products, c);
    PlacePerforms(cfg, view, c, id, now, draft);
    PlacePerforms(cfg, tables, c, id, now, draft);
    SoldOverlays(cfg, tables, view, c, id, draft.value, now);
  }

  lemma SoldOverlays(cfg: Settings, tables: Tables, view: Tables, c: Checkout, id: nat, basket: Basket, now: Time)
    requires view.orders == map[]
    requires Take(tables.products, basket.lines) == tables.products + Take(view.products, basket.lines)
    ensures Sold(cfg, tables, c, id, basket, now) == Overlay(tables, Sold(cfg, view, c, id, basket, now))
    ensures Sold(cfg, view, c, id, basket, now).orders.Keys == {id}
  {
    var row := NewOrder(TicketFor(cfg, c, basket, now));
    assert view.orders[id := row] == map[id := row];
    assert tables.orders[id := row] == tables.orders + map[id := row];
  }

  lemma TakeDraftIsLocal(cfg: Settings, small: map<nat, Product>, large: map<nat, Product>, c: Checkout)
    requires Drafted(cfg, small, c).Success?
    requires forall p :: p in small ==> p in large && large[p] == small[p]
    ensures var lines := Drafted(cfg, small, c).value.lines;
      Take(large, lines) == large + Take(small, lines) && Take(small, lines).Keys == small.Keys
  {
    var lines := Drafted(cfg, small, c).value.lines;
    DraftedLines(cfg, small, c);
    assert forall line :: line in lines ==> Carries(small, Requested(c.items), line);
    TakeIsLocal(small, large, lines);
  }

  lemma TakeIsLocal(small: map<nat, Product>, large: map<nat, Product>, lines: seq<Line>)
    requires AscendingLines(lines)
    requires forall line :: line in lines ==> line.id in small && small[line.id] == line.product
    requires forall p :: p in small ==> p in large && large[p] == small[p]
    ensures Take(large, lines) == large + Take(small, lines)
    ensures Take(small, lines).Keys == small.Keys
  {
    TakeTouches(small, lines);
    TakeTouches(large, lines);
    forall p | p in large ensures Take(large, lines)[p] == (large + Take(small, lines))[p] {
      if line :| line in lines && line.id == p {
        assert Take(small, lines)[line.id] == Take(large, lines)[line.id];
      }
    }
  }

  lemma PutBackIsLocal(small: map<nat, Product>, large: map<nat, Product>, items: seq<Item>)
    requires forall p :: p in small ==> p in large && large[p] == small[p]
    requires forall i :: 0 <= i < |items| && items[i].product in large ==> items[i].product in small
    ensures PutBack(large, items) == large + PutBack(small, items)
    ensures PutBack(small, items).Keys == small.Keys
  {
    PutBackReturnsUnits(small, items);
    PutBackReturnsUnits(large, items);
    forall p | p in large ensures PutBack(large, items)[p] == (large + PutBack(small, items))[p] {
      if p !in small {
        NoneOf(items, p);
        assert large[p].(stock := large[p].stock + 0) == large[p];
      }
    }
  }

  lemma NoneOf(items: seq<Item>, p: nat)
    requires forall i :: 0 <= i < |items| ==> items[i].product != p
    ensures Units(items, p) == 0
  {
  }

  /** A prepared transaction's private outcome, laid over whatever else is committed by now, is
      exactly the job run alone on the committed tables. */
  lemma CommitIsAtomic(cfg: Settings, tables: Tables, clock: Time, t: Txn)
    requires TxnOk(cfg, tables, clock, t) && t.phase == Prepared
    ensures var out := Perform(cfg, View(t), t.job, t.now).value;
      && Perform(cfg, tables, t.job, t.now) == Success(Overlay(tables, out))
      && (forall p :: p in out.products ==> ProductRow(p) in t.held)
      && out.products.Keys <= tables.products.Keys
      && (forall o :: o in out.orders ==>
            if t.job.PlaceJob? then o == t.job.id else OrderRow(o) in t.held && o in tables.orders)
  {
    match t.job
    case PlaceJob(c, id) =>
      PlaceIsLocal(cfg, tables, View(t), c, id, t.now);
    case CancelJob(id, _) => ReturnIsAtomic(cfg, tables, clock, t);
    case RestockJob(id) => ReturnIsAtomic(cfg, tables, clock, t);
    case EditJob(id, edits) =>
      var row := EditsApplied(tables.orders[id], edits, t.now).value;
      assert View(t).orders[id := row] == map[id := row];
      assert tables.orders[id := row] == tables.orders + map[id := row];
      assert tables.products + t.products == tables.products;
    case PatchJob(id, patch) =>
      var row := Patched(t.products[id], patch).value;
      assert tables.products[id := row] == tables.products + t.products[id := row];
      assert tables.orders + map[] == tables.orders;
  }

  lemma ReturnIsAtomic(cfg: Settings, tables: Tables, clock: Time, t: Txn)
    requires TxnOk(cfg, tables, clock, t) && t.phase == Prepared && (t.job.CancelJob? || t.job.RestockJob?)
    ensures var out := Perform(cfg, View(t), t.job, t.now).value;
      && Perform(cfg, tables, t.job, t.now) == Success(Overlay(tables, out))
      && out.products.Keys == t.products.Keys
      && out.orders.Keys == {t.job.order}
  {
    var id, o := t.job.order, t.order.value;
    var row := Guard(o, t.job, t.now).value;
    assert row.ticket == o.ticket;
    forall i | 0 <= i < |o.ticket.items| && o.ticket.items[i].product in tables.products
      ensures o.ticket.items[i].product in t.products
    {
      assert o.ticket.items[i].product in ItemIds(o);
    }
    PutBackIsLocal(t.products, tables.products, row.ticket.items);
    assert tables.orders[id := row] == tables.orders + map[id := row];
    assert View(t).orders[id := row] == map[id := row];
  }

  // ------------------------------------------------------------------------
  // Steps that change no table
  // ------------------------------------------------------------------------

  lemma ExclusiveSet(txns: map<nat, Txn>, i: nat, t: Txn)
    requires Exclusive(txns) && i in txns
    requires forall k :: k in txns && k != i ==> t.held !! txns[k].held
    ensures Exclusive(txns[i := t])
  {
  }

  lemma OwnIdsSet(txns: map<nat, Txn>, i: nat, t: Txn)
    requires OwnIds(txns) && i in txns && t.job == txns[i].job
    ensures OwnIds(txns[i := t])
  {
  }

  lemma AttributedSet(opening: Tables, w: World, i: nat, t: Txn)
    requires Attributed(opening, w) && i in w.txns && t.job == w.txns[i].job
    ensures Attributed(opening, w.(txns := w.txns[i := t]))
  {
    var next := w.(txns := w.txns[i := t]);
    forall id | id in next.tables.orders && id !in opening.orders
      ensures exists k :: k in next.txns && next.txns[k].job.PlaceJob? && next.txns[k].job.id == id
    {
      var k :| k in w.txns && w.txns[k].job.PlaceJob? && w.txns[k].job.id == id;
      assert next.txns[k].job == w.txns[k].job;
    }
  }

  lemma TxnReplaced(cfg: Settings, opening: Tables, w: World, i: nat, t: Txn)
    requires WorldOk(cfg, opening, w) && i in w.txns && t.job == w.txns[i].job
    requires TxnOk(cfg, w.tables, w.clock, t)
    requires forall k :: k in w.txns && k != i ==> t.held !! w.txns[k].held
    ensures WorldOk(cfg, opening, w.(txns := w.txns[i := t]))
  {
    ExclusiveSet(w.txns, i, t);
    OwnIdsSet(w.txns, i, t);
    AttributedSet(opening, w, i, t);
  }

  /** Ending a call that has not committed is always sound: it held only its own locks. */
  lemma EndIsOk(cfg: Settings, tables: Tables, clock: Time, t: Txn, outcome: Outcome)
    requires TxnOk(cfg, tables, clock, t) && !Finished(t)
    requires outcome != Committed && outcome != Refused(KeyTaken)
    requires outcome.Replayed? ==>
      && t.job.PlaceJob? && t.job.c.key != "" && outcome.order in tables.orders
      && tables.orders[outcome.order].ticket.key == t.job.c.key
    ensures TxnOk(cfg, tables, clock, End(t, outcome))
  {
  }

  lemma ProductRowsAscend(ids: seq<nat>)
    requires Ascending(ids)
    ensures RowsAscend(ProductRows(ids)) && RowsAscend(RiderRows(ids))
  {
  }

  lemma StartIsOk(cfg: Settings, w: World, t: Txn)
    requires TxnOk(cfg, w.tables, w.clock, t) && t.phase == Start
    ensures TxnOk(cfg, w.tables, w.clock, Started(w, t)) && Started(w, t).held == {}
  {
    match t.job
    case PlaceJob(c, id) =>
      if !Started(w, t).phase.Done? {
        ProductRowsAscend(SortedIds(Requested(c.items).Keys));
      }
    case CancelJob(id, _) =>
    case RestockJob(id) =>
    case EditJob(id, _) =>
    case PatchJob(id, _) =>
  }

  lemma LockOrderIsOk(cfg: Settings, w: World, t: Txn)
    requires TxnOk(cfg, w.tables, w.clock, t) && AllOnClock(w.tables.orders, w.clock)
    requires t.phase == Locking && t.todo != [] && t.todo[0].OrderRow?
    ensures TxnOk(cfg, w.tables, w.clock, Locked(w, t)) && Locked(w, t).held <= t.held + {t.todo[0]}
  {
    var id := t.todo[0].id;
    assert OnOrderRow(t.job) && t.order.None? && t.todo == [OrderRow(t.job.order)] && t.held == {};
    if id !in w.tables.orders {
      EndIsOk(cfg, w.tables, w.clock, t, Refused(NotFound));
    } else {
      match Guard(w.tables.orders[id], t.job, w.clock) {
        case Failure(e) =>
          GuardNeverKeyTaken(w.tables.orders[id], t.job, w.clock);
          EndIsOk(cfg, w.tables, w.clock, t, Refused(e));
        case Success(_) =>
          OrderRead(cfg, w, t);
      }
    }
  }

  lemma OrderRead(cfg: Settings, w: World, t: Txn)
    requires TxnOk(cfg, w.tables, w.clock, t) && AllOnClock(w.tables.orders, w.clock)
    requires t.phase == Locking && OnOrderRow(t.job) && t.todo == [OrderRow(t.job.order)] && t.held == {}
    requires t.job.order in w.tables.orders && Guard(w.tables.orders[t.job.order], t.job, w.clock).Success?
    ensures TxnOk(cfg, w.tables, w.clock, Locked(w, t)) && Locked(w, t).held == {t.todo[0]}
  {
    var o, read := w.tables.orders[t.job.order], Locked(w, t);
    ProductRowsAscend(SortedIds(ItemIds(o)));
    ProductRowsAscend(t.riderRows);
    CoveredByItems(w.tables, t, o, w.clock);
    assert LocksInOrder(read);
    assert Covered(w.tables, read) by {
      var listed := t.(now := w.clock, order := Some(o), todo := read.todo);
      assert Covered(w.tables, listed);
    }
    assert ReadsHold(w.tables, read);
    assert OnClock(o, w.clock);
  }

  lemma GuardNeverKeyTaken(o: Order, j: Job, now: Time)
    requires OnOrderRow(j) && Guard(o, j, now).Failure?
    ensures Guard(o, j, now).error != KeyTaken
  {
    if j.EditJob? {
      EditsNeverKeyTaken(o, j.edits, now);
    }
  }

  lemma EditsNeverKeyTaken(o: Order, edits: seq<Edit>, now: Time)
    ensures EditsApplied(o, edits, now).Failure? ==> EditsApplied(o, edits, now).error != KeyTaken
    decreases |edits|
  {
    if edits != [] && Edited(o, edits[0], now).Success? {
      EditsNeverKeyTaken(Edited(o, edits[0], now).value, edits[1..], now);
    }
  }

  /** Once the order row is read, the rows still to lock are those of its items. */
  lemma CoveredByItems(tables: Tables, t: Txn, o: Order, now: Time)
    requires OnOrderRow(t.job) && Guard(o, t.job, now).Success?
    ensures Covered(tables, t.(now := now, order := Some(o),
      todo := if t.job.EditJob? then RiderRows(t.riderRows) else ProductRows(SortedIds(ItemIds(o)))))
  {
    var ids := SortedIds(ItemIds(o));
    forall p | p in ItemIds(o) ensures ProductRow(p) in ProductRows(ids) {
      var k :| 0 <= k < |ids| && ids[k] == p;
      assert ProductRows(ids)[k] == ProductRow(p);
    }
  }

  /** Taking the first row off the list keeps the locks in order. */
  lemma LocksTail(t: Txn, u: Txn)
    requires LocksInOrder(t) && t.todo != [] && u.todo == t.todo[1..] && u.riderRows == t.riderRows
    requires u.held <= t.held + {t.todo[0]} && t.phase == u.phase == Locking
    ensures LocksInOrder(u)
  {
    assert forall i :: 0 <= i < |u.todo| ==> u.todo[i] == t.todo[i + 1];
  }

  lemma CoveredTail(tables: Tables, t: Txn, u: Txn)
    requires Covered(tables, t) && t.todo != [] && !t.todo[0].OrderRow? && u.todo == t.todo[1..]
    requires u.job == t.job && u.order == t.order && u.now == t.now && t.products.Keys <= u.products.Keys
    requires t.todo[0].ProductRow? && t.todo[0].id in tables.products ==> t.todo[0].id in u.products
    ensures Covered(tables, u)
  {
    assert forall i :: 0 <= i < |u.todo| ==> u.todo[i] == t.todo[i + 1];
    assert forall p :: ProductRow(p) in t.todo ==> ProductRow(p) == t.todo[0] || ProductRow(p) in u.todo;
  }

  lemma LockRowIsOk(cfg: Settings, w: World, t: Txn)
    requires TxnOk(cfg, w.tables, w.clock, t)
    requires t.phase == Locking && t.todo != [] && !t.todo[0].OrderRow?
    ensures TxnOk(cfg, w.tables, w.clock, Locked(w, t)) && Locked(w, t).held <= t.held + {t.todo[0]}
  {
    var u := Locked(w, t);
    if u.phase.Done? {
      EndIsOk(cfg, w.tables, w.clock, t, Refused(NotFound));
    } else {
      LocksTail(t, u);
      CoveredTail(w.tables, t, u);
      assert ReadsHold(w.tables, u);
    }
  }

  lemma EvaluateIsOk(cfg: Settings, w: World, t: Txn)
    requires TxnOk(cfg, w.tables, w.clock, t) && t.phase == Locking && t.todo == []
    ensures TxnOk(cfg, w.tables, w.clock, Evaluated(cfg, w, t)) && Evaluated(cfg, w, t).held <= t.held
  {
    var now := if t.order.Some? then t.now else w.clock;
    match Perform(cfg, View(t), t.job, now)
    case Failure(e) => ViewNeverKeyTaken(cfg, t, now);
    case Success(_) =>
  }

  lemma DraftNeverKeyTaken(cfg: Settings, found: map<nat, Product>, c: Checkout)
    requires Drafted(cfg, found, c).Failure?
    ensures Drafted(cfg, found, c).error != KeyTaken
  {
  }

  lemma ViewNeverKeyTaken(cfg: Settings, t: Txn, now: Time)
    requires Perform(cfg, View(t), t.job, now).Failure? && !t.job.CreateJob? && !t.job.DeleteJob?
    ensures Perform(cfg, View(t), t.job, now).error != KeyTaken
  {
    match t.job
    case PlaceJob(c, id) =>
      var draft := Drafted(cfg, View(t).products, c);
      if draft.Failure? {
        DraftNeverKeyTaken(cfg, View(t).products, c);
      } else {
        PlacePerforms(cfg, View(t), c, id, now, draft);
      }
    case CancelJob(_, _) =>
    case RestockJob(_) =>
    case EditJob(_, edits) =>
      if t.order.Some? {
        EditsNeverKeyTaken(t.order.value, edits, now);
      }
    case PatchJob(_, _) =>
  }

  lemma InsertIsOk(cfg: Settings, w: World, t: Txn)
    requires TxnOk(cfg, w.tables, w.clock, t) && t.phase == Inserting
    ensures TxnOk(cfg, w.tables, w.clock, Inserted(w, t))
    ensures Inserted(w, t).held <= t.held + if Wants(t).Some? then {Wants(t).value} else {}
    ensures Inserted(w, t).job == t.job
  {
    if t.job.c.key != "" && KeyUsed(w.tables.orders, t.job.c.key) {
      KeyLostIsOk(cfg, w, t);
    } else {
      KeyGrantedIsOk(cfg, w, t);
    }
  }

  lemma KeyLostIsOk(cfg: Settings, w: World, t: Txn)
    requires TxnOk(cfg, w.tables, w.clock, t) && t.phase == Inserting && t.job.PlaceJob?
    requires KeyUsed(w.tables.orders, t.job.c.key)
    ensures TxnOk(cfg, w.tables, w.clock, t.(phase := KeyLost, held := {}, todo := []))
  {
  }

  lemma KeyGrantedIsOk(cfg: Settings, w: World, t: Txn)
    requires TxnOk(cfg, w.tables, w.clock, t) && t.phase == Inserting && t.job.PlaceJob?
    requires !KeyUsed(w.tables.orders, t.job.c.key)
    ensures TxnOk(cfg, w.tables, w.clock, Inserted(w, t))
  {
    var u := Inserted(w, t);
    assert View(u) == View(t);
    assert Covered(w.tables, u) && ReadsHold(w.tables, u) && LocksInOrder(u);
  }

  // ------------------------------------------------------------------------
  // The commit
  // ------------------------------------------------------------------------

  /** What one commit leaves alone, as every other transaction sees it. */
  ghost predicate Frame(t: Txn, before: Tables, after: Tables) {
    && after.products.Keys == before.products.Keys
    && (forall p :: p in before.products && ProductRow(p) !in t.held ==> after.products[p] == before.products[p])
    && (forall o :: o in before.orders ==> o in after.orders && after.orders[o].ticket == before.orders[o].ticket)
    && (forall o :: o in before.orders && OrderRow(o) !in t.held ==> after.orders[o] == before.orders[o])
    && (forall o :: o in after.orders && o !in before.orders ==>
          t.job.PlaceJob? && o == t.job.id && after.orders[o].ticket.key == t.job.c.key)
    && (t.job.PlaceJob? ==>
          t.job.id in after.orders && t.job.id !in before.orders && after.orders[t.job.id].ticket.key == t.job.c.key)
  }

  lemma CommitFrame(cfg: Settings, tables: Tables, clock: Time, t: Txn)
    requires cfg.Sane() && TablesOk(tables) && TxnOk(cfg, tables, clock, t) && t.phase == Prepared
    ensures var after := Overlay(tables, Perform(cfg, View(t), t.job, t.now).value);
      Perform(cfg, tables, t.job, t.now) == Success(after) && TablesOk(after) && Frame(t, tables, after)
  {
    CommitIsAtomic(cfg, tables, clock, t);
    PerformKeepsTables(cfg, tables, t.job, t.now);
    var after := Perform(cfg, tables, t.job, t.now).value;
    forall o | o in tables.orders ensures o in after.orders && after.orders[o].ticket == tables.orders[o].ticket {
      assert Follows(tables.orders[o], after.orders[o]);
    }
    if t.job.PlaceJob? {
      PlacedKey(cfg, tables, t.job.c, t.job.id, t.now);
    }
  }

  lemma PlacedKey(cfg: Settings, t: Tables, c: Checkout, id: nat, now: Time)
    requires Perform(cfg, t, PlaceJob(c, id), now).Success?
    ensures var after := Perform(cfg, t, PlaceJob(c, id), now).value.orders;
      id in after && after[id].ticket.key == c.key && after.Keys == t.orders.Keys + {id}
      && !KeyUsed(t.orders, c.key)
  {
  }

  /** A commit by one transaction does not disturb another. */
  lemma OthersUndisturbed(cfg: Settings, before: Tables, after: Tables, clock: Time, t: Txn, u: Txn)
    requires TxnOk(cfg, before, clock, u) && TxnOk(cfg, before, clock, t) && t.phase == Prepared
    requires Frame(t, before, after) && t.held !! u.held
    requires t.job.PlaceJob? && u.job.PlaceJob? ==> t.job.id != u.job.id
    ensures TxnOk(cfg, after, clock, u)
  {
    if InTransaction(u) {
      ReadsUndisturbed(before, after, t, u);
      KeyStaysFree(cfg, before, after, clock, t, u);
    }
    if u.job.PlaceJob? && KeyUsed(before.orders, u.job.c.key) {
      KeyStaysUsed(before, after, t, u.job.c.key);
    }
  }

  lemma ReadsUndisturbed(before: Tables, after: Tables, t: Txn, u: Txn)
    requires Frame(t, before, after) && t.held !! u.held && ReadsHold(before, u) && Covered(before, u)
    ensures ReadsHold(after, u) && Covered(after, u)
  {
    forall p | p in u.products ensures p in after.products && after.products[p] == u.products[p] {
      assert ProductRow(p) in u.held;
    }
  }

  lemma KeyStaysUsed(before: Tables, after: Tables, t: Txn, key: string)
    requires Frame(t, before, after) && KeyUsed(before.orders, key)
    ensures KeyUsed(after.orders, key)
  {
    var id :| id in before.orders && before.orders[id].ticket.key == key;
    assert id in after.orders && after.orders[id].ticket.key == key;
  }

  lemma KeyStaysFree(cfg: Settings, before: Tables, after: Tables, clock: Time, t: Txn, u: Txn)
    requires TxnOk(cfg, before, clock, u) && TxnOk(cfg, before, clock, t) && t.phase == Prepared
    requires Frame(t, before, after) && t.held !! u.held
    ensures u.phase == Prepared && u.job.PlaceJob? && u.job.c.key != "" ==> !KeyUsed(after.orders, u.job.c.key)
  {
    if u.phase == Prepared && u.job.PlaceJob? && u.job.c.key != "" {
      var key := u.job.c.key;
      assert KeyRow(key) in u.held;
      assert t.job.PlaceJob? ==> t.job.c.key != key;
      forall id | id in after.orders ensures after.orders[id].ticket.key != key {
        assert id in before.orders ==> before.orders[id].ticket.key != key;
      }
    }
  }

  lemma CommittedTxnIsOk(cfg: Settings, tables: Tables, after: Tables, clock: Time, t: Txn)
    requires TxnOk(cfg, tables, clock, t) && t.phase == Prepared && Frame(t, tables, after)
    ensures TxnOk(cfg, after, clock, End(t, Committed))
  {
  }

  lemma GuardOnClock(o: Order, j: Job, now: Time)
    requires OnOrderRow(j) && RowOk(o) && OnClock(o, now) && Guard(o, j, now).Success?
    ensures OnClock(Guard(o, j, now).value, now)
  {
    match j
    case CancelJob(id, reason) => CancelKeepsRow(o, reason, now);
    case RestockJob(id) => RestockKeepsRow(o, now);
    case EditJob(id, edits) => EditsKeepRow(o, edits, now);
  }

  /** What a job stores, for the jobs that lock an order row. */
  lemma OrderJobStores(cfg: Settings, t: Tables, j: Job, now: Time)
    requires OnOrderRow(j) && Perform(cfg, t, j, now).Success?
    ensures j.order in t.orders && Guard(t.orders[j.order], j, now).Success?
    ensures Perform(cfg, t, j, now).value.orders == t.orders[j.order := Guard(t.orders[j.order], j, now).value]
  {
  }

  /** The row a commit writes was stamped while the transaction held it, so it is on the clock. */
  lemma CommitOnClock(cfg: Settings, tables: Tables, clock: Time, t: Txn)
    requires cfg.Sane() && TablesOk(tables) && AllOnClock(tables.orders, clock)
    requires TxnOk(cfg, tables, clock, t) && t.phase == Prepared
    requires Perform(cfg, tables, t.job, t.now).Success?
    ensures AllOnClock(Perform(cfg, tables, t.job, t.now).value.orders, clock)
  {
    var after := Perform(cfg, tables, t.job, t.now).value.orders;
    if OnOrderRow(t.job) {
      OrderJobStores(cfg, tables, t.job, t.now);
      var o := tables.orders[t.job.order];
      assert t.order == Some(o) && OnClock(o, t.now) && RowOk(o);
      GuardOnClock(o, t.job, t.now);
      StoredOnClock(tables.orders, t.job.order, Guard(o, t.job, t.now).value, t.now, clock);
    } else if t.job.PlaceJob? {
      PlaceDrafts(cfg, tables, t.job.c, t.job.id, t.now);
      OnClockLater(after[t.job.id], t.now, clock);
    } else {
      assert t.job.PatchJob? && after == tables.orders;
    }
  }

  lemma LogExtended(cfg: Settings, opening: Tables, w: World, e: Entry, after: Tables)
    requires Serial(cfg, opening, w) && Fresh(w.tables, e.job)
    requires Perform(cfg, w.tables, e.job, e.now) == Success(after)
    ensures RunAll(cfg, opening, w.log + [e]) == Some(after) && FreshRun(cfg, opening, w.log + [e])
  {
    assert (w.log + [e])[..|w.log|] == w.log;
  }

  lemma EndKeepsExclusive(txns: map<nat, Txn>, i: nat, outcome: Outcome)
    requires Exclusive(txns) && OwnIds(txns) && i in txns
    ensures Exclusive(txns[i := End(txns[i], outcome)]) && OwnIds(txns[i := End(txns[i], outcome)])
  {
  }

  lemma CommitKeepsOk(cfg: Settings, opening: Tables, w: World, i: nat)
    requires WorldOk(cfg, opening, w) && i in w.txns && w.txns[i].phase == Prepared
    requires Perform(cfg, View(w.txns[i]), w.txns[i].job, w.txns[i].now).Success?
    ensures var t := w.txns[i];
      var after := Overlay(w.tables, Perform(cfg, View(t), t.job, t.now).value);
      WorldOk(cfg, opening, World(after, w.txns[i := End(t, Committed)], w.clock, w.log + [Entry(t.job, t.now)]))
  {
    var t := w.txns[i];
    var after := Overlay(w.tables, Perform(cfg, View(t), t.job, t.now).value);
    CommitFrame(cfg, w.tables, w.clock, t);
    CommitOnClock(cfg, w.tables, w.clock, t);
    CommitAssembles(cfg, opening, w, i, after);
  }

  lemma CommitAssembles(cfg: Settings, opening: Tables, w: World, i: nat, after: Tables)
    requires WorldOk(cfg, opening, w) && i in w.txns && w.txns[i].phase == Prepared
    requires Perform(cfg, w.tables, w.txns[i].job, w.txns[i].now) == Success(after)
    requires TablesOk(after) && AllOnClock(after.orders, w.clock) && Frame(w.txns[i], w.tables, after)
    ensures WorldOk(cfg, opening,
      World(after, w.txns[i := End(w.txns[i], Committed)], w.clock, w.log + [Entry(w.txns[i].job, w.txns[i].now)]))
  {
    BooksAfterCommit(cfg, opening, w, i, after);
    TxnsAfterCommit(cfg, opening, w, i, after);
  }

  lemma BooksAfterCommit(cfg: Settings, opening: Tables, w: World, i: nat, after: Tables)
    requires WorldOk(cfg, opening, w) && i in w.txns && w.txns[i].phase == Prepared
    requires Perform(cfg, w.tables, w.txns[i].job, w.txns[i].now) == Success(after)
    requires Frame(w.txns[i], w.tables, after)
    ensures var t := w.txns[i];
      var next := World(after, w.txns[i := End(t, Committed)], w.clock, w.log + [Entry(t.job, t.now)]);
      Serial(cfg, opening, next) && Exclusive(next.txns) && OwnIds(next.txns) && Attributed(opening, next)
  {
    var t := w.txns[i];
    var next := World(after, w.txns[i := End(t, Committed)], w.clock, w.log + [Entry(t.job, t.now)]);
    assert TxnOk(cfg, w.tables, w.clock, t);
    LogExtended(cfg, opening, w, Entry(t.job, t.now), after);
    EndKeepsExclusive(w.txns, i, Committed);
    AttributedAfterCommit(opening, w, next, i, t);
  }

  lemma TxnsAfterCommit(cfg: Settings, opening: Tables, w: World, i: nat, after: Tables)
    requires WorldOk(cfg, opening, w) && i in w.txns && w.txns[i].phase == Prepared
    requires Frame(w.txns[i], w.tables, after)
    ensures var txns := w.txns[i := End(w.txns[i], Committed)];
      forall k :: k in txns ==> TxnOk(cfg, after, w.clock, txns[k])
  {
    CommittedTxnIsOk(cfg, w.tables, after, w.clock, w.txns[i]);
    OthersAfterCommit(cfg, opening, w, i, after);
  }

  lemma OthersAfterCommit(cfg: Settings, opening: Tables, w: World, i: nat, after: Tables)
    requires WorldOk(cfg, opening, w) && i in w.txns && w.txns[i].phase == Prepared
    requires Frame(w.txns[i], w.tables, after)
    ensures forall k :: k in w.txns && k != i ==> TxnOk(cfg, after, w.clock, w.txns[k])
  {
    forall k | k in w.txns && k != i ensures TxnOk(cfg, after, w.clock, w.txns[k]) {
      OthersUndisturbed(cfg, w.tables, after, w.clock, w.txns[i], w.txns[k]);
    }
  }

  lemma AttributedAfterCommit(opening: Tables, w: World, next: World, i: nat, t: Txn)
    requires Attributed(opening, w) && i in w.txns && w.txns[i] == t && Frame(t, w.tables, next.tables)
    requires next.txns == w.txns[i := End(t, Committed)]
    ensures Attributed(opening, next)
  {
    forall id | id in next.tables.orders && id !in opening.orders
      ensures exists k :: k in next.txns && next.txns[k].job.PlaceJob? && next.txns[k].job.id == id
    {
      if id in w.tables.orders {
        var k :| k in w.txns && w.txns[k].job.PlaceJob? && w.txns[k].job.id == id;
        assert next.txns[k].job == w.txns[k].job;
      } else {
        assert next.txns[i].job == t.job;
      }
    }
  }

  // ------------------------------------------------------------------------
  // Every step, every schedule
  // ------------------------------------------------------------------------

  lemma LockIsOk(cfg: Settings, w: World, t: Txn)
    requires TxnOk(cfg, w.tables, w.clock, t) && AllOnClock(w.tables.orders, w.clock)
    requires t.phase == Locking && t.todo != []
    ensures TxnOk(cfg, w.tables, w.clock, Locked(w, t)) && Locked(w, t).held <= t.held + {t.todo[0]}
    ensures Locked(w, t).job == t.job
  {
    if t.todo[0].OrderRow? {
      LockOrderIsOk(cfg, w, t);
    } else {
      LockRowIsOk(cfg, w, t);
    }
  }

  lemma ReReadIsOk(cfg: Settings, opening: Tables, w: World, i: nat)
    requires WorldOk(cfg, opening, w) && i in w.txns && w.txns[i].phase == KeyLost && Enabled(w, i)
    ensures WorldOk(cfg, opening, Stepped(cfg, w, i))
    ensures Stepped(cfg, w, i).txns[i].phase.Done? && Stepped(cfg, w, i).txns[i].phase.outcome.Replayed?
    ensures w.txns[i].job.PlaceJob?
    ensures var order := Stepped(cfg, w, i).txns[i].phase.outcome.order;
      order in w.tables.orders && w.tables.orders[order].ticket.key == w.txns[i].job.c.key
  {
    var t := w.txns[i];
    assert Reports(w.tables, t);
    var owner := KeyOwner(w.tables.orders, t.job.c.key);
    EndIsOk(cfg, w.tables, w.clock, t, Replayed(owner));
    TxnReplaced(cfg, opening, w, i, End(t, Replayed(owner)));
  }

  lemma LockingKeepsOk(cfg: Settings, opening: Tables, w: World, i: nat)
    requires WorldOk(cfg, opening, w) && i in w.txns && Enabled(w, i) && w.txns[i].phase == Locking
    ensures WorldOk(cfg, opening, Stepped(cfg, w, i))
  {
    var t := w.txns[i];
    if t.todo == [] {
      EvaluateIsOk(cfg, w, t);
      TxnReplaced(cfg, opening, w, i, Evaluated(cfg, w, t));
    } else {
      LockIsOk(cfg, w, t);
      assert Free(w, i, t.todo[0]);
      TxnReplaced(cfg, opening, w, i, Locked(w, t));
    }
  }

  lemma InsertingKeepsOk(cfg: Settings, opening: Tables, w: World, i: nat)
    requires WorldOk(cfg, opening, w) && i in w.txns && Enabled(w, i) && w.txns[i].phase == Inserting
    ensures WorldOk(cfg, opening, Stepped(cfg, w, i))
  {
    var t := w.txns[i];
    InsertIsOk(cfg, w, t);
    assert Wants(t).Some? ==> Free(w, i, Wants(t).value);
    TxnReplaced(cfg, opening, w, i, Inserted(w, t));
  }

  lemma StepKeepsOk(cfg: Settings, opening: Tables, w: World, i: nat)
    requires WorldOk(cfg, opening, w) && i in w.txns && Enabled(w, i)
    ensures WorldOk(cfg, opening, Stepped(cfg, w, i))
  {
    var t := w.txns[i];
    match t.phase
    case Start =>
      StartIsOk(cfg, w, t);
      TxnReplaced(cfg, opening, w, i, Started(w, t));
    case Locking => LockingKeepsOk(cfg, opening, w, i);
    case Inserting => InsertingKeepsOk(cfg, opening, w, i);
    case Prepared => CommitKeepsOk(cfg, opening, w, i);
    case KeyLost => ReReadIsOk(cfg, opening, w, i);
  }

  lemma TickKeepsOk(cfg: Settings, opening: Tables, w: World, d: nat)
    requires WorldOk(cfg, opening, w)
    ensures WorldOk(cfg, opening, w.(clock := w.clock + d))
  {
    var next := w.(clock := w.clock + d);
    forall id | id in w.tables.orders ensures OnClock(w.tables.orders[id], next.clock) {
      OnClockLater(w.tables.orders[id], w.clock, next.clock);
    }
    forall i | i in w.txns ensures TxnOk(cfg, next.tables, next.clock, next.txns[i]) {
      assert TxnOk(cfg, w.tables, w.clock, w.txns[i]);
    }
  }

  lemma ActKeepsOk(cfg: Settings, opening: Tables, w: World, a: Action)
    requires WorldOk(cfg, opening, w) && Act(cfg, w, a).Some?
    ensures WorldOk(cfg, opening, Act(cfg, w, a).value)
  {
    match a
    case Go(i) => StepKeepsOk(cfg, opening, w, i);
    case Abort(i) =>
      EndIsOk(cfg, w.tables, w.clock, w.txns[i], RolledBack);
      TxnReplaced(cfg, opening, w, i, End(w.txns[i], RolledBack));
    case Tick(d) => TickKeepsOk(cfg, opening, w, d);
  }

  /** The invariant holds after any schedule of any number of calls. */
  lemma {:induction false} ScheduleKeepsOk(cfg: Settings, w: World, actions: seq<Action>)
    requires Opening(cfg, w) && Schedule(cfg, w, actions).Some?
    ensures WorldOk(cfg, w.tables, Schedule(cfg, w, actions).value)
    ensures Schedule(cfg, w, actions).value.txns.Keys == w.txns.Keys
    ensures forall i :: i in w.txns ==> Schedule(cfg, w, actions).value.txns[i].job == w.txns[i].job
    decreases |actions|
  {
    if actions == [] {
      OpeningIsOk(cfg, w);
    } else {
      var init, last := actions[..|actions| - 1], actions[|actions| - 1];
      ScheduleKeepsOk(cfg, w, init);
      var mid := Schedule(cfg, w, init).value;
      ActKeepsOk(cfg, w.tables, mid, last);
      ActKeepsJobs(cfg, mid, last);
    }
  }

  lemma ActKeepsJobs(cfg: Settings, w: World, a: Action)
    requires Act(cfg, w, a).Some?
    ensures Act(cfg, w, a).value.txns.Keys == w.txns.Keys
    ensures forall i :: i in w.txns ==> Act(cfg, w, a).value.txns[i].job == w.txns[i].job
  {
    if a.Go? {
      StepKeepsJob(cfg, w, a.i);
    }
  }

  lemma StepKeepsJob(cfg: Settings, w: World, i: nat)
    requires i in w.txns && Enabled(w, i)
    ensures exists t: Txn :: t.job == w.txns[i].job && Stepped(cfg, w, i).txns == w.txns[i := t]
  {
    var t := w.txns[i];
    assert w.txns[i := t] == w.txns;
    match t.phase
    case Start => assert Started(w, t).job == t.job;
    case Locking =>
      if t.todo == [] {
        assert Evaluated(cfg, w, t).job == t.job;
      } else {
        assert Locked(w, t).job == t.job;
      }
    case Inserting => assert t.job.PlaceJob? ==> Inserted(w, t).job == t.job;
    case Prepared =>
    case KeyLost =>
  }

  /** Serialisability: after any schedule, the committed products and orders are exactly what
      running the committed jobs one at a time in commit order makes of the opening tables. */
  lemma EveryScheduleIsSerial(cfg: Settings, w: World, actions: seq<Action>)
    requires Opening(cfg, w) && Schedule(cfg, w, actions).Some?
    ensures var end := Schedule(cfg, w, actions).value;
      RunAll(cfg, w.tables, end.log) == Some(end.tables) && FreshRun(cfg, w.tables, end.log)
  {
    ScheduleKeepsOk(cfg, w, actions);
  }

  /** Conservation under interleaving: whatever the schedule, no stock goes negative, each
      product's shelf plus bags is its opening supply plus the net edits of the committed
      PATCHes, every order keeps its record and its stamps in order, and no order's goods come
      back twice. */
  lemma EveryScheduleConserves(cfg: Settings, w: World, actions: seq<Action>, p: nat, order: nat)
    requires Opening(cfg, w) && Schedule(cfg, w, actions).Some?
    ensures var end := Schedule(cfg, w, actions).value;
      && RunAll(cfg, w.tables, end.log) == Some(end.tables)
      && 0 <= StockOf(end.tables.products, p)
      && Supply(end.tables, p) == Supply(w.tables, p) + NetEdits(cfg, w.tables, end.log, p)
      && OrdersFollow(w.tables.orders, end.tables.orders)
      && AllOnClock(end.tables.orders, end.clock)
      && ReturnCount(end.log, order) <= 1
  {
    ScheduleKeepsOk(cfg, w, actions);
    var end := Schedule(cfg, w, actions).value;
    RunConserves(cfg, w.tables, end.log, p);
    GoodsReturnAtMostOnce(cfg, w.tables, end.log, order);
  }
}
