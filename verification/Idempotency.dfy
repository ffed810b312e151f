/** Retries of one checkout attempt, sequential or concurrent, place at most one order. */
module Idempotency {
  import opened Prelude
  import opened Pricing
  import opened Orders
  import opened Baskets
  import opened Checkouts
  import opened Ledger
  import opened Interleaving
  import opened Serialisability

  /** How many jobs of a log placed an order under a key: how often its stock moved. */
  function PlacedWith(log: seq<Entry>, key: string): nat {
    if log == [] then 0
    else PlacedWith(log[..|log| - 1], key) + if Places(log[|log| - 1].job, key) then 1 else 0
  }

  predicate Places(j: Job, key: string) {
    j.PlaceJob? && j.c.key == key
  }

  lemma KeyPersists(cfg: Settings, t: Tables, j: Job, now: Time, key: string)
    requires cfg.Sane() && TablesOk(t) && Fresh(t, j) && Perform(cfg, t, j, now).Success? && key != ""
    ensures var after := Perform(cfg, t, j, now).value.orders;
      KeyUsed(after, key) <==> KeyUsed(t.orders, key) || Places(j, key)
    ensures KeyUsed(t.orders, key) ==> !Places(j, key)
  {
    var after := Perform(cfg, t, j, now).value.orders;
    PerformKeepsTables(cfg, t, j, now);
    if KeyUsed(t.orders, key) {
      var id :| id in t.orders && t.orders[id].ticket.key == key;
      assert Follows(t.orders[id], after[id]);
    }
    if j.PlaceJob? {
      PlacedKey(cfg, t, j.c, j.id, now);
    }
    if KeyUsed(after, key) {
      var id :| id in after && after[id].ticket.key == key;
      assert id in t.orders ==> Follows(t.orders[id], after[id]);
    }
  }

  /** A run places at most one order per key, and none under a key already taken. */
  lemma {:induction false} OnePlacementPerKey(cfg: Settings, t: Tables, log: seq<Entry>, key: string)
    requires cfg.Sane() && TablesOk(t) && RunAll(cfg, t, log).Some? && FreshRun(cfg, t, log) && key != ""
    ensures PlacedWith(log, key) + (if KeyUsed(t.orders, key) then 1 else 0)
      == if KeyUsed(RunAll(cfg, t, log).value.orders, key) then 1 else 0
    decreases |log|
  {
    if log != [] {
      var init, last := log[..|log| - 1], log[|log| - 1];
      OnePlacementPerKey(cfg, t, init, key);
      RunConserves(cfg, t, init, 0);
      KeyPersists(cfg, RunAll(cfg, t, init).value, last.job, last.now, key);
    }
  }

  predicate Calls(t: Txn, key: string) {
    Places(t.job, key)
  }

  /** The call reports that it created its order. */
  predicate Created(t: Txn) {
    t.phase == Done(Committed)
  }

  /** The call was answered with an order placed by another. */
  predicate WasReplayed(t: Txn) {
    t.phase.Done? && t.phase.outcome.Replayed?
  }

  ghost predicate HasKey(orders: map<nat, Order>, id: nat, key: string) {
    id in orders && orders[id].ticket.key == key
  }

  /** Everything one call with a key can have done: created the one order that carries it, been
      handed that same order, or placed nothing. */
  lemma OneCall(cfg: Settings, w: World, actions: seq<Action>, end: World, key: string, i: nat, order: nat)
    requires Opening(cfg, w) && Schedule(cfg, w, actions) == Some(end) && key != ""
    requires i in end.txns && Calls(end.txns[i], key)
    ensures var t := end.txns[i];
      && (Created(t) <==> t.job.id in end.tables.orders)
      && (Created(t) && HasKey(end.tables.orders, order, key) ==> order == t.job.id)
      && (WasReplayed(t) ==> HasKey(end.tables.orders, t.phase.outcome.order, key))
      && (WasReplayed(t) && HasKey(end.tables.orders, order, key) ==> t.phase.outcome.order == order)
      && t.phase != Done(Refused(KeyTaken))
  {
    ScheduleKeepsOk(cfg, w, actions);
    assert Reports(end.tables, end.txns[i]);
  }

  ghost function Creators(w: World, key: string): set<nat> {
    set i | i in w.txns && Calls(w.txns[i], key) && Created(w.txns[i])
  }

  /** Idempotency, after any schedule of any mix of calls, for every non-empty key. At most one
      order carries the key and its stock moved at most once. If the key was free to begin with
      and is now taken, exactly one call reports having created the order; if it was taken to
      begin with, none does. */
  lemma RetriesPlaceOneOrder(cfg: Settings, w: World, actions: seq<Action>, end: World, key: string)
    requires Opening(cfg, w) && Schedule(cfg, w, actions) == Some(end) && key != ""
    ensures KeysUnique(end.tables.orders)
    ensures PlacedWith(end.log, key) == |Creators(end, key)|
    ensures |Creators(end, key)| == if KeyUsed(end.tables.orders, key) && !KeyUsed(w.tables.orders, key) then 1 else 0
  {
    ScheduleKeepsOk(cfg, w, actions);
    OnePlacementPerKey(cfg, w.tables, end.log, key);
    RunConserves(cfg, w.tables, end.log, 0);
    assert Accounted(w.tables.orders, end);
    if KeyUsed(end.tables.orders, key) && !KeyUsed(w.tables.orders, key) {
      OneCreator(w.tables.orders, end, key);
    } else {
      NoCreator(w.tables.orders, end, key);
    }
  }

  /** What the counting of creators rests on. */
  ghost predicate Accounted(before: map<nat, Order>, end: World) {
    && KeysUnique(end.tables.orders)
    && OrdersFollow(before, end.tables.orders)
    && OwnIds(end.txns)
    && (forall i :: i in end.txns ==> Reports(end.tables, end.txns[i]))
    && (forall i :: i in end.txns && end.txns[i].job.PlaceJob? ==> end.txns[i].job.id !in before)
    && (forall id :: id in end.tables.orders && id !in before ==>
          exists i :: i in end.txns && end.txns[i].job.PlaceJob? && end.txns[i].job.id == id)
  }

  lemma NoCreator(before: map<nat, Order>, end: World, key: string)
    requires Accounted(before, end) && key != ""
    requires KeyUsed(end.tables.orders, key) ==> KeyUsed(before, key)
    ensures Creators(end, key) == {}
  {
    forall i | i in end.txns && Calls(end.txns[i], key) ensures !Created(end.txns[i]) {
      assert Reports(end.tables, end.txns[i]);
      assert Created(end.txns[i]) ==> HasKey(end.tables.orders, end.txns[i].job.id, key);
      if KeyUsed(before, key) {
        var first := KeyOwner(before, key);
        OpeningOwnerPersists(before, end.tables.orders, first, key);
      }
    }
  }

  lemma OneCreator(before: map<nat, Order>, end: World, key: string)
    requires Accounted(before, end) && key != ""
    requires KeyUsed(end.tables.orders, key) && !KeyUsed(before, key)
    ensures |Creators(end, key)| == 1
  {
    var owner := KeyOwner(end.tables.orders, key);
    var maker := Maker(before, end, owner, key);
    forall i | i in Creators(end, key) ensures i == maker {
      assert Reports(end.tables, end.txns[i]);
      assert HasKey(end.tables.orders, end.txns[i].job.id, key);
    }
    assert Creators(end, key) == {maker};
  }

  lemma OpeningOwnerPersists(before: map<nat, Order>, after: map<nat, Order>, id: nat, key: string)
    requires OrdersFollow(before, after) && HasKey(before, id, key)
    ensures HasKey(after, id, key)
  {
    assert Follows(before[id], after[id]);
  }

  /** The call that placed a new order. */
  lemma Maker(before: map<nat, Order>, end: World, id: nat, key: string) returns (i: nat)
    requires Accounted(before, end) && key != ""
    requires HasKey(end.tables.orders, id, key) && !KeyUsed(before, key)
    ensures i in end.txns && Calls(end.txns[i], key) && Created(end.txns[i]) && end.txns[i].job.id == id
  {
    assert id in before ==> Follows(before[id], end.tables.orders[id]);
    assert id !in before;
    i :| i in end.txns && end.txns[i].job.PlaceJob? && end.txns[i].job.id == id;
    assert Reports(end.tables, end.txns[i]);
  }

  /** The losing side of a race always finds its winner: the re-read after a unique violation
      is answered with a replay, never with nothing. */
  lemma LoserFindsWinner(cfg: Settings, w: World, actions: seq<Action>, end: World, i: nat)
    requires Opening(cfg, w) && Schedule(cfg, w, actions) == Some(end)
    requires i in end.txns && end.txns[i].phase == KeyLost
    ensures Enabled(end, i) && end.txns[i].job.PlaceJob?
    ensures WasReplayed(Stepped(cfg, end, i).txns[i])
    ensures HasKey(end.tables.orders, Stepped(cfg, end, i).txns[i].phase.outcome.order, end.txns[i].job.c.key)
  {
    ScheduleKeepsOk(cfg, w, actions);
    LoserIsAnswered(cfg, w.tables, end, i);
  }

  /** A retry that begins after its key is on file is answered with the order that carries it, at its
      first step, whatever has become of the shop and the shelf. */
  lemma SequentialRetryIsReplayed(cfg: Settings, w: World, i: nat)
    requires i in w.txns && w.txns[i].phase == Start && w.txns[i].job.PlaceJob?
    requires w.txns[i].job.c.key != ""
    requires exists id :: id in w.tables.orders && w.tables.orders[id].ticket.key == w.txns[i].job.c.key
    ensures Enabled(w, i)
    ensures var n := Stepped(cfg, w, i);
      && n.tables == w.tables && WasReplayed(n.txns[i])
      && HasKey(w.tables.orders, n.txns[i].phase.outcome.order, w.txns[i].job.c.key)
  {
    assert KeyUsed(w.tables.orders, w.txns[i].job.c.key);
  }

  lemma LoserIsAnswered(cfg: Settings, opening: Tables, w: World, i: nat)
    requires WorldOk(cfg, opening, w) && i in w.txns && w.txns[i].phase == KeyLost
    ensures Enabled(w, i) && w.txns[i].job.PlaceJob?
    ensures WasReplayed(Stepped(cfg, w, i).txns[i])
    ensures HasKey(w.tables.orders, Stepped(cfg, w, i).txns[i].phase.outcome.order, w.txns[i].job.c.key)
  {
    assert Wants(w.txns[i]).None?;
    ReReadIsOk(cfg, opening, w, i);
  }
}
