/** What the hand-back loop counts, in the rows' own columns: whom a request hands the order to, when a
    rider gives it back, and which of the two make a round. */
module HandBacks {
  import opened Prelude
  import opened Pricing
  import opened Orders
  import opened Ledger
  import opened Dispatch
  import opened Feed
  import opened Shops
  import opened ShopRuns

  /** A status request asks for Ready, and is granted. */
  predicate PutsBack(env: Env, s: Shop, call: Call, id: nat) {
    && call.req.PatchStatus? && call.req.order == id && call.req.target == Ready
    && Step(env, s, call.req, call.now).Success?
  }

  /** Whoever carries the order once it has been put back is whom automatic assignment picked, and
      no other request picks anybody. */
  lemma PickedIsTheRider(env: Env, s: Shop, call: Call, id: nat)
    requires ShopOk(s)
    ensures PutsBack(env, s, call, id) ==>
      var n := After(env, s, call);
      id in n.tables.orders && n.tables.orders[id].rider == AutoPicked(env, s, call, id)
    ensures !PutsBack(env, s, call, id) ==> AutoPicked(env, s, call, id).None?
  {
    if PutsBack(env, s, call, id) {
      var req := call.req;
      var moved := Moved(env, s, req.actor, id, Ready, req.reason, req.amount, call.now).value;
      var o := s.tables.orders[id];
      TwoEdits(o, SetStatus(req.actor, Ready, req.reason, Natural(req.amount)), Accept(0), call.now);
      assert moved.tables.orders[id].rider.None?;
    }
  }

  /** A rider hands an order back by asking for Ready while carrying it, and in no other way. */
  lemma HandedBackIff(env: Env, s: Shop, call: Call, id: nat, r: nat)
    requires ShopOk(s)
    ensures HandedBack(env, s, call, id) == Some(r) <==>
      && call.req.PatchStatus? && call.req.actor == Actor.Rider(r) && call.req.order == id
      && call.req.target == Ready && call.req.amount.None?
      && r in s.roster && s.roster[r].delivery && s.roster[r].active
      && id in s.tables.orders && s.tables.orders[id].status == Dispatched && s.tables.orders[id].rider == Some(r)
  {
    if call.req.PatchStatus? && id in s.tables.orders {
      var req, o := call.req, s.tables.orders[id];
      assert RowOk(o);
      if req.amount.None? {
        TwoEdits(o, SetStatus(req.actor, Ready, req.reason, None), Accept(0), call.now);
      }
    }
  }

  function RowAt(s: Shop, id: nat): Option<Order> {
    if id in s.tables.orders then Some(s.tables.orders[id]) else None
  }

  /** The order's row at the start and after each call. */
  function RowsSeen(env: Env, s: Shop, calls: seq<Call>, id: nat): (rows: seq<Option<Order>>)
    ensures |rows| == |calls| + 1
  {
    if calls == [] then [RowAt(s, id)]
    else RowsSeen(env, s, calls[..|calls| - 1], id) + [RowAt(Run(env, s, calls), id)]
  }

  lemma {:induction false} RowsSeenAt(env: Env, s: Shop, calls: seq<Call>, id: nat, k: nat)
    requires k <= |calls|
    ensures RowsSeen(env, s, calls, id)[k] == RowAt(Run(env, s, calls[..k]), id)
    decreases |calls|
  {
    if k == |calls| {
      assert calls[..k] == calls;
    } else {
      RowsSeenAt(env, s, calls[..|calls| - 1], id, k);
      assert calls[..|calls| - 1][..k] == calls[..k];
    }
  }

  /** The row is on file and has not changed since entry n. */
  predicate SameSince(rows: seq<Option<Order>>, n: nat) {
    n < |rows| && rows[n].Some? && forall k :: n <= k < |rows| ==> rows[k] == rows[n]
  }

  /** Call n handed the order to r by automatic assignment, and its row has not changed since. */
  predicate CarriedSince(env: Env, s: Shop, calls: seq<Call>, id: nat, r: nat, n: nat) {
    && n < |calls|
    && AutoPicked(env, Run(env, s, calls[..n]), calls[n], id) == Some(r)
    && SameSince(RowsSeen(env, s, calls, id), n + 1)
  }

  lemma SameSinceSnoc(rows: seq<Option<Order>>, row: Option<Order>, n: nat)
    ensures n < |rows| ==> (SameSince(rows + [row], n) <==> SameSince(rows, n) && row == rows[|rows| - 1])
    ensures n == |rows| ==> (SameSince(rows + [row], n) <==> row.Some?)
  {
    var longer := rows + [row];
    assert n < |rows| && SameSince(longer, n) ==> longer[|rows|] == longer[n] == longer[|rows| - 1];
    assert forall k :: 0 <= k < |rows| ==> longer[k] == rows[k];
  }

  lemma CarriedStep(env: Env, s: Shop, calls: seq<Call>, id: nat, r: nat, n: nat)
    requires env.cfg.Sane() && ShopOk(s) && calls != []
    ensures var last := |calls| - 1;
      var init := calls[..last];
      CarriedSince(env, s, calls, id, r, n) <==>
        if n < last then
          CarriedSince(env, s, init, id, r, n) && RowAt(Run(env, s, init), id) == RowAt(Run(env, s, calls), id)
        else n == last && AutoPicked(env, Run(env, s, init), calls[last], id) == Some(r)
  {
    var last := |calls| - 1;
    var init := calls[..last];
    SameSinceSnoc(RowsSeen(env, s, init, id), RowAt(Run(env, s, calls), id), n + 1);
    RowsSeenAt(env, s, init, id, last);
    assert init[..last] == init;
    if n < last {
      assert init[..n] == calls[..n];
    } else if n == last && AutoPicked(env, Run(env, s, init), calls[last], id) == Some(r) {
      ShopRunIsLedgerRun(env, s, init);
      PickedIsTheRider(env, Run(env, s, init), calls[last], id);
    }
  }

  /** And so the rider is still the order's. */
  lemma CarrierIsTheRider(env: Env, s: Shop, calls: seq<Call>, id: nat, r: nat, n: nat)
    requires env.cfg.Sane() && ShopOk(s) && CarriedSince(env, s, calls, id, r, n)
    ensures id in Run(env, s, calls).tables.orders && Run(env, s, calls).tables.orders[id].rider == Some(r)
  {
    ShopRunIsLedgerRun(env, s, calls[..n]);
    PickedIsTheRider(env, Run(env, s, calls[..n]), calls[n], id);
    assert calls[..n + 1][..n] == calls[..n];
    RowsSeenAt(env, s, calls, id, n + 1);
    RowsSeenAt(env, s, calls, id, |calls|);
    assert calls[..|calls|] == calls;
  }

  /** The rider counted as carrying the order by automatic assignment is the one it was handed to. */
  lemma {:induction false} StintIff(env: Env, s: Shop, calls: seq<Call>, id: nat, r: nat)
    requires env.cfg.Sane() && ShopOk(s)
    ensures Stint(env, s, calls, id) == Some(r) <==> exists n: nat :: CarriedSince(env, s, calls, id, r, n)
    decreases |calls|
  {
    if calls != [] {
      var last := |calls| - 1;
      var init := calls[..last];
      StintIff(env, s, init, id, r);
      ShopRunIsLedgerRun(env, s, init);
      PickedIsTheRider(env, Run(env, s, init), calls[last], id);
      forall n: nat
        ensures CarriedSince(env, s, calls, id, r, n) <==>
          if n < last then
            CarriedSince(env, s, init, id, r, n) && RowAt(Run(env, s, init), id) == RowAt(Run(env, s, calls), id)
          else n == last && AutoPicked(env, Run(env, s, init), calls[last], id) == Some(r)
      {
        CarriedStep(env, s, calls, id, r, n);
      }
      forall n: nat | CarriedSince(env, s, init, id, r, n)
        ensures n < last && RowAt(Run(env, s, init), id).Some? && Run(env, s, init).tables.orders[id].rider == Some(r)
      {
        CarrierIsTheRider(env, s, init, id, r, n);
      }
      if AutoPicked(env, Run(env, s, init), calls[last], id) == Some(r) {
        assert CarriedSince(env, s, calls, id, r, last);
      }
    }
  }

  /** A round is a hand-back by the rider the order was automatically assigned to, its row unchanged in
      between; every such hand-back is counted, and nothing else. */
  lemma RoundsAreHandBacks(env: Env, s: Shop, calls: seq<Call>, call: Call, id: nat)
    requires env.cfg.Sane() && ShopOk(s)
    ensures Rounds(env, s, [], id) == []
    ensures var back := HandedBack(env, Run(env, s, calls), call, id);
      Rounds(env, s, calls + [call], id) ==
        if back.Some? && exists n: nat :: CarriedSince(env, s, calls, id, back.value, n)
        then Rounds(env, s, calls, id) + [back.value] else Rounds(env, s, calls, id)
  {
    RoundsSnoc(env, s, calls, call, id);
    var back := HandedBack(env, Run(env, s, calls), call, id);
    if back.Some? {
      StintIff(env, s, calls, id, back.value);
    }
  }

  lemma RoundsSnoc(env: Env, s: Shop, calls: seq<Call>, call: Call, id: nat)
    ensures var back := HandedBack(env, Run(env, s, calls), call, id);
      Rounds(env, s, calls + [call], id) ==
        if back.Some? && back == Stint(env, s, calls, id) then Rounds(env, s, calls, id) + [back.value]
        else Rounds(env, s, calls, id)
  {
    var longer := calls + [call];
    assert longer[..|longer| - 1] == calls && longer[|longer| - 1] == call;
  }
}
