/** Any number of account requests in flight at once, each reading its guards in one step and
    writing its row in a later one, and exactly when the console stays administrable. */
module AdminRaces {
  import opened Prelude
  import opened Admins

  /** Not begun; past its guards, with the row it is about to write; or ended. */
  datatype Phase = Pending | Cleared(row: Account) | Over

  /** A request, and the existing row it writes. */
  datatype Writer = Writer(req: Request, id: nat, phase: Phase)

  datatype World = World(accounts: Accounts, writers: seq<Writer>)

  /** The next step of one writer: its guards on the table as committed by then, or its write. */
  function Stepped(w: World, k: nat): World
    requires k < |w.writers|
  {
    var x := w.writers[k];
    match x.phase
    case Pending =>
      if Target(w.accounts, x.req) == Some(x.id) && Answer(w.accounts, x.req).Success? then
        w.(writers := w.writers[k := x.(phase := Cleared(Becomes(w.accounts, x.req)))])
      else w.(writers := w.writers[k := x.(phase := Over)])
    case Cleared(row) => World(w.accounts[x.id := row], w.writers[k := x.(phase := Over)])
    case Over => w
  }

  function Run(w: World, schedule: seq<nat>): World {
    if schedule == [] then w
    else
      var mid := Run(w, schedule[..|schedule| - 1]);
      var k := schedule[|schedule| - 1];
      if k < |mid.writers| then Stepped(mid, k) else mid
  }

  /** Nothing begun, every writer on a row of its own: two writers of one row wait for each other's
      lock. */
  predicate OnOwnRows(w: World) {
    && (forall k :: 0 <= k < |w.writers| ==>
          w.writers[k].phase == Pending && Target(w.accounts, w.writers[k].req) == Some(w.writers[k].id))
    && (forall j, k :: 0 <= j < k < |w.writers| ==> w.writers[j].id != w.writers[k].id)
  }

  /** An email asked for is nobody else's, and no two ask for the same. */
  predicate EmailsApart(w: World) {
    && EmailsUnique(w.accounts)
    && (forall k :: 0 <= k < |w.writers| ==> !Clashes(w.accounts, w.writers[k].req))
    && (forall j, k :: 0 <= j < k < |w.writers| && Asks(w.writers[j].req).Some? ==>
          Asks(w.writers[j].req) != Asks(w.writers[k].req))
  }

  predicate Opening(w: World) {
    OnOwnRows(w) && EmailsApart(w)
  }

  /** The email a request asks for. */
  function Asks(req: Request): Option<string> {
    if req.PutAccount? then req.email else None
  }

  /** The request would take an active Admin away. */
  predicate Removes(o: World, k: nat)
    requires k < |o.writers|
  {
    var x := o.writers[k];
    Target(o.accounts, x.req) == Some(x.id) && ActiveAdmin(o.accounts, x.id) && !Administers(Becomes(o.accounts, x.req))
  }

  /** ... and would be let through on the opening table. */
  predicate Threat(o: World, k: nat)
    requires k < |o.writers|
  {
    Removes(o, k) && Answer(o.accounts, o.writers[k].req).Success?
  }

  /** An active Admin whom no threat is aimed at. */
  predicate Unthreatened(o: World, id: nat) {
    ActiveAdmin(o.accounts, id) && forall k :: 0 <= k < |o.writers| && o.writers[k].id == id ==> !Threat(o, k)
  }

  // ------------------------------------------------------------------------
  // One unthreatened Admin is enough
  // ------------------------------------------------------------------------

  /** An email in use is the opening one or the one its own writer asked for. */
  lemma EmailsInUse(o: World, w: World, x: nat)
    requires OnOwnRows(o) && Underway(o, w) && x in w.accounts && w.accounts[x].email != o.accounts[x].email
    ensures exists k ::
      0 <= k < |o.writers| && o.writers[k].id == x && Asks(o.writers[k].req) == Some(w.accounts[x].email)
  {
    var k :| 0 <= k < |o.writers| && o.writers[k].id == x && w.writers[k].phase == Over
             && Target(o.accounts, o.writers[k].req).Some? && w.accounts[x] == Becomes(o.accounts, o.writers[k].req);
  }

  /** So a pending writer finds the row it found at the start, and no email in its way. */
  lemma LookupsStand(o: World, w: World, k: nat)
    requires Opening(o) && Underway(o, w) && k < |w.writers| && w.writers[k].phase == Pending
    ensures Target(w.accounts, w.writers[k].req) == Some(w.writers[k].id)
    ensures !Clashes(w.accounts, w.writers[k].req)
  {
    var req, id := o.writers[k].req, o.writers[k].id;
    forall x | x in w.accounts && x != id
      ensures Asks(req).Some? ==> w.accounts[x].email != Asks(req).value
      ensures req.SeedAccount? ==> w.accounts[x].email != req.sought
    {
      if w.accounts[x].email != o.accounts[x].email {
        EmailsInUse(o, w, x);
        var j :| 0 <= j < |o.writers| && o.writers[j].id == x && Asks(o.writers[j].req) == Some(w.accounts[x].email);
        assert j != k && !Clashes(o.accounts, o.writers[j].req);
      }
    }
    if req.SeedAccount? {
      assert id in w.accounts && w.accounts[id].email == req.sought;
      assert Holders(w.accounts, req.sought) == {id};
    }
  }

  /** Somebody administers who did not at the start. */
  predicate Promoted(before: Accounts, after: Accounts) {
    exists id :: id in after && ActiveAdmin(after, id) && id in before && !ActiveAdmin(before, id)
  }

  /** A removal refused at the start and let through later saw a new Admin. */
  lemma GuardFlips(before: Accounts, after: Accounts, req: Request)
    requires before.Keys == after.Keys && Target(before, req).Some? && Target(after, req) == Target(before, req)
    requires !Clashes(before, req) && !Clashes(after, req)
    requires after[Target(before, req).value] == before[Target(before, req).value]
    requires ActiveAdmin(before, Target(before, req).value) && !Administers(Becomes(before, req))
    requires Answer(after, req).Success? && Answer(before, req).Failure?
    ensures Promoted(before, after)
  {
    var id := Target(before, req).value;
    assert !OtherActiveAdmin(before, id);
    assert OtherActiveAdmin(after, id);
    var other :| other in after && other != id && ActiveAdmin(after, other);
    assert other in before && !ActiveAdmin(before, other);
  }

  /** The row of a writer that has not written is as it was; any other changed row is as its writer
      asked. */
  ghost predicate Underway(o: World, w: World)
    requires OnOwnRows(o)
  {
    && w.accounts.Keys == o.accounts.Keys
    && |w.writers| == |o.writers|
    && (forall k :: 0 <= k < |o.writers| ==>
          && w.writers[k].req == o.writers[k].req && w.writers[k].id == o.writers[k].id
          && o.writers[k].id in w.accounts
          && (w.writers[k].phase != Over ==> w.accounts[o.writers[k].id] == o.accounts[o.writers[k].id])
          && (w.writers[k].phase.Cleared? ==> w.writers[k].phase.row == Becomes(o.accounts, o.writers[k].req)))
    && (forall id :: id in w.accounts && w.accounts[id] != o.accounts[id] ==> WrittenBy(o, w, id))
  }

  predicate WrittenBy(o: World, w: World, id: nat) {
    exists k :: 0 <= k < |o.writers| && k < |w.writers| && o.writers[k].id == id && w.writers[k].phase == Over
                && Target(o.accounts, o.writers[k].req).Some? && id in w.accounts
                && w.accounts[id] == Becomes(o.accounts, o.writers[k].req)
  }

  /** A removal past its guards was a threat from the start, or follows a promotion. */
  ghost predicate RemovalsExplained(o: World, w: World) {
    forall k :: 0 <= k < |o.writers| && k < |w.writers| && Removes(o, k) && PastGuards(o, w, k) ==>
      Threat(o, k) || Promoted(o.accounts, w.accounts)
  }

  predicate PastGuards(o: World, w: World, k: nat)
    requires k < |o.writers| && k < |w.writers|
  {
    w.writers[k].phase.Cleared?
    || (o.writers[k].id in w.accounts && o.writers[k].id in o.accounts
        && w.accounts[o.writers[k].id] != o.accounts[o.writers[k].id])
  }

  lemma CheckKeepsUnderway(o: World, w: World, k: nat)
    requires Opening(o) && Underway(o, w) && RemovalsExplained(o, w) && k < |w.writers| && w.writers[k].phase == Pending
    ensures Underway(o, Stepped(w, k)) && RemovalsExplained(o, Stepped(w, k))
  {
    var n := Stepped(w, k);
    LookupsStand(o, w, k);
    forall id | id in n.accounts && n.accounts[id] != o.accounts[id] ensures WrittenBy(o, n, id) {
      var j :| 0 <= j < |o.writers| && o.writers[j].id == id && w.writers[j].phase == Over
               && Target(o.accounts, o.writers[j].req).Some? && w.accounts[id] == Becomes(o.accounts, o.writers[j].req);
      assert n.writers[j] == w.writers[j];
    }
    forall j | 0 <= j < |o.writers| && Removes(o, j) && PastGuards(o, n, j)
      ensures Threat(o, j) || Promoted(o.accounts, n.accounts)
    {
      if j != k {
        assert PastGuards(o, w, j);
      } else if Answer(o.accounts, o.writers[k].req).Failure? {
        GuardFlips(o.accounts, w.accounts, o.writers[k].req);
      }
    }
  }

  lemma WriteKeepsRows(o: World, w: World, k: nat)
    requires OnOwnRows(o) && Underway(o, w) && k < |w.writers| && w.writers[k].phase.Cleared?
    ensures Underway(o, Stepped(w, k))
  {
    var n, id := Stepped(w, k), o.writers[k].id;
    assert Target(o.accounts, o.writers[k].req) == Some(id);
    assert n.accounts.Keys == w.accounts.Keys;
    forall x | x in n.accounts && n.accounts[x] != o.accounts[x] ensures WrittenBy(o, n, x) {
      if x == id {
        assert n.writers[k].phase == Over;
      } else {
        var j :| 0 <= j < |o.writers| && o.writers[j].id == x && w.writers[j].phase == Over
                 && Target(o.accounts, o.writers[j].req).Some?
                 && w.accounts[x] == Becomes(o.accounts, o.writers[j].req);
        assert n.writers[j] == w.writers[j];
      }
    }
    forall j | 0 <= j < |o.writers| && j != k ensures o.writers[j].id != id {
    }
  }

  /** A write leaves other rows alone, so whoever was promoted stays so. */
  lemma PromotedStays(before: Accounts, after: Accounts, id: nat, row: Account)
    requires id in before && id in after && after[id] == before[id] && Promoted(before, after)
    ensures Promoted(before, after[id := row])
  {
    var x :| x in after && ActiveAdmin(after, x) && x in before && !ActiveAdmin(before, x);
    assert x != id && x in after[id := row] && ActiveAdmin(after[id := row], x);
  }

  lemma WriteKeepsUnderway(o: World, w: World, k: nat)
    requires OnOwnRows(o) && Underway(o, w) && RemovalsExplained(o, w) && k < |w.writers| && w.writers[k].phase.Cleared?
    ensures Underway(o, Stepped(w, k)) && RemovalsExplained(o, Stepped(w, k))
  {
    WriteKeepsRows(o, w, k);
    WriteKeepsRemovals(o, w, k);
  }

  lemma WriteKeepsRemovals(o: World, w: World, k: nat)
    requires OnOwnRows(o) && Underway(o, w) && RemovalsExplained(o, w) && k < |w.writers| && w.writers[k].phase.Cleared?
    ensures RemovalsExplained(o, Stepped(w, k))
  {
    var n, id := Stepped(w, k), o.writers[k].id;
    if Promoted(o.accounts, w.accounts) {
      PromotedStays(o.accounts, w.accounts, id, w.writers[k].phase.row);
    }
    forall j | 0 <= j < |o.writers| && Removes(o, j) && PastGuards(o, n, j)
      ensures Threat(o, j) || Promoted(o.accounts, n.accounts)
    {
      OtherRow(o, j, k);
      assert PastGuards(o, w, j);
    }
  }

  lemma OtherRow(o: World, j: nat, k: nat)
    requires OnOwnRows(o) && j < |o.writers| && k < |o.writers|
    ensures j != k ==> o.writers[j].id != o.writers[k].id
  {
  }

  lemma {:induction false} RunKeepsUnderway(o: World, schedule: seq<nat>)
    requires Opening(o)
    ensures Underway(o, Run(o, schedule)) && RemovalsExplained(o, Run(o, schedule))
    decreases |schedule|
  {
    if schedule != [] {
      RunKeepsUnderway(o, schedule[..|schedule| - 1]);
      var mid := Run(o, schedule[..|schedule| - 1]);
      var k := schedule[|schedule| - 1];
      if k < |mid.writers| && mid.writers[k].phase == Pending {
        CheckKeepsUnderway(o, mid, k);
      } else if k < |mid.writers| && mid.writers[k].phase.Cleared? {
        WriteKeepsUnderway(o, mid, k);
      }
    }
  }

  lemma UnthreatenedIsEnough(o: World, w: World, id: nat)
    requires OnOwnRows(o) && Underway(o, w) && RemovalsExplained(o, w) && Unthreatened(o, id)
    ensures Administrable(w.accounts)
  {
    if w.accounts[id] == o.accounts[id] {
      assert id in w.accounts && ActiveAdmin(w.accounts, id);
    } else {
      var k :| 0 <= k < |o.writers| && o.writers[k].id == id && w.writers[k].phase == Over
               && Target(o.accounts, o.writers[k].req).Some? && w.accounts[id] == Becomes(o.accounts, o.writers[k].req);
      if Administers(w.accounts[id]) {
        assert ActiveAdmin(w.accounts, id);
        return;
      }
      assert Removes(o, k) && PastGuards(o, w, k);
      var other :| other in w.accounts && ActiveAdmin(w.accounts, other) && other in o.accounts;
    }
  }

  // ------------------------------------------------------------------------
  // All threatened is too few
  // ------------------------------------------------------------------------

  lemma RunSnoc(w: World, schedule: seq<nat>, k: nat)
    ensures var mid := Run(w, schedule);
      Run(w, schedule + [k]) == if k < |mid.writers| then Stepped(mid, k) else mid
  {
    assert (schedule + [k])[..|schedule|] == schedule;
  }

  /** First every threat passes its guards, on a table nobody has written to. */
  ghost predicate ThreatsCleared(o: World, w: World, n: nat)
    requires OnOwnRows(o)
  {
    && w.accounts == o.accounts && |w.writers| == |o.writers|
    && (forall k :: 0 <= k < |o.writers| ==>
          w.writers[k] == if k < n && Threat(o, k) then AboutToWrite(o, k) else o.writers[k])
  }

  function AboutToWrite(o: World, k: nat): Writer
    requires OnOwnRows(o) && k < |o.writers|
  {
    o.writers[k].(phase := Cleared(Becomes(o.accounts, o.writers[k].req)))
  }

  lemma OneThreatClears(o: World, w: World, k: nat)
    requires OnOwnRows(o) && k < |o.writers| && Threat(o, k) && ThreatsCleared(o, w, k)
    ensures ThreatsCleared(o, Stepped(w, k), k + 1)
  {
    assert Stepped(w, k).writers == w.writers[k := AboutToWrite(o, k)];
  }

  lemma NextThreatClears(o: World, before: seq<nat>, w: World, k: nat) returns (schedule: seq<nat>, after: World)
    requires OnOwnRows(o) && w == Run(o, before)
    requires k < |o.writers| && Threat(o, k) && ThreatsCleared(o, w, k)
    ensures after == Run(o, schedule) && ThreatsCleared(o, after, k + 1)
  {
    schedule, after := before + [k], Stepped(w, k);
    RunSnoc(o, before, k);
    OneThreatClears(o, w, k);
  }

  lemma NoneClearedYet(o: World)
    requires OnOwnRows(o)
    ensures ThreatsCleared(o, o, 0)
  {
  }

  lemma NotAThreat(o: World, w: World, n: nat)
    requires OnOwnRows(o) && n < |o.writers| && !Threat(o, n)
    ensures ThreatsCleared(o, w, n) ==> ThreatsCleared(o, w, n + 1)
    ensures ThreatsWritten(o, w, n) ==> ThreatsWritten(o, w, n + 1)
  {
  }

  lemma {:induction false} ThreatsClear(o: World, n: nat) returns (schedule: seq<nat>, w: World)
    requires OnOwnRows(o) && n <= |o.writers|
    ensures w == Run(o, schedule) && ThreatsCleared(o, w, n)
    decreases n
  {
    schedule, w := [], o;
    if n == 0 {
      NoneClearedYet(o);
    } else {
      schedule, w := ThreatsClear(o, n - 1);
      if Threat(o, n - 1) {
        schedule, w := NextThreatClears(o, schedule, w, n - 1);
      } else {
        NotAThreat(o, w, n - 1);
      }
    }
  }

  /** Then every threat writes. */
  ghost predicate ThreatsWritten(o: World, w: World, n: nat)
    requires OnOwnRows(o)
  {
    && |w.writers| == |o.writers| && w.accounts.Keys == o.accounts.Keys
    && (forall k :: n <= k < |o.writers| && Threat(o, k) ==>
          w.writers[k] == AboutToWrite(o, k))
    && (forall k :: 0 <= k < |o.writers| && k < n && Threat(o, k) ==>
          o.writers[k].id in w.accounts && !ActiveAdmin(w.accounts, o.writers[k].id))
    && (forall id :: id in w.accounts && ActiveAdmin(w.accounts, id) ==> ActiveAdmin(o.accounts, id))
  }

  lemma NoneWrittenYet(o: World, w: World)
    requires OnOwnRows(o) && ThreatsCleared(o, w, |o.writers|)
    ensures ThreatsWritten(o, w, 0)
  {
  }

  lemma {:induction false} ThreatsWrite(o: World, n: nat) returns (schedule: seq<nat>, w: World)
    requires OnOwnRows(o) && n <= |o.writers|
    ensures w == Run(o, schedule) && ThreatsWritten(o, w, n)
    decreases n
  {
    if n == 0 {
      schedule, w := ThreatsClear(o, |o.writers|);
      NoneWrittenYet(o, w);
    } else {
      schedule, w := ThreatsWrite(o, n - 1);
      if Threat(o, n - 1) {
        schedule, w := NextThreatWrites(o, schedule, w, n - 1);
      } else {
        NotAThreat(o, w, n - 1);
      }
    }
  }

  lemma NextThreatWrites(o: World, before: seq<nat>, w: World, k: nat) returns (schedule: seq<nat>, after: World)
    requires OnOwnRows(o) && w == Run(o, before)
    requires k < |o.writers| && Threat(o, k) && ThreatsWritten(o, w, k)
    ensures after == Run(o, schedule) && ThreatsWritten(o, after, k + 1)
  {
    schedule, after := before + [k], Stepped(w, k);
    RunSnoc(o, before, k);
    OneThreatWrites(o, w, k);
  }

  lemma OneThreatWrites(o: World, w: World, k: nat)
    requires OnOwnRows(o) && k < |o.writers| && Threat(o, k) && ThreatsWritten(o, w, k)
    ensures ThreatsWritten(o, Stepped(w, k), k + 1)
  {
  }

  /** Exactly when the console stays administrable: for any number of requests on different rows in
      flight at once, every schedule leaves an active Admin if and only if one of the opening ones
      is aimed at by no request that would take them away and that the opening table would let
      through. */
  lemma EveryScheduleAdministrableIff(o: World)
    requires Opening(o) && Administrable(o.accounts)
    ensures (forall schedule: seq<nat> :: Administrable(Run(o, schedule).accounts))
      <==> exists id :: id in o.accounts && Unthreatened(o, id)
  {
    if id :| id in o.accounts && Unthreatened(o, id) {
      forall schedule: seq<nat> ensures Administrable(Run(o, schedule).accounts) {
        RunKeepsUnderway(o, schedule);
        UnthreatenedIsEnough(o, Run(o, schedule), id);
      }
    } else {
      AllThreatenedIsTooFew(o);
    }
  }

  lemma AllThreatenedIsTooFew(o: World)
    requires OnOwnRows(o) && forall id :: id in o.accounts ==> !Unthreatened(o, id)
    ensures exists schedule: seq<nat> :: !Administrable(Run(o, schedule).accounts)
  {
    var schedule, w := ThreatsWrite(o, |o.writers|);
    forall id | id in w.accounts ensures !ActiveAdmin(w.accounts, id) {
      if ActiveAdmin(o.accounts, id) {
        var k :| 0 <= k < |o.writers| && o.writers[k].id == id && Threat(o, k);
      }
    }
    assert !Administrable(Run(o, schedule).accounts);
  }

  /** The last two active Admins of any table can demote each other at the same moment, and nobody
      can administer the console any more; one after the other, the second would be refused. */
  lemma LastTwoCanDemoteEachOther(t: Accounts, a: nat, b: nat)
    requires EmailsUnique(t) && a != b && ActiveAdmin(t, a) && ActiveAdmin(t, b)
    requires forall id :: id in t && ActiveAdmin(t, id) ==> id == a || id == b
    ensures var x, y := PutAccount(a, b, None, Some(Manager), None), PutAccount(b, a, None, Some(Manager), None);
      var o := World(t, [Writer(x, b, Pending), Writer(y, a, Pending)]);
      && Opening(o) && (exists schedule: seq<nat> :: !Administrable(Run(o, schedule).accounts))
      && Answer(t, x).Success? && Answer(Answer(t, x).value, y) == Failure(LastAdmin)
  {
    var x, y := PutAccount(a, b, None, Some(Manager), None), PutAccount(b, a, None, Some(Manager), None);
    LastTwoCanRemoveEachOther(t, a, b, x, y);
    AnswerWrites(t, x);
    assert !OtherActiveAdmin(Answer(t, x).value, a);
  }

  /** They can deactivate each other, too. */
  lemma LastTwoCanDeactivateEachOther(t: Accounts, a: nat, b: nat)
    requires EmailsUnique(t) && a != b && ActiveAdmin(t, a) && ActiveAdmin(t, b)
    requires forall id :: id in t && ActiveAdmin(t, id) ==> id == a || id == b
    ensures var o := World(t, [Writer(DeleteAccount(a, b), b, Pending), Writer(DeleteAccount(b, a), a, Pending)]);
      Opening(o) && exists schedule: seq<nat> :: !Administrable(Run(o, schedule).accounts)
  {
    LastTwoCanRemoveEachOther(t, a, b, DeleteAccount(a, b), DeleteAccount(b, a));
  }

  lemma LastTwoCanRemoveEachOther(t: Accounts, a: nat, b: nat, x: Request, y: Request)
    requires EmailsUnique(t) && a != b && ActiveAdmin(t, a) && ActiveAdmin(t, b)
    requires forall id :: id in t && ActiveAdmin(t, id) ==> id == a || id == b
    requires Target(t, x) == Some(b) && Target(t, y) == Some(a) && Asks(x).None? && Asks(y).None?
    requires !Administers(Becomes(t, x)) && !Administers(Becomes(t, y))
    requires OtherActiveAdmin(t, a) && OtherActiveAdmin(t, b) ==> Answer(t, x).Success? && Answer(t, y).Success?
    ensures var o := World(t, [Writer(x, b, Pending), Writer(y, a, Pending)]);
      Opening(o) && exists schedule: seq<nat> :: !Administrable(Run(o, schedule).accounts)
  {
    var o := World(t, [Writer(x, b, Pending), Writer(y, a, Pending)]);
    assert OtherActiveAdmin(t, a) && OtherActiveAdmin(t, b);
    assert Threat(o, 0) && Threat(o, 1);
    assert !Unthreatened(o, a) && !Unthreatened(o, b);
    EveryScheduleAdministrableIff(o);
  }
}
