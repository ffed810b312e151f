/** One staff account whose edits read the whole row and later write the whole row back, with no lock
    between, while sign-outs and resets move its version on: exactly when a retired token is
    accepted again. */
module StaleSaves {
  import opened Prelude
  import opened Orders
  import opened Sessions

  /** The version moves on; an edit reads the row; that edit writes back the row it read. */
  datatype Event = Bump | Read(edit: nat) | Save(edit: nat)

  /** Where an edit read the row. */
  function ReadAt(events: seq<Event>, k: nat): Option<nat> {
    if events == [] then None
    else if events[|events| - 1] == Read(k) then Some(|events| - 1)
    else ReadAt(events[..|events| - 1], k)
  }

  lemma {:induction false} ReadAtMeaning(events: seq<Event>, k: nat)
    ensures ReadAt(events, k).Some? ==> ReadAt(events, k).value < |events| && events[ReadAt(events, k).value] == Read(k)
    ensures ReadAt(events, k).None? ==> forall i :: 0 <= i < |events| ==> events[i] != Read(k)
    decreases |events|
  {
    if events != [] {
      ReadAtMeaning(events[..|events| - 1], k);
    }
  }

  /** The row's version after the events. */
  function Version(start: nat, events: seq<Event>): nat
    decreases |events|
  {
    if events == [] then start
    else
      var init, last := events[..|events| - 1], events[|events| - 1];
      match last
      case Bump => Version(start, init) + 1
      case Read(_) => Version(start, init)
      case Save(k) =>
        ReadAtMeaning(init, k);
        if ReadAt(init, k).Some? then Version(start, init[..ReadAt(init, k).value]) else Version(start, init)
  }

  /** The version when n events had happened. */
  function VersionAt(start: nat, events: seq<Event>, n: nat): nat
    requires n <= |events|
  {
    Version(start, events[..n])
  }

  /** An edit reads once, and before it saves. */
  predicate Orderly(events: seq<Event>) {
    && (forall i, j :: 0 <= i < j < |events| && events[i].Read? ==> events[i] != events[j])
    && (forall j :: 0 <= j < |events| && events[j].Save? ==>
          exists i :: 0 <= i < j && events[i] == Read(events[j].edit))
  }

  /** The version moved on between an edit's read and its save. */
  predicate Straddles(events: seq<Event>, read: nat, bump: nat, save: nat) {
    && read < bump < save < |events|
    && events[read].Read? && events[bump] == Bump && events[save] == Save(events[read].edit)
  }

  predicate NoStraddle(events: seq<Event>, n: nat)
    requires n <= |events|
  {
    forall read, bump, save :: 0 <= read < bump < save < n ==> !Straddles(events, read, bump, save)
  }

  /** What one event does to the version. */
  lemma VersionStep(start: nat, events: seq<Event>, n: nat)
    requires Orderly(events) && n < |events|
    ensures events[n] == Bump ==> VersionAt(start, events, n + 1) == VersionAt(start, events, n) + 1
    ensures events[n].Read? ==> VersionAt(start, events, n + 1) == VersionAt(start, events, n)
    ensures events[n].Save? ==> exists i :: 0 <= i < n && events[i] == Read(events[n].edit)
                                        && VersionAt(start, events, n + 1) == VersionAt(start, events, i)
  {
    var upto := events[..n + 1];
    assert upto[..n] == events[..n] && upto[n] == events[n];
    if events[n].Save? {
      ReadAtMeaning(events[..n], events[n].edit);
      var i :| 0 <= i < n && events[i] == Read(events[n].edit);
      assert events[..n][i] == events[i];
      var at := ReadAt(events[..n], events[n].edit).value;
      assert events[..n][at] == events[at] && events[..n][..at] == events[..at];
    }
  }

  function BumpsBefore(events: seq<Event>, n: nat): nat
    requires n <= |events|
  {
    if n == 0 then 0 else BumpsBefore(events, n - 1) + if events[n - 1] == Bump then 1 else 0
  }

  lemma {:induction false} BumpsBetween(events: seq<Event>, a: nat, b: nat)
    requires a <= b <= |events|
    ensures BumpsBefore(events, a) <= BumpsBefore(events, b)
    ensures BumpsBefore(events, a) == BumpsBefore(events, b) <==> forall i :: a <= i < b ==> events[i] != Bump
    decreases b
  {
    if a < b {
      BumpsBetween(events, a, b - 1);
    }
  }

  /** With no edit straddling a bump, the version counts the bumps. */
  lemma {:induction false} VersionCountsBumps(start: nat, events: seq<Event>, n: nat)
    requires Orderly(events) && n <= |events| && NoStraddle(events, n)
    ensures VersionAt(start, events, n) == start + BumpsBefore(events, n)
    decreases n
  {
    if n > 0 {
      VersionCountsBumps(start, events, n - 1);
      VersionStep(start, events, n - 1);
      if events[n - 1].Save? {
        var i :| 0 <= i < n - 1 && events[i] == Read(events[n - 1].edit)
                 && VersionAt(start, events, n) == VersionAt(start, events, i);
        VersionCountsBumps(start, events, i);
        NoBumpSinceRead(events, i, n - 1);
      }
    }
  }

  lemma NoBumpSinceRead(events: seq<Event>, read: nat, save: nat)
    requires read < save < |events| && NoStraddle(events, save + 1)
    requires events[save].Save? && events[read] == Read(events[save].edit)
    ensures BumpsBefore(events, read) == BumpsBefore(events, save)
  {
    forall m | read <= m < save ensures events[m] != Bump {
      assert !Straddles(events, read, m, save);
    }
    BumpsBetween(events, read, save);
  }

  /** A version comes back after the row had moved past it. */
  ghost predicate Returns(start: nat, events: seq<Event>, a: nat, b: nat, c: nat) {
    && a < b < c <= |events|
    && VersionAt(start, events, a) == VersionAt(start, events, c)
    && VersionAt(start, events, a) != VersionAt(start, events, b)
  }

  /** The first save to straddle a bump brings back the version it read. */
  lemma FirstStraddleReturns(start: nat, events: seq<Event>, read: nat, bump: nat, save: nat)
    requires Orderly(events) && Straddles(events, read, bump, save) && NoStraddle(events, save)
    ensures Returns(start, events, read, bump + 1, save + 1)
  {
    VersionStep(start, events, save);
    VersionCountsBumps(start, events, read);
    VersionCountsBumps(start, events, bump + 1);
    BumpsBetween(events, read, bump + 1);
    var i :| 0 <= i < save && events[i] == Read(events[save].edit)
             && VersionAt(start, events, save + 1) == VersionAt(start, events, i);
    assert i == read;
  }

  lemma {:induction false} FirstStraddle(events: seq<Event>, n: nat) returns (read: nat, bump: nat, save: nat)
    requires n <= |events| && !NoStraddle(events, n)
    ensures Straddles(events, read, bump, save) && NoStraddle(events, save)
    decreases n
  {
    if !NoStraddle(events, n - 1) {
      read, bump, save := FirstStraddle(events, n - 1);
    } else {
      read, bump, save :| 0 <= read < bump < save < n && Straddles(events, read, bump, save);
    }
  }

  /** A version comes back, by any mixture of edits, sign-outs and resets, if and only if some edit
      read the row before a bump and saved it after. */
  lemma VersionReturnsIff(start: nat, events: seq<Event>)
    requires Orderly(events)
    ensures (exists a, b, c :: Returns(start, events, a, b, c))
      <==> exists read, bump, save :: Straddles(events, read, bump, save)
  {
    if NoStraddle(events, |events|) {
      forall a: nat, b: nat, c: nat | a < b < c <= |events| ensures !Returns(start, events, a, b, c) {
        VersionCountsBumps(start, events, a);
        VersionCountsBumps(start, events, b);
        VersionCountsBumps(start, events, c);
        BumpsBetween(events, a, b);
        BumpsBetween(events, b, c);
      }
    } else {
      var read, bump, save := FirstStraddle(events, |events|);
      FirstStraddleReturns(start, events, read, bump, save);
    }
  }

  // ------------------------------------------------------------------------
  // Tokens
  // ------------------------------------------------------------------------

  /** The account table with the row as n events have left it. */
  function TableAt(t: Accounts, id: nat, events: seq<Event>, n: nat): Accounts
    requires id in t && n <= |events|
  {
    t[id := t[id].(version := VersionAt(t[id].version, events, n))]
  }

  /** A token for the account's subject is accepted as the account exactly at its own generation. */
  lemma AcceptedAtItsVersion(t: Accounts, id: nat, events: seq<Event>, n: nat, c: Claims, at: Time)
    requires id in t && n <= |events| && Current(c, at) && Resolve(t, c.typ, c.sub) == Some(id)
    ensures AcceptedAs(TableAt(t, id, events, n), c, at) == Some(id)
      <==> Generation(c) == VersionAt(t[id].version, events, n)
  {
    var after := TableAt(t, id, events, n);
    assert forall x :: Holds(after, c.typ, c.sub, x) <==> Holds(t, c.typ, c.sub, x);
    assert (set x | x in after && Holds(after, c.typ, c.sub, x)) == (set x | x in t && Holds(t, c.typ, c.sub, x));
  }

  /** The token is accepted, then retired, then accepted again as the same account. */
  ghost predicate Revives(t: Accounts, id: nat, events: seq<Event>, c: Claims, at: Time, a: nat, b: nat, d: nat)
    requires id in t
  {
    && a < b < d <= |events|
    && AcceptedAs(TableAt(t, id, events, a), c, at) == Some(id)
    && AcceptedAs(TableAt(t, id, events, b), c, at) != Some(id)
    && AcceptedAs(TableAt(t, id, events, d), c, at) == Some(id)
  }

  ghost predicate SomeTokenRevives(t: Accounts, id: nat, events: seq<Event>, at: Time)
    requires id in t
  {
    exists c, a, b, d ::
      Current(c, at) && Resolve(t, c.typ, c.sub) == Some(id) && Revives(t, id, events, c, at, a, b, d)
  }

  /** Exactly when a sign-out or reset can be undone: some token of the account is accepted, refused
      and accepted again if and only if an edit of the account read its row before the version
      moved on and saved it after. */
  lemma TokenRevivesIff(t: Accounts, id: nat, events: seq<Event>, at: Time)
    requires id in t && t[id].active && SubjectsUnique(t) && Orderly(events)
    ensures SomeTokenRevives(t, id, events, at) <==> exists read, bump, save :: Straddles(events, read, bump, save)
  {
    VersionReturnsIff(t[id].version, events);
    if SomeTokenRevives(t, id, events, at) {
      var c, a, b, d :| Current(c, at) && Resolve(t, c.typ, c.sub) == Some(id)
                        && Revives(t, id, events, c, at, a, b, d);
      AcceptedAtItsVersion(t, id, events, a, c, at);
      AcceptedAtItsVersion(t, id, events, b, c, at);
      AcceptedAtItsVersion(t, id, events, d, c, at);
      assert Returns(t[id].version, events, a, b, d);
    }
    if a, b, d :| Returns(t[id].version, events, a, b, d) {
      ReturnedVersionRevives(t, id, events, at, a, b, d);
    }
  }

  lemma ReturnedVersionRevives(t: Accounts, id: nat, events: seq<Event>, at: Time, a: nat, b: nat, d: nat)
    requires id in t && t[id].active && SubjectsUnique(t) && Returns(t[id].version, events, a, b, d)
    ensures SomeTokenRevives(t, id, events, at)
  {
    var now := Second(at);
    var c := Claims(t[id].subject, t[id].kind, Some(VersionAt(t[id].version, events, a)), Some(now), now, now + 1);
    WholeSeconds(at, 0);
    assert Current(c, at);
    assert Holds(t, c.typ, c.sub, id);
    assert Resolve(t, c.typ, c.sub) == Some(id);
    AcceptedAtItsVersion(t, id, events, a, c, at);
    AcceptedAtItsVersion(t, id, events, b, c, at);
    AcceptedAtItsVersion(t, id, events, d, c, at);
    assert Revives(t, id, events, c, at, a, b, d);
  }
}
