/** Failure-carrying results and a few facts about finite sets shared by every module. */
module Prelude {

  datatype Option<+T> = None | Some(value: T)

  /** A request's outcome: a value, or the refusal that the caller is told about. */
  datatype Result<+T, +E> = Success(value: T) | Failure(error: E)

  /** Why a requested product cannot be supplied, and how many could be. */
  datatype Reason = UnknownItem | Withdrawn | OutOfStock | OnlyLeft(units: int)
  datatype Shortage = Shortage(product: nat, reason: Reason, available: nat)

  datatype Refusal =
    | NotFound
    | Conflict
    | Forbidden
    | Invalid
    | StoreClosed
    | OutOfArea
    | EmptyBasket
    | Unavailable(shortages: seq<Shortage>)
    | BelowMinimum
    | KeyTaken

  /** A non-empty finite set of naturals has a least element. */
  lemma LeastExists(s: set<nat>)
    requires s != {}
    ensures exists m :: m in s && forall x :: x in s ==> m <= x
  {
    var m := LeastOf(s);
  }

  lemma LeastOf(s: set<nat>) returns (m: nat)
    requires s != {}
    ensures m in s && forall x :: x in s ==> m <= x
    decreases |s|
  {
    m :| m in s;
    var rest := s - {m};
    if rest != {} {
      var other := LeastOf(rest);
      assert forall x :: x in s ==> x == m || x in rest;
      if other < m {
        m := other;
      }
    } else {
      assert forall x :: x in s ==> x == m || x in rest;
    }
  }

  function Min(s: set<nat>): (m: nat)
    requires s != {}
    ensures m in s && forall x :: x in s ==> m <= x
  {
    LeastExists(s);
    var m :| m in s && forall x :: x in s ==> m <= x;
    m
  }

  /** The primary keys of a set in ascending order: the order in which rows are locked. */
  function SortedIds(s: set<nat>): (r: seq<nat>)
    ensures forall x :: x in r <==> x in s
    ensures forall i, j :: 0 <= i < j < |r| ==> r[i] < r[j]
    decreases |s|
  {
    if s == {} then []
    else
      var m := Min(s);
      var rest := SortedIds(s - {m});
      assert forall x :: x in s <==> x == m || x in rest;
      assert forall i :: 0 <= i < |rest| ==> rest[i] in rest;
      [m] + rest
  }

  lemma {:induction false} SubsetSize<T>(a: set<T>, b: set<T>)
    requires a <= b
    ensures |a| <= |b|
    decreases |a|
  {
    if a != {} {
      var x :| x in a;
      SubsetSize(a - {x}, b - {x});
    }
  }
}
