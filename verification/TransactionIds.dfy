/** Transaction ids: `TransactionIdGenerator` of src/dryve_d1/transport/session.py. Its own lock
    makes each call one step. */
module TransactionIds {

  /** `value % (max + 1)`, with 1 in place of 0. */
  function Wrap(value: int, max: nat): (id: int)
    ensures max >= 1 ==> 1 <= id <= max
  {
    var id := value % (max + 1);
    if id == 0 then 1 else id
  }

  class TransactionIdGenerator {
    const max: nat
    var nextId: int

    ghost predicate Valid()
      reads this
    {
      1 <= nextId && (max >= 1 ==> nextId <= max)
    }

    constructor (start: int, max: nat)
      ensures Valid() && this.max == max && nextId == Wrap(start, max)
    {
      this.max := max;
      nextId := Wrap(start, max);
    }

    method Next() returns (id: int)
      requires Valid()
      modifies this
      ensures Valid() && id == old(nextId) && nextId == Wrap(old(nextId) + 1, max)
    {
      id := nextId;
      nextId := (nextId + 1) % (max + 1);
      if nextId == 0 {
        nextId := 1;
      }
    }

    method Align(value: int)
      requires Valid()
      modifies this
      ensures Valid() && nextId == Wrap(value, max)
    {
      nextId := value % (max + 1);
      if nextId == 0 {
        nextId := 1;
      }
    }
  }

  // ------------------------------------------------------------ histories

  datatype Call = Next | Align(value: int)

  /** The generator's state after some calls. */
  function StateAfter(id: int, max: nat, calls: seq<Call>): int
    decreases |calls|
  {
    if calls == [] then id
    else
      var state := if calls[0].Next? then Wrap(id + 1, max) else Wrap(calls[0].value, max);
      StateAfter(state, max, calls[1..])
  }

  /** The ids those calls hand out. */
  function Issued(id: int, max: nat, calls: seq<Call>): seq<int>
    decreases |calls|
  {
    if calls == [] then []
    else if calls[0].Next? then [id] + Issued(Wrap(id + 1, max), max, calls[1..])
    else Issued(Wrap(calls[0].value, max), max, calls[1..])
  }

  /** Every id of every history lies between 1 and the maximum. */
  lemma {:induction false} IssuedInRange(id: int, max: nat, calls: seq<Call>)
    requires 1 <= id <= max
    ensures 1 <= StateAfter(id, max, calls) <= max
    ensures forall i :: 0 <= i < |Issued(id, max, calls)| ==> 1 <= Issued(id, max, calls)[i] <= max
    decreases |calls|
  {
    if calls != [] {
      var state := if calls[0].Next? then Wrap(id + 1, max) else Wrap(calls[0].value, max);
      IssuedInRange(state, max, calls[1..]);
    }
  }

  function Nexts(k: nat): (calls: seq<Call>)
    ensures |calls| == k
  {
    seq(k, i => Next)
  }

  /** The id that the call number `k` of an undisturbed row hands out. */
  function IdAt(id: int, max: nat, k: nat): int
    requires max >= 1
  {
    (id - 1 + k) % max + 1
  }

  lemma MultipleIsLarge(n: int, d: int)
    requires n >= 1
    ensures d >= 1 ==> n * d >= n
    ensures d <= -1 ==> n * d <= -n
  {
    if d >= 1 { assert n * d == n + n * (d - 1); }
    if d <= -1 { assert n * d == -n - n * (-d - 1); }
  }

  /** A quotient and a remainder in range are the quotient and the remainder. */
  lemma Quotient(x: int, n: nat, q: int, r: int)
    requires n >= 1 && x == n * q + r && 0 <= r < n
    ensures x / n == q && x % n == r
  {
    var d := x / n - q;
    assert n * d == n * (x / n) - n * q;
    MultipleIsLarge(n, d);
  }

  lemma ModuloPeriod(x: nat, n: nat)
    requires n >= 1
    ensures (x + n) % n == x % n
  {
    assert n * (x / n + 1) == n * (x / n) + n;
    Quotient(x + n, n, x / n + 1, x % n);
  }

  lemma WrapStep(id: int, max: nat)
    requires 1 <= id <= max
    ensures Wrap(id + 1, max) == if id == max then 1 else id + 1
  {
    if id < max {
      Quotient(id + 1, max + 1, 0, id + 1);
    }
  }

  lemma StepOnTheCircle(id: int, max: nat, k: nat)
    requires 1 <= id <= max
    ensures IdAt(Wrap(id + 1, max), max, k) == IdAt(id, max, k + 1)
  {
    WrapStep(id, max);
    if id == max {
      ModuloPeriod(k, max);
      assert id - 1 + (k + 1) == k + max;
    }
  }

  lemma RowStarts(id: int, max: nat)
    requires 1 <= id <= max
    ensures IdAt(id, max, 0) == id
  {
    Quotient(id - 1, max, 0, id - 1);
  }

  lemma {:induction false} RowOfNexts(id: int, max: nat, n: nat)
    requires 1 <= id <= max
    ensures |Issued(id, max, Nexts(n))| == n && StateAfter(id, max, Nexts(n)) == IdAt(id, max, n)
    ensures forall k :: 0 <= k < n ==> Issued(id, max, Nexts(n))[k] == IdAt(id, max, k)
    decreases n
  {
    RowStarts(id, max);
    if n > 0 {
      var state := Wrap(id + 1, max);
      assert Nexts(n)[0] == Next && Nexts(n)[1..] == Nexts(n - 1);
      RowOfNexts(state, max, n - 1);
      forall k | 0 <= k < n ensures Issued(id, max, Nexts(n))[k] == IdAt(id, max, k) {
        if k > 0 { StepOnTheCircle(id, max, k - 1); }
      }
      StepOnTheCircle(id, max, n - 1);
    }
  }

  lemma DistinctOnTheCircle(id: int, max: nat, i: nat, j: nat)
    requires 1 <= id && i < j < i + max
    ensures IdAt(id, max, i) != IdAt(id, max, j)
  {
    var x, y := id - 1 + i, id - 1 + j;
    var d := y / max - x / max;
    assert max * d == max * (y / max) - max * (x / max);
    MultipleIsLarge(max, d);
  }

  /** A full row of calls without an alignment hands out every id once and ends where it began. */
  lemma FullRow(id: int, max: nat)
    requires 1 <= id <= max
    ensures var ids := Issued(id, max, Nexts(max));
            && |ids| == max && StateAfter(id, max, Nexts(max)) == id
            && (forall i, j :: 0 <= i < j < max ==> ids[i] != ids[j])
  {
    RowOfNexts(id, max, max);
    ModuloPeriod(id - 1, max);
    RowStarts(id, max);
    var ids := Issued(id, max, Nexts(max));
    forall i, j | 0 <= i < j < max ensures ids[i] != ids[j] {
      DistinctOnTheCircle(id, max, i, j);
    }
  }

  /** Any two of up to `max` consecutive calls hand out different ids, wherever the row starts. */
  lemma RowIsDistinct(id: int, max: nat, n: nat, i: nat, j: nat)
    requires 1 <= id <= max && i < j < n && j - i < max
    ensures |Issued(id, max, Nexts(n))| == n && Issued(id, max, Nexts(n))[i] != Issued(id, max, Nexts(n))[j]
  {
    RowOfNexts(id, max, n);
    DistinctOnTheCircle(id, max, i, j);
  }
}
