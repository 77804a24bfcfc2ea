/// The throttler's ring of recent decisions: a fixed-capacity buffer in which
/// `Add` overwrites the oldest entry once the ring is full, and
/// `LatestValues` reads the stored entries back newest first.
module Throttler {

  /// A throttler decision. Only a few of its fields are kept; the ring never
  /// inspects them.
  datatype Result = Result(reason: string, oldRate: int, newRate: int)

  const EmptyResult := Result("", 0, 0)

  /// The newest `min(|history|, capacity)` entries of `history`, newest first:
  /// what a ring of that capacity holds after `history` was added in order.
  function Newest(history: seq<Result>, capacity: nat): (r: seq<Result>)
    ensures |r| == if |history| < capacity then |history| else capacity
    ensures forall k :: 0 <= k < |r| ==> r[k] == history[|history| - 1 - k]
  {
    if |history| == 0 || capacity == 0 then []
    else [history[|history| - 1]] + Newest(history[..|history| - 1], capacity - 1)
  }

  /// Adding one more result puts it in front and, once the ring is full,
  /// drops the oldest entry.
  lemma NewestAdd(history: seq<Result>, capacity: nat, x: Result)
    requires capacity > 0
    ensures Newest(history + [x], capacity)
         == [x] + Newest(history, capacity)[..if |history| < capacity then |history| else capacity - 1]
  {
    var h := history + [x];
    var lhs := Newest(h, capacity);
    var rhs := [x] + Newest(history, capacity)[..if |history| < capacity then |history| else capacity - 1];
    assert |lhs| == |rhs|;
    forall k | 0 <= k < |lhs| ensures lhs[k] == rhs[k] {
      if k > 0 {
        assert lhs[k] == h[|h| - 1 - k] == history[|history| - 1 - (k - 1)];
      }
    }
  }

  /// The slot holding the `k`-th newest entry when the next write goes to
  /// `position`: `(position - 1 - k) mod capacity`, written without `%`.
  function SlotOf(position: nat, capacity: nat, k: nat): (slot: nat)
    requires position < capacity && k < capacity
    ensures slot < capacity
  {
    if position >= 1 + k then position - 1 - k else position + capacity - 1 - k
  }

  /// Arithmetic only: `%` on a value below `2n`, used to match the ring's
  /// `(position - 1 - i + n) % n` against `SlotOf`.
  lemma ModOfSmall(x: int, n: int)
    requires 0 < n && 0 <= x < 2 * n
    ensures x % n == if x < n then x else x - n
  {
    if x >= n {
      assert x == 1 * n + (x - n);
    }
  }

  /// After a write at `p`, the `k`-th newest slot is the old `(k-1)`-th one.
  lemma SlotShift(p: nat, n: nat, k: nat)
    requires p < n && 0 < k < n
    ensures SlotOf(if p + 1 == n then 0 else p + 1, n, k) == SlotOf(p, n, k - 1) != p
  {
  }

  /// `slots` holds, walking back from the slot before `position`, the
  /// newest entries of `history`.
  ghost predicate Stored(slots: seq<Result>, position: nat, history: seq<Result>)
    requires position < |slots|
  {
    forall k :: 0 <= k < |history| && k < |slots| ==>
      slots[SlotOf(position, |slots|, k)] == history[|history| - 1 - k]
  }

  /// Writing `x` at `p` and moving to the next slot keeps `Stored`.
  lemma StoredAdd(slots: seq<Result>, p: nat, history: seq<Result>, x: Result)
    requires p < |slots| && Stored(slots, p, history)
    ensures Stored(slots[p := x], if p + 1 == |slots| then 0 else p + 1, history + [x])
  {
    var n, s, h := |slots|, slots[p := x], history + [x];
    var q := if p + 1 == n then 0 else p + 1;
    forall k | 0 <= k < |h| && k < n
      ensures s[SlotOf(q, n, k)] == h[|h| - 1 - k]
    {
      if k > 0 {
        SlotShift(p, n, k);
        var slot := SlotOf(p, n, k - 1);
        assert s[slot] == slots[slot] == history[|history| - 1 - (k - 1)];
      } else {
        assert SlotOf(q, n, 0) == p;
      }
    }
  }

  class ResultRing {
    /// The stored results.
    var values: array<Result>
    /// Index of the slot the next `Add` writes.
    var position: nat
    /// Whether `position` has come back to 0 at least once.
    var wrapped: bool
    /// Every result added so far, oldest first.
    ghost var history: seq<Result>

    ghost predicate Valid()
      reads this, values
    {
      && values.Length > 0
      && position < values.Length
      && (wrapped <==> |history| >= values.Length)
      && (!wrapped ==> position == |history|)
      && Stored(values[..], position, history)
    }

    /// The ring's content, newest first.
    ghost function Contents(): seq<Result>
      reads this, values
    {
      Newest(history, values.Length)
    }

    constructor (capacity: nat)
      requires capacity > 0
      ensures Valid() && fresh(values)
      ensures values.Length == capacity && history == []
    {
      values := new Result[capacity](_ => EmptyResult);
      position := 0;
      wrapped := false;
      history := [];
    }

    /// Overwrites the oldest slot with `r`.
    method Add(r: Result)
      requires Valid()
      modifies this, values
      ensures Valid() && values == old(values)
      ensures history == old(history) + [r]
      ensures Contents() == [r] + old(Contents())[..if |old(history)| < values.Length then |old(history)| else values.Length - 1]
    {
      ghost var p, h, slots := position, history, values[..];
      var n := values.Length;
      values[position] := r;
      assert values[..] == slots[p := r];
      position := position + 1;
      if position == n {
        position := 0;
        wrapped := true;
      }
      history := history + [r];
      StoredAdd(slots, p, h, r);
      NewestAdd(h, n, r);
    }

    /// The stored results, newest first.
    method LatestValues() returns (results: seq<Result>)
      requires Valid()
      ensures results == Contents()
      ensures |results| == if |history| < values.Length then |history| else values.Length
    {
      var n := values.Length;
      var length := if wrapped then n else position;
      ghost var all := Newest(history, n);
      assert |all| == length;
      results := [];
      var i := 0;
      while i < length
        invariant 0 <= i <= length
        invariant results == all[..i]
      {
        var pos := (position - 1 - i + n) % n;
        ModOfSmall(position - 1 - i + n, n);
        assert pos == SlotOf(position, n, i);
        assert values[..][pos] == history[|history| - 1 - i] == all[i];
        assert all[..i + 1] == all[..i] + [all[i]];
        results := results + [values[pos]];
        i := i + 1;
      }
      assert all[..length] == all;
    }
  }

  /// The scenario of the ring's unit test: capacity 2, then three adds,
  /// reading the ring back after each.
  method RingScenario() returns (partial: seq<Result>, full: seq<Result>, wrapped: seq<Result>)
    ensures partial == [Result("r1", 0, 0)]
    ensures full == [Result("r2", 0, 0), Result("r1", 0, 0)]
    ensures wrapped == [Result("r3", 0, 0), Result("r2", 0, 0)]
  {
    var r1, r2, r3 := Result("r1", 0, 0), Result("r2", 0, 0), Result("r3", 0, 0);
    var rr := new ResultRing(2);
    rr.Add(r1);
    partial := rr.LatestValues();
    assert partial == Newest([r1], 2) == [r1];
    rr.Add(r2);
    full := rr.LatestValues();
    assert full == Newest([r1, r2], 2) == [r2, r1];
    rr.Add(r3);
    wrapped := rr.LatestValues();
    assert [r1, r2, r3][..2] == [r1, r2];
    assert wrapped == Newest([r1, r2, r3], 2) == [r3, r2];
  }
}
