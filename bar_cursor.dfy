/**
 * The bar cursor shared by the player window and the clip: after a bar is
 * taken, the cursor moves to the next one, wrapping around after the last.
 */
module BarCursor {
  import opened Arith

  /** `(bar + 1) % count`: the next bar, and bar 0 again after the last one. */
  function Advance(bar: nat, count: nat): (next: nat)
    requires bar < count
    ensures next < count
    ensures next == if bar == count - 1 then 0 else bar + 1
  {
    (bar + 1) % count
  }

  /** The bars taken by `k` successive steps from `start`, in the order they are taken. */
  function PlayOrder(start: nat, count: nat, k: nat): seq<nat>
    requires start < count
    decreases k
  {
    if k == 0 then [] else [start] + PlayOrder(Advance(start, count), count, k - 1)
  }

  /**
   * Successive steps play the clip cyclically: the `i`-th bar taken is
   * `(start + i) % count`, so every bar stays inside the clip.
   */
  lemma {:induction false} PlayOrderCyclic(start: nat, count: nat, k: nat)
    requires start < count
    ensures |PlayOrder(start, count, k)| == k
    ensures forall i :: 0 <= i < k ==> PlayOrder(start, count, k)[i] == (start + i) % count
    decreases k
  {
    if k > 0 {
      var next := Advance(start, count);
      PlayOrderCyclic(next, count, k - 1);
      var order := PlayOrder(start, count, k);
      assert order == [start] + PlayOrder(next, count, k - 1);
      forall i | 0 <= i < k
        ensures order[i] == (start + i) % count
      {
        if i == 0 {
          ModUnique(start, count, 0, start);
        } else {
          AdvanceThenOffset(start, count, i - 1);
        }
      }
    }
  }

  /** Advancing once and then `j` more bars lands where `j + 1` bars from the start would. */
  lemma AdvanceThenOffset(start: nat, count: nat, j: nat)
    requires start < count
    ensures (Advance(start, count) + j) % count == (start + j + 1) % count
  {
    if start == count - 1 {
      assert start + j + 1 == count + j;
      ModAddCount(j, count);
    }
  }

  lemma ModAddCount(a: nat, count: nat)
    requires count > 0
    ensures (count + a) % count == a % count
  {
    var q := a / count;
    var r := a % count;
    assert a == q * count + r;
    assert count + a == (q + 1) * count + r;
    ModUnique(count + a, count, q + 1, r);
  }

  /** A full cycle from bar 0 takes every bar exactly once, in clip order. */
  lemma OneCycleVisitsEachBar(count: nat)
    requires count > 0
    ensures PlayOrder(0, count, count) == seq(count, i => i)
  {
    PlayOrderCyclic(0, count, count);
  }
}
