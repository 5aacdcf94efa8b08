/** Going once around a ring of `count` places, starting at `first`. */
module Rings {

  /** The work one call may do before it lets other tasks run. */
  const MAX_POLL_OPS: nat := 256

  function RingAt(first: nat, n: nat, count: nat): int {
    if first + n < count then first + n else first + n - count
  }

  lemma RingNext(first: nat, n: nat, count: nat)
    requires first < count && n < count
    ensures ((RingAt(first, n, count) + 1) % count) % count == RingAt(first, n + 1, count)
    ensures 0 <= RingAt(first, n, count) < count
  {
    var k := RingAt(first, n, count);
    if k + 1 < count {
      SmallMod(k + 1, count);
      assert RingAt(first, n + 1, count) == k + 1;
    } else {
      assert count % count == 0;
    }
  }

  lemma SmallMod(k: nat, count: nat)
    requires k < count
    ensures k % count == k
  {
  }

  /** Whether slot `i` is among the `n` slots from `first` on, around a ring of `count`. */
  predicate Visited(i: nat, first: nat, n: nat, count: nat) {
    first <= i < first + n || i + count < first + n
  }

  /** A full turn of the ring visits every place. */
  lemma FullTurn(i: nat, first: nat, count: nat)
    requires i < count && first < count
    ensures Visited(i, first, count, count)
  {
  }

  /** Whose turn it is after `turns`, around a ring of `count` places beginning with `first`. */
  function NextTurn(turns: seq<nat>, first: nat, count: nat): nat
    requires 0 < count
  {
    if turns == [] then first else (turns[|turns| - 1] + 1) % count
  }

  /** The places took their turns one after the other around the ring; `next` is due now. */
  predicate Rotates(turns: seq<nat>, first: nat, next: nat, count: nat) {
    && 0 < count && next == NextTurn(turns, first, count)
    && forall k :: 0 <= k < |turns| ==> turns[k] == NextTurn(turns[..k], first, count)
  }

  lemma RotatesOn(turns: seq<nat>, first: nat, cursor: nat, index: nat, count: nat)
    requires 0 < count && Rotates(turns, first, cursor % count, count) && index == cursor % count
    ensures Rotates(turns + [index], first, (index + 1) % count % count, count)
  {
    SmallMod((index + 1) % count, count);
    var after := turns + [index];
    forall k | 0 <= k < |after|
      ensures after[k] == NextTurn(after[..k], first, count)
    {
      assert after[..k] == turns[..k];
      assert k == |turns| ==> turns[..k] == turns;
    }
  }
}
