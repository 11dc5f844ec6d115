/** The sending side of the sparse all-to-all: four parallel arrays that describe the unfinished sends. */
module NbxSends {
  import opened Arithmetic
  import opened SwapRemoval

  /**
   * Send number `send` to process `dst`: its next byte is at `offset`, `count` bytes are not yet
   * in any message.  `pending` is the length of the message its request tracks, zero for none.
   */
  datatype Item = Item(send: nat, dst: nat, offset: nat, count: nat, pending: nat)

  /** A synchronous send of the next fragment is started, if there is one. */
  function Posted(it: Item, limit: nat): Item {
    var n := Min(limit, it.count);
    it.(offset := it.offset + n, count := it.count - n, pending := n)
  }

  function AllPosted(items: seq<Item>, limit: nat): seq<Item> {
    seq(|items|, k requires 0 <= k < |items| => Posted(items[k], limit))
  }

  predicate Finished(it: Item) {
    it.count == 0 && it.pending == 0
  }

  function Swept(items: seq<Item>): seq<Item> {
    SweepUp(items, Finished, 0)
  }

  lemma SweepDropsFinished(items: seq<Item>)
    ensures forall it :: multiset(Swept(items))[it] == if Finished(it) then 0 else multiset(items)[it]
  {
    SweepUpSweeps(items, Finished, 0);
  }

  class Sends {
    const limit: nat
    const offsets: array<nat>
    const counts: array<nat>
    const pids: array<nat>
    const requests: array<nat>
    var nSends: nat
    ghost var ids: seq<nat>

    ghost predicate Valid()
      reads this
    {
      && limit > 0
      && offsets != counts && offsets != pids && offsets != requests && counts != pids && counts != requests
      && pids != requests && |ids| == nSends
      && nSends <= offsets.Length == counts.Length == pids.Length == requests.Length
    }

    ghost function At(k: nat): Item
      reads this, offsets, counts, pids, requests
      requires Valid() && k < nSends
    {
      Item(ids[k], pids[k], offsets[k], counts[k], requests[k])
    }

    ghost function Items(): (s: seq<Item>)
      reads this, offsets, counts, pids, requests
      requires Valid()
      ensures |s| == nSends && forall k :: 0 <= k < nSends ==> s[k] == At(k)
    {
      seq(nSends, k requires 0 <= k < nSends && Valid() reads this, offsets, counts, pids, requests => At(k))
    }

    /**
     * Starts the next fragment of send k: within the limit, empty only if there is nothing to send, and
     * just as long as the limit unless it is the last.
     */
    method Post(k: nat)
      requires Valid() && k < nSends
      modifies offsets, counts, requests
      ensures requests[k] <= limit && (old(counts[k]) > 0 ==> requests[k] > 0)
      ensures counts[k] > 0 ==> requests[k] == limit
      ensures counts[k] + requests[k] == old(counts[k]) && offsets[k] == old(offsets[k]) + requests[k]
      ensures forall j :: 0 <= j < nSends && j != k ==> At(j) == old(Items())[j]
      ensures Items() == old(Items())[k := Posted(old(At(k)), limit)]
    {
      var n := if limit < counts[k] then limit else counts[k];
      requests[k] := n;
      offsets[k] := offsets[k] + n;
      counts[k] := counts[k] - n;
    }

    method PostAll()
      requires Valid()
      modifies offsets, counts, requests
      ensures forall k :: 0 <= k < nSends ==> requests[k] <= limit && (counts[k] > 0 ==> requests[k] == limit)
      ensures Items() == AllPosted(old(Items()), limit)
    {
      for k := 0 to nSends
        invariant forall j :: 0 <= j < k ==> At(j) == Posted(old(Items())[j], limit)
        invariant forall j :: k <= j < nSends ==> At(j) == old(Items())[j]
      {
        Post(k);
        assert forall j :: 0 <= j < nSends ==> Items()[j] == At(j);
      }
      forall k | 0 <= k < nSends ensures requests[k] <= limit && (counts[k] > 0 ==> requests[k] == limit) {
        assert At(k) == Posted(old(Items())[k], limit);
      }
    }

    method SwapWithLast(k: nat)
      requires Valid() && k < nSends
      modifies this`nSends, this`ids, offsets, counts, pids, requests
      ensures Valid() && Items() == DropAt(old(Items()), k)
    {
      var l := nSends - 1;
      offsets[k], offsets[l] := offsets[l], offsets[k];
      counts[k], counts[l] := counts[l], counts[k];
      pids[k], pids[l] := pids[l], pids[k];
      requests[k], requests[l] := requests[l], requests[k];
      nSends, ids := l, DropAt(ids, k);
    }

    /** Removes every finished send from the queue. */
    method RemoveFinished()
      requires Valid()
      modifies this`nSends, this`ids, offsets, counts, pids, requests
      ensures Valid() && Items() == Swept(old(Items()))
      ensures forall it :: multiset(Items())[it] == if Finished(it) then 0 else multiset(old(Items()))[it]
    {
      SweepDropsFinished(Items());
      var i := 0;
      while i < nSends
        invariant Valid() && i <= nSends
        invariant SweepUp(Items(), Finished, i) == Swept(old(Items()))
        decreases nSends - i
      {
        if counts[i] == 0 && requests[i] == 0 {
          SwapWithLast(i);
        } else {
          i := i + 1;
        }
      }
    }
  }
}
