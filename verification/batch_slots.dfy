/** Index bookkeeping of the batch path: a batch is a row of slots, each either
    already resolved (a cache hit) or still open (a miss); the open slots are
    sent out in order and filled back in the same order (lib/translation.ts). */
module BatchSlots {
  import opened Wrappers

  /** Number of open slots. */
  function CountMisses<T>(slots: seq<Option<T>>): nat
  {
    if slots == [] then 0
    else (if slots[0].None? then 1 else 0) + CountMisses(slots[1..])
  }

  /** Number of open slots before index `i`: the position of slot `i` in the
      list of open slots, i.e. the value of `translationIndex` when slot `i`
      is reached. */
  function MissRank<T>(slots: seq<Option<T>>, i: nat): nat
    requires i <= |slots|
  {
    CountMisses(slots[..i])
  }

  lemma {:induction false} CountMissesAppend<T>(a: seq<Option<T>>, b: seq<Option<T>>)
    ensures CountMisses(a + b) == CountMisses(a) + CountMisses(b)
  {
    if a != [] {
      CountMissesAppend(a[1..], b);
      assert (a + b)[1..] == a[1..] + b;
    } else {
      assert a + b == b;
    }
  }

  /** Ranks grow by one exactly at open slots, and every open slot ranks below
      the number of open slots. */
  lemma MissRankStep<T>(slots: seq<Option<T>>, i: nat)
    requires i < |slots|
    ensures MissRank(slots, i + 1) == MissRank(slots, i) + (if slots[i].None? then 1 else 0)
    ensures slots[i].None? ==> MissRank(slots, i) < CountMisses(slots)
  {
    assert slots[..i + 1] == slots[..i] + [slots[i]];
    CountMissesAppend(slots[..i], [slots[i]]);
    assert slots == slots[..i + 1] + slots[i + 1..];
    CountMissesAppend(slots[..i + 1], slots[i + 1..]);
  }

  /** Ranks seen from the second slot on. */
  lemma MissRankTail<T>(slots: seq<Option<T>>, i: nat)
    requires 0 < i <= |slots|
    ensures MissRank(slots, i) == (if slots[0].None? then 1 else 0) + MissRank(slots[1..], i - 1)
  {
    assert slots[..i][1..] == slots[1..][..i - 1];
  }

  /** The items at the open slots, in index order: the `uncachedTexts` list. Its
      length is the number of open slots and the item of open slot `i` sits at
      that slot's rank. */
  function MissItems<T, U>(items: seq<U>, slots: seq<Option<T>>): (r: seq<U>)
    requires |items| == |slots|
    ensures |r| == CountMisses(slots)
    ensures forall i :: 0 <= i < |slots| && slots[i].None? ==>
              MissRank(slots, i) < |r| && r[MissRank(slots, i)] == items[i]
  {
    if slots == [] then []
    else
      var rest := MissItems(items[1..], slots[1..]);
      var r := (if slots[0].None? then [items[0]] else []) + rest;
      assert forall i :: 0 < i < |slots| ==>
        MissRank(slots, i) == (if slots[0].None? then 1 else 0) + MissRank(slots[1..], i - 1) by {
        forall i | 0 < i < |slots| { MissRankTail(slots, i); }
      }
      r
  }

  /** Every slot resolved: open slot number k takes the k-th of `fills`, which
      must hold at least one value per open slot (extra values are ignored). */
  function Fill<T>(slots: seq<Option<T>>, fills: seq<T>): (r: seq<T>)
    requires CountMisses(slots) <= |fills|
    ensures |r| == |slots|
    ensures forall i :: 0 <= i < |slots| && slots[i].Some? ==> r[i] == slots[i].value
    ensures forall i :: 0 <= i < |slots| && slots[i].None? ==>
              MissRank(slots, i) < |fills| && r[i] == fills[MissRank(slots, i)]
  {
    if slots == [] then []
    else
      var r := match slots[0]
        case Some(v) => [v] + Fill(slots[1..], fills)
        case None => [fills[0]] + Fill(slots[1..], fills[1..]);
      assert forall i :: 0 < i < |slots| ==>
        MissRank(slots, i) == (if slots[0].None? then 1 else 0) + MissRank(slots[1..], i - 1) by {
        forall i | 0 < i < |slots| { MissRankTail(slots, i); }
      }
      r
  }

  /** A positive miss count means some slot is open. */
  lemma {:induction false} OpenSlotExists<T>(slots: seq<Option<T>>)
    requires CountMisses(slots) != 0
    ensures exists i :: 0 <= i < |slots| && slots[i].None?
  {
    if slots[0].Some? {
      OpenSlotExists(slots[1..]);
      var i :| 0 <= i < |slots[1..]| && slots[1..][i].None?;
      assert slots[i + 1].None?;
    }
  }
}
