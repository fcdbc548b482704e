/** Which blocks one polling cycle scans: the start block chosen from the
    checkpoint and the look-back window, and the split of the range into
    batches of at most MAX_BLOCK_RANGE blocks. */
module BlockRange {
  import opened Types

  /** Blocks per `queryFilter` request. */
  const MAX_BLOCK_RANGE: int := 30
  /** Farthest behind the tip a cycle resumes from. */
  const MAX_LOOK_BACK_BLOCKS: int := 240

  /** One inclusive range of blocks queried in a single request. */
  datatype Window = Window(from: int, to: int)

  function Min(a: int, b: int): (m: int)
    ensures m <= a && m <= b && (m == a || m == b)
  {
    if a <= b then a else b
  }

  /** The first block of a cycle at chain height `current`, given the
      checkpoint read from the file. */
  function StartBlock(last: Option<int>, current: int): (from: int)
    ensures from >= current - MAX_LOOK_BACK_BLOCKS
    ensures last.None? ==> from == current - MAX_LOOK_BACK_BLOCKS
    ensures last.Some? && current - last.value <= MAX_LOOK_BACK_BLOCKS ==> from == last.value + 1
    ensures last.Some? && current - last.value > MAX_LOOK_BACK_BLOCKS ==> from == current - MAX_LOOK_BACK_BLOCKS
  {
    if last.None? || current - last.value > MAX_LOOK_BACK_BLOCKS then current - MAX_LOOK_BACK_BLOCKS
    else last.value + 1
  }

  lemma StartWithoutCheckpoint()
    ensures StartBlock(None, 10000) == 9760
  {
  }

  /** The batches the `for` loop visits, from block `i` up to `current`. */
  function Batches(i: int, current: int): seq<Window>
    decreases if i <= current then current - i + 1 else 0
  {
    if i > current then []
    else [Window(i, Min(i + MAX_BLOCK_RANGE - 1, current))] + Batches(i + MAX_BLOCK_RANGE, current)
  }

  /** The batches partition [from, current]: the k-th starts at
      from + 30k, each holds between 1 and 30 blocks, each starts right
      after the previous one ends, the last ends at `current`, and only the
      last one ends at `current`. */
  lemma {:induction false} BatchesPartition(from: int, current: int)
    requires from <= current
    ensures var ws := Batches(from, current);
      && |ws| == (current - from) / MAX_BLOCK_RANGE + 1
      && ws[0].from == from
      && ws[|ws| - 1].to == current
      && (forall k :: 0 <= k < |ws| ==> ws[k].from == from + MAX_BLOCK_RANGE * k)
      && (forall k :: 0 <= k < |ws| ==> ws[k].from <= ws[k].to < ws[k].from + MAX_BLOCK_RANGE)
      && (forall k :: 0 <= k < |ws| - 1 ==> ws[k + 1].from == ws[k].to + 1)
      && (forall k :: 0 <= k < |ws| ==> (ws[k].to < current <==> k < |ws| - 1))
    decreases current - from
  {
    var ws := Batches(from, current);
    if from + MAX_BLOCK_RANGE > current {
      assert ws == [Window(from, current)];
    } else {
      var rest := Batches(from + MAX_BLOCK_RANGE, current);
      BatchesPartition(from + MAX_BLOCK_RANGE, current);
      assert ws == [Window(from, from + MAX_BLOCK_RANGE - 1)] + rest;
      assert (current - from) / MAX_BLOCK_RANGE == (current - from - MAX_BLOCK_RANGE) / MAX_BLOCK_RANGE + 1;
      forall k | 1 <= k < |ws|
        ensures ws[k] == rest[k - 1]
      {
      }
    }
  }

  /** Every block of [from, current] lies in exactly the batch number
      (b - from) / 30, and no batch reaches outside [from, current]. */
  lemma {:induction false} BatchesCover(from: int, current: int, b: int)
    requires from <= b <= current
    ensures var ws := Batches(from, current);
      var k := (b - from) / MAX_BLOCK_RANGE;
      && 0 <= k < |ws|
      && ws[k].from <= b <= ws[k].to
      && (forall j :: 0 <= j < |ws| && j != k ==> b < ws[j].from || ws[j].to < b)
  {
    BatchesPartition(from, current);
    var ws := Batches(from, current);
    var k := (b - from) / MAX_BLOCK_RANGE;
    assert from + MAX_BLOCK_RANGE * k <= b < from + MAX_BLOCK_RANGE * (k + 1);
    if k < |ws| - 1 {
      assert ws[k].to + 1 == ws[k + 1].from == from + MAX_BLOCK_RANGE * (k + 1);
    }
    forall j | 0 <= j < |ws| && j != k
      ensures b < ws[j].from || ws[j].to < b
    {
      if j < k {
        assert ws[j].to < ws[j].from + MAX_BLOCK_RANGE == from + MAX_BLOCK_RANGE * (j + 1);
        assert MAX_BLOCK_RANGE * (j + 1) <= MAX_BLOCK_RANGE * k;
      } else {
        assert MAX_BLOCK_RANGE * (k + 1) <= MAX_BLOCK_RANGE * j;
      }
    }
  }

  lemma {:induction false} BatchesWithin(from: int, current: int, k: int)
    requires from <= current
    requires 0 <= k < |Batches(from, current)|
    ensures from <= Batches(from, current)[k].from <= Batches(from, current)[k].to <= current
  {
    BatchesPartition(from, current);
    var ws := Batches(from, current);
    if k < |ws| - 1 {
      assert ws[k].to < current;
    }
  }

  /** Checkpoint 100 at height 205. */
  lemma BatchesExample()
    ensures Batches(101, 205) == [Window(101, 130), Window(131, 160), Window(161, 190), Window(191, 205)]
  {
    assert Batches(221, 205) == [];
    assert Batches(191, 205) == [Window(191, 205)];
  }
}
