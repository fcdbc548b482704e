/** The transaction registry table as a sequence of rows, in insertion order,
    and the dedup rule both registration paths follow: a row is only ever
    inserted for a transaction hash that has no row yet. */
module Registry {
  import opened Types

  /** The transaction hashes that have a row (what a lookup by hash finds). */
  function Hashes(rows: seq<Record>): (hs: set<Hash>)
    ensures forall i :: 0 <= i < |rows| ==> rows[i].transactionHash in hs
    ensures forall h :: h in hs ==> exists i :: 0 <= i < |rows| && rows[i].transactionHash == h
  {
    if rows == [] then {}
    else
      var init := rows[..|rows| - 1];
      assert forall i :: 0 <= i < |init| ==> init[i] == rows[i];
      Hashes(init) + {rows[|rows| - 1].transactionHash}
  }

  /** `findFirst({ where: { transactionHash } })` finds a row. */
  predicate Registered(rows: seq<Record>, h: Hash) {
    h in Hashes(rows)
  }

  /** At most one row per transaction hash. */
  predicate Unique(rows: seq<Record>) {
    forall i, j :: 0 <= i < j < |rows| ==> rows[i].transactionHash != rows[j].transactionHash
  }

  /** `after` is `before` followed by rows each of which was inserted while
      its hash had no row yet. */
  predicate Extends(before: seq<Record>, after: seq<Record>) {
    |before| <= |after| && after[..|before|] == before &&
    forall k :: |before| <= k < |after| ==> !Registered(after[..k], after[k].transactionHash)
  }

  lemma ExtendsRefl(rows: seq<Record>)
    ensures Extends(rows, rows)
  {
  }

  /** Inserting a row for an unregistered hash extends the registry. */
  lemma ExtendsInsert(before: seq<Record>, after: seq<Record>, r: Record)
    requires Extends(before, after)
    requires !Registered(after, r.transactionHash)
    ensures Extends(before, after + [r])
  {
    var a := after + [r];
    assert a[..|after|] == after;
    assert a[..|before|] == after[..|before|];
    forall k | |before| <= k < |a|
      ensures !Registered(a[..k], a[k].transactionHash)
    {
      if k < |after| {
        assert a[..k] == after[..k];
      }
    }
  }

  lemma {:induction false} ExtendsTrans(a: seq<Record>, b: seq<Record>, c: seq<Record>)
    requires Extends(a, b) && Extends(b, c)
    ensures Extends(a, c)
  {
    assert c[..|a|] == c[..|b|][..|a|];
    forall k | |a| <= k < |c|
      ensures !Registered(c[..k], c[k].transactionHash)
    {
      if k < |b| {
        assert c[..k] == b[..k];
        assert c[k] == b[k];
      }
    }
  }

  /** Appending a row registers its hash and no other. */
  lemma RegisteredAppend(rows: seq<Record>, r: Record, h: Hash)
    ensures Registered(rows + [r], h) <==> Registered(rows, h) || r.transactionHash == h
  {
    assert (rows + [r])[..|rows|] == rows;
  }

  /** A hash that has a row keeps it under every extension. */
  lemma ExtendsKeepsRegistered(before: seq<Record>, after: seq<Record>, h: Hash)
    requires Extends(before, after)
    requires Registered(before, h)
    ensures Registered(after, h)
  {
    var i :| 0 <= i < |before| && before[i].transactionHash == h;
    assert after[i] == before[i];
  }

  /** Every row stays, unchanged, under every extension. */
  lemma ExtendsKeepsRows(before: seq<Record>, after: seq<Record>, r: Record)
    requires Extends(before, after)
    requires r in before
    ensures r in after
  {
    var i :| 0 <= i < |before| && before[i] == r;
    assert after[i] == r;
  }

  /** The dedup invariant: a registry with at most one row per hash keeps
      that property under every extension. */
  lemma {:induction false} ExtendsKeepsUnique(before: seq<Record>, after: seq<Record>)
    requires Extends(before, after)
    requires Unique(before)
    ensures Unique(after)
  {
    forall i, j | 0 <= i < j < |after|
      ensures after[i].transactionHash != after[j].transactionHash
    {
      if j < |before| {
        assert after[i] == before[i] && after[j] == before[j];
      } else {
        var prefix := after[..j];
        assert prefix[i] == after[i];
        assert after[i].transactionHash in Hashes(prefix);
      }
    }
  }
}
