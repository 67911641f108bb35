/** The dedup pruner: delete expired anchors in batches, oldest first. */
module DedupPrune {
  import opened Ledger

  datatype Anchor = Anchor(key: Key, ledgerId: nat, createdAt: int)

  /** The table in the order of its created_at index. */
  predicate ByAge(table: seq<Anchor>) { forall i, j :: 0 <= i <= j < |table| ==> table[i].createdAt <= table[j].createdAt }

  class Pruner {
    const retention: int
    const batchSize: nat
    var table: seq<Anchor>

    constructor (retention: int, batchSize: nat, table: seq<Anchor>)
      requires batchSize > 0
      ensures this.retention == retention && this.batchSize == batchSize && this.table == table
    {
      this.retention, this.batchSize, this.table := retention, batchSize, table;
    }

    method DeleteBatch(now: int) returns (n: nat)
      modifies this
      ensures n <= |old(table)| && n <= batchSize && table == old(table)[n..]
      ensures forall i :: 0 <= i < n ==> old(table)[i].createdAt < now - retention
      ensures n < batchSize && n < |old(table)| ==> old(table)[n].createdAt >= now - retention
    {
      n := 0;
      while n < |table| && n < batchSize && table[n].createdAt < now - retention
        invariant 0 <= n <= |table| && n <= batchSize
        invariant forall i :: 0 <= i < n ==> table[i].createdAt < now - retention
      {
        n := n + 1;
      }
      table := table[n..];
    }

    /** Removes exactly the expired anchors, whatever the batch size, and reports how many. */
    method Sweep(now: int) returns (total: nat)
      requires ByAge(table) && batchSize > 0
      modifies this
      ensures total <= |old(table)| && table == old(table)[total..]
      ensures forall i :: 0 <= i < |old(table)| ==> (i < total <==> old(table)[i].createdAt < now - retention)
    {
      total := 0;
      while true
        invariant total <= |old(table)| && table == old(table)[total..]
        invariant forall i :: 0 <= i < total ==> old(table)[i].createdAt < now - retention
        decreases |table|
      {
        var n := DeleteBatch(now);
        assert old(table)[total..][n..] == old(table)[total + n..];
        total := total + n;
        if n < batchSize { return; }
      }
    }
  }
}
