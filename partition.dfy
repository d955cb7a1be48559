/** The batch partitioner: cuts the record stream into batches of a fixed
    size, each yielded with the number of records read so far. */
module Partitioner {
  import opened PcapRecords

  /** One yielded batch with the running record count. */
  type Yield = (seq<Record>, nat)

  /** The batches concatenated in order. */
  function Flatten(bs: seq<seq<Record>>): seq<Record>
    decreases |bs|
  {
    if bs == [] then [] else Flatten(bs[..|bs| - 1]) + bs[|bs| - 1]
  }

  /** The batches of a sequence of yields, without their counts. */
  function Batches(ys: seq<Yield>): (bs: seq<seq<Record>>)
    ensures |bs| == |ys|
    decreases |ys|
  {
    if ys == [] then [] else Batches(ys[..|ys| - 1]) + [ys[|ys| - 1].0]
  }

  /** The length every full batch has: a batch is yielded as soon as it holds
      `batchSize` records, so a size below one behaves as one. */
  function FullLength(batchSize: int): nat
  {
    if batchSize < 1 then 1 else batchSize
  }

  /** One more record, the n-th, read by the partitioner: it joins the open
      batch (the last one, while it is shorter than `batchSize`) or starts a
      new one. */
  function Push(p: seq<Yield>, x: Record, n: nat, batchSize: int): seq<Yield>
  {
    if p != [] && |p[|p| - 1].0| < batchSize then p[..|p| - 1] + [(p[|p| - 1].0 + [x], n)]
    else p + [([x], n)]
  }

  /** The yields of the partitioner over `s`, record by record. */
  function Partition(s: seq<Record>, batchSize: int): seq<Yield>
    decreases |s|
  {
    if s == [] then [] else Push(Partition(s[..|s| - 1], batchSize), s[|s| - 1], |s|, batchSize)
  }

  /** The generator's state, the emitted batches and the open one with its
      running count n, takes one more record into the open batch. */
  lemma PushOpen(emitted: seq<Yield>, batch: seq<Record>, x: Record, n: nat, batchSize: int)
    requires forall j :: 0 <= j < |emitted| ==> |emitted[j].0| >= batchSize
    requires batch != [] ==> |batch| < batchSize
    ensures Push(if batch == [] then emitted else emitted + [(batch, n)], x, n + 1, batchSize)
         == emitted + [(batch + [x], n + 1)]
  {
    if batch == [] {
      assert batch + [x] == [x];
    } else {
      var o := emitted + [(batch, n)];
      assert o[..|o| - 1] == emitted;
    }
  }

  lemma PartitionStep(s: seq<Record>, i: nat, batchSize: int)
    requires i < |s|
    ensures Partition(s[..i + 1], batchSize) == Push(Partition(s[..i], batchSize), s[i], i + 1, batchSize)
  {
    assert s[..i + 1][..i] == s[..i];
  }

  /** The partitioner (source lines 92-107) over an already decoded record
      sequence. */
  method BatchGenerator(records: seq<Record>, batchSize: int) returns (emitted: seq<Yield>)
    ensures emitted == Partition(records, batchSize)
    ensures Flatten(Batches(emitted)) == records
    ensures WellShaped(emitted, batchSize)
    ensures CountsRunning(emitted) && Total(emitted) == |records|
  {
    emitted := [];
    var batch: seq<Record> := [];
    var totalPackets: nat := 0;
    var i := 0;
    while i < |records|
      invariant 0 <= i <= |records|
      invariant totalPackets == i
      invariant batch != [] ==> |batch| < batchSize
      invariant forall j :: 0 <= j < |emitted| ==> |emitted[j].0| >= batchSize
      invariant Partition(records[..i], batchSize) == if batch == [] then emitted else emitted + [(batch, totalPackets)]
    {
      PartitionStep(records, i, batchSize);
      PushOpen(emitted, batch, records[i], i, batchSize);
      batch := batch + [records[i]];
      totalPackets := totalPackets + 1;
      if |batch| >= batchSize {
        emitted := emitted + [(batch, totalPackets)];
        batch := [];
      }
      i := i + 1;
    }
    assert records[..i] == records;
    if batch != [] {
      emitted := emitted + [(batch, totalPackets)];
    }
    PartitionReassembles(records, batchSize);
    PartitionShape(records, batchSize);
    PartitionCounts(records, batchSize);
  }

  lemma BatchesSnoc(ys: seq<Yield>, y: Yield)
    ensures Batches(ys + [y]) == Batches(ys) + [y.0]
  {
    assert (ys + [y])[..|ys|] == ys;
  }

  lemma FlattenSnoc(bs: seq<seq<Record>>, b: seq<Record>)
    ensures Flatten(bs + [b]) == Flatten(bs) + b
  {
    assert (bs + [b])[..|bs|] == bs;
  }

  /** Pushing a record appends it to the concatenation of the batches. */
  lemma PushReassembles(p: seq<Yield>, x: Record, n: nat, batchSize: int)
    ensures Flatten(Batches(Push(p, x, n, batchSize))) == Flatten(Batches(p)) + [x]
  {
    if p != [] && |p[|p| - 1].0| < batchSize {
      var init := p[..|p| - 1];
      var last := p[|p| - 1];
      assert p == init + [last];
      BatchesSnoc(init, last);
      BatchesSnoc(init, (last.0 + [x], n));
      FlattenSnoc(Batches(init), last.0);
      FlattenSnoc(Batches(init), last.0 + [x]);
      RecordsRegroup(Flatten(Batches(init)), last.0, x, Flatten(Batches(p)), Flatten(Batches(Push(p, x, n, batchSize))));
    } else {
      BatchesSnoc(p, ([x], n));
      FlattenSnoc(Batches(p), [x]);
    }
  }

  /** Concatenating the yielded batches gives back the input exactly. */
  lemma {:induction false} PartitionReassembles(s: seq<Record>, batchSize: int)
    ensures Flatten(Batches(Partition(s, batchSize))) == s
    decreases |s|
  {
    if s != [] {
      var s' := s[..|s| - 1];
      PartitionReassembles(s', batchSize);
      PushReassembles(Partition(s', batchSize), s[|s| - 1], |s|, batchSize);
      assert s == s' + [s[|s| - 1]];
    }
  }

  /** No batch is empty, every batch but the last is full, and the last holds
      one to FullLength(batchSize) records. */
  ghost predicate WellShaped(ys: seq<Yield>, batchSize: int)
  {
    && (forall j :: 0 <= j < |ys| ==> 0 < |ys[j].0| <= FullLength(batchSize))
    && (forall j :: 0 <= j < |ys| - 1 ==> |ys[j].0| == FullLength(batchSize))
  }

  /** Pushing a record keeps the batches well shaped. */
  lemma PushShape(p: seq<Yield>, x: Record, n: nat, batchSize: int)
    requires WellShaped(p, batchSize)
    ensures WellShaped(Push(p, x, n, batchSize), batchSize)
  {
    var q := Push(p, x, n, batchSize);
    var fl := FullLength(batchSize);
    if p != [] && |p[|p| - 1].0| < batchSize {
      assert forall j :: 0 <= j < |q| - 1 ==> q[j] == p[j];
      assert |q[|q| - 1].0| == |p[|p| - 1].0| + 1 <= fl;
    } else {
      assert forall j :: 0 <= j < |p| ==> q[j] == p[j];
      assert p != [] ==> |p[|p| - 1].0| == fl;
    }
  }

  /** The partitioner's batches are well shaped. */
  lemma {:induction false} PartitionShape(s: seq<Record>, batchSize: int)
    ensures WellShaped(Partition(s, batchSize), batchSize)
    decreases |s|
  {
    if s != [] {
      PartitionShape(s[..|s| - 1], batchSize);
      PushShape(Partition(s[..|s| - 1], batchSize), s[|s| - 1], |s|, batchSize);
    }
  }

  /** The sum of the lengths of the yielded batches. */
  function Total(ys: seq<Yield>): nat
    decreases |ys|
  {
    if ys == [] then 0 else Total(ys[..|ys| - 1]) + |ys[|ys| - 1].0|
  }

  /** Each yield carries the number of records in its batch and all earlier ones. */
  ghost predicate CountsRunning(ys: seq<Yield>)
  {
    forall j :: 0 <= j < |ys| ==> ys[j].1 == Total(ys[..j + 1])
  }

  lemma CountsRunningPrefix(ys: seq<Yield>, n: nat)
    requires CountsRunning(ys) && n <= |ys|
    ensures CountsRunning(ys[..n])
  {
    forall j | 0 <= j < n
      ensures ys[..n][j].1 == Total(ys[..n][..j + 1])
    {
      assert ys[..n][..j + 1] == ys[..j + 1];
    }
  }

  lemma CountsRunningSnoc(ys: seq<Yield>, y: Yield)
    requires CountsRunning(ys) && y.1 == Total(ys) + |y.0|
    ensures CountsRunning(ys + [y]) && Total(ys + [y]) == y.1
  {
    var q := ys + [y];
    assert q[..|q| - 1] == ys;
    forall j | 0 <= j < |q|
      ensures q[j].1 == Total(q[..j + 1])
    {
      if j < |ys| {
        assert q[..j + 1] == ys[..j + 1];
      } else {
        assert q[..j + 1] == q;
      }
    }
  }

  /** Pushing the n-th record keeps the counts running and makes n the total. */
  lemma PushCounts(p: seq<Yield>, x: Record, n: nat, batchSize: int)
    requires CountsRunning(p) && Total(p) + 1 == n
    ensures var q := Push(p, x, n, batchSize);
      CountsRunning(q) && Total(q) == n && q[|q| - 1].1 == n
  {
    if p != [] && |p[|p| - 1].0| < batchSize {
      var init := p[..|p| - 1];
      assert p == init + [p[|p| - 1]];
      assert Total(p) == Total(init) + |p[|p| - 1].0|;
      CountsRunningPrefix(p, |p| - 1);
      CountsRunningSnoc(init, (p[|p| - 1].0 + [x], n));
    } else {
      CountsRunningSnoc(p, ([x], n));
    }
  }

  /** The count yielded with each batch is the number of records in it and in
      all earlier batches; the last count is the length of the input. */
  lemma {:induction false} PartitionCounts(s: seq<Record>, batchSize: int)
    ensures var p := Partition(s, batchSize);
      && Total(p) == |s|
      && (p != [] ==> p[|p| - 1].1 == |s|)
      && CountsRunning(p)
    decreases |s|
  {
    if s != [] {
      PartitionCounts(s[..|s| - 1], batchSize);
      PushCounts(Partition(s[..|s| - 1], batchSize), s[|s| - 1], |s|, batchSize);
    }
  }

  /** Full batches before the last: the records number (batches - 1) times
      the batch length plus the last batch's length. */
  // ---------------------------------------------------------------------
  // Consequences of the shape and the counts
  // ---------------------------------------------------------------------

  /** Well-shaped batches hold (batches - 1) full batches plus the last one. */
  lemma {:induction false} TotalWellShaped(ys: seq<Yield>, batchSize: int)
    requires WellShaped(ys, batchSize) && ys != []
    ensures Total(ys) == (|ys| - 1) * FullLength(batchSize) + |ys[|ys| - 1].0|
    decreases |ys|
  {
    var init := ys[..|ys| - 1];
    if |ys| == 1 {
      assert init == [];
    } else {
      assert WellShaped(init, batchSize);
      TotalWellShaped(init, batchSize);
      assert |init[|init| - 1].0| == FullLength(batchSize);
      assert (|init| - 1) * FullLength(batchSize) + FullLength(batchSize) == |init| * FullLength(batchSize);
    }
  }

  /** The yielded batches hold all records; the last count is their number. */
  lemma {:induction false} PartitionTotal(input: seq<Record>, batchSize: int)
    ensures var p := Partition(input, batchSize);
      Total(p) == |input| && (p != [] ==> p[|p| - 1].1 == |input|)
  {
    PartitionCounts(input, batchSize);
  }

  /** The partitioner's last batch holds a single record exactly when the
      record count leaves remainder one modulo the batch size. */
  lemma {:induction false} TrailingSingleton(input: seq<Record>, batchSize: int)
    requires batchSize >= 2
    ensures var p := Partition(input, batchSize);
      p != [] && |p[|p| - 1].0| == 1 <==> |input| % batchSize == 1
  {
    var p := Partition(input, batchSize);
    PartitionShape(input, batchSize);
    PartitionTotal(input, batchSize);
    if p != [] {
      TotalWellShaped(p, batchSize);
      LastLengthRemainder(|input|, batchSize, |p| - 1, |p[|p| - 1].0|);
    }
  }

  /** n records in q full batches and a last one of length between 1 and the
      batch size: the last is a single record exactly when n leaves remainder 1. */
  lemma {:induction false} LastLengthRemainder(n: nat, batchSize: int, q: nat, last: nat)
    requires batchSize >= 2 && 1 <= last <= batchSize && n == q * batchSize + last
    ensures last == 1 <==> n % batchSize == 1
  {
    if last == batchSize {
      assert n == (q + 1) * batchSize + 0;
      DivModUnique(n, batchSize, q + 1, 0);
    } else {
      DivModUnique(n, batchSize, q, last);
    }
  }

  lemma {:induction false} FlattenBatchesLast(ys: seq<Yield>)
    requires ys != []
    ensures Flatten(Batches(ys)) == Flatten(Batches(ys[..|ys| - 1])) + ys[|ys| - 1].0
  {
    assert Batches(ys)[..|ys| - 1] == Batches(ys[..|ys| - 1]);
  }

  /** The count yielded with the last but one batch is the number of records
      before the last batch. */
  lemma {:induction false} PartitionCountBeforeLast(input: seq<Record>, batchSize: int)
    ensures var p := Partition(input, batchSize);
      |p| >= 2 ==> p[|p| - 2].1 == Total(p[..|p| - 1])
  {
    var p := Partition(input, batchSize);
    PartitionCounts(input, batchSize);
    if |p| >= 2 {
      assert p[|p| - 2].1 == Total(p[..|p| - 1]);
    }
  }

  /** A stream no longer than the batch size is yielded as one batch. */
  lemma {:induction false} PartitionOneBatch(s: seq<Record>, batchSize: int)
    requires 0 < |s| <= batchSize
    ensures Partition(s, batchSize) == [(s, |s|)]
    decreases |s|
  {
    var init := s[..|s| - 1];
    var x := s[|s| - 1];
    if |s| == 1 {
      assert init == [];
      assert [x] == s;
    } else {
      PartitionOneBatch(init, batchSize);
      var p := Partition(init, batchSize);
      assert p == [(init, |init|)];
      assert p[..0] == [];
      assert init + [x] == s;
    }
  }
}
