/** The driver: batching, in-order workers, boundary reconciliation, the two
    sorted views and the bucket summary; and how its result relates to one
    sequential scan of the whole stream. */
module Engine {
  import opened PcapRecords
  import opened GapScan
  import opened Partitioner
  import opened GapSort
  import opened Buckets

  /** The packet number the driver gives the first record (source line 133). */
  const FirstPktNum: int := 0

  /** Batches shorter than this are not scanned (source line 139). */
  const MinScanLength: nat := 2

  /** The numbering the boundary check's offset (source line 172) agrees with. */
  const CorrectedFirstPktNum: int := 1

  /** Scanning every batch keeps the pair in front of a batch of one record. */
  const CorrectedMinScanLength: nat := 1

  // ---------------------------------------------------------------------
  // Specification functions
  // ---------------------------------------------------------------------

  /** The batches handed to workers: those with at least `minLen` records. */
  function Kept(ys: seq<Yield>, minLen: nat): (bs: seq<seq<Record>>)
    ensures forall j :: 0 <= j < |bs| ==> |bs[j]| >= minLen
    decreases |ys|
  {
    if ys == [] then []
    else Kept(ys[..|ys| - 1], minLen) + (if |ys[|ys| - 1].0| >= minLen then [ys[|ys| - 1].0] else [])
  }

  /** The record total the driver ends with: the running count yielded with
      the last batch it kept, or 0 when it kept none. */
  function LastKeptCount(ys: seq<Yield>, minLen: nat): nat
    decreases |ys|
  {
    if ys == [] then 0
    else if |ys[|ys| - 1].0| >= minLen then ys[|ys| - 1].1
    else LastKeptCount(ys[..|ys| - 1], minLen)
  }

  ghost predicate NonEmpty(bs: seq<seq<Record>>)
  {
    forall j :: 0 <= j < |bs| ==> |bs[j]| > 0
  }

  /** The workers' results in submission order; each batch is numbered from
      `first` plus the number of records in the batches before it. */
  function WorkerResults(bs: seq<seq<Record>>, diffsecs: real, first: int): (rs: seq<BatchResult>)
    requires NonEmpty(bs)
    ensures |rs| == |bs|
    decreases |bs|
  {
    if bs == [] then []
    else
      var init := bs[..|bs| - 1];
      WorkerResults(init, diffsecs, first) + [Worker(bs[|bs| - 1], diffsecs, first + |Flatten(init)|)]
  }

  /** The number of records the results account for. */
  function CumCount(rs: seq<BatchResult>): nat
    decreases |rs|
  {
    if rs == [] then 0 else CumCount(rs[..|rs| - 1]) + rs[|rs| - 1].count
  }

  /** The intra-batch gaps, batch after batch (source lines 166-167). */
  function Intra(rs: seq<BatchResult>): seq<Gap>
    decreases |rs|
  {
    if rs == [] then [] else Intra(rs[..|rs| - 1]) + rs[|rs| - 1].gaps
  }

  /** The gap, if any, across the boundary before result `i`, numbered
      `base` plus the records of the results before it. */
  function BoundaryAt(rs: seq<BatchResult>, diffsecs: real, i: nat, base: int): seq<Gap>
    requires 1 <= i < |rs|
  {
    GapIfOver(rs[i - 1].last, rs[i].first, diffsecs, base + CumCount(rs[..i]))
  }

  /** The boundary gaps, boundary after boundary (source lines 170-185, whose
      running offset starts at 0: `base` is that starting value). */
  function BoundaryGaps(rs: seq<BatchResult>, diffsecs: real, base: int): seq<Gap>
    decreases |rs|
  {
    if |rs| <= 1 then []
    else BoundaryGaps(rs[..|rs| - 1], diffsecs, base) + BoundaryAt(rs, diffsecs, |rs| - 1, base)
  }

  /** The gaps the driver collects before sorting. */
  function Collected(rs: seq<BatchResult>, diffsecs: real): seq<Gap>
  {
    Intra(rs) + BoundaryGaps(rs, diffsecs, 0)
  }

  /** Intra-batch and boundary gaps interleaved in stream order: each batch's
      gaps follow the gap across the boundary in front of it. */
  function Stitched(rs: seq<BatchResult>, diffsecs: real, base: int): seq<Gap>
    decreases |rs|
  {
    if rs == [] then []
    else if |rs| == 1 then rs[0].gaps
    else Stitched(rs[..|rs| - 1], diffsecs, base) + BoundaryAt(rs, diffsecs, |rs| - 1, base) + rs[|rs| - 1].gaps
  }

  /** The gaps with both packet numbers moved by `delta`. */
  function Shifted(gs: seq<Gap>, delta: int): (r: seq<Gap>)
    ensures |r| == |gs|
    decreases |gs|
  {
    if gs == [] then []
    else
      var g := gs[|gs| - 1];
      Shifted(gs[..|gs| - 1], delta) + [g.(startPkt := g.startPkt + delta, endPkt := g.endPkt + delta)]
  }

  /** What a gap says apart from its packet numbers. */
  function Triples(gs: seq<Gap>): (r: seq<(Record, Record, real)>)
    ensures |r| == |gs|
    decreases |gs|
  {
    if gs == [] then []
    else Triples(gs[..|gs| - 1]) + [(gs[|gs| - 1].start, gs[|gs| - 1].end, gs[|gs| - 1].gap)]
  }

  /** The results of the driver's workers over `input`. */
  function EngineResults(input: seq<Record>, diffsecs: real, batchSize: int, first: int, minLen: nat): seq<BatchResult>
    requires minLen >= 1
  {
    WorkerResults(Kept(Partition(input, batchSize), minLen), diffsecs, first)
  }

  /** The chronological gap list the driver reports. */
  function EngineGaps(input: seq<Record>, diffsecs: real, batchSize: int, first: int, minLen: nat): seq<Gap>
    requires minLen >= 1
  {
    SortBy(Collected(EngineResults(input, diffsecs, batchSize, first, minLen), diffsecs), ByStartPkt)
  }

  /** Everything the driver hands to reporting. */
  datatype Report = Report(allGaps: seq<Gap>, bySize: seq<Gap>, categories: Categories, totalRecords: nat, batchCount: nat)

  function Expected(input: seq<Record>, diffsecs: real, batchSize: int, first: int, minLen: nat): Report
    requires minLen >= 1
  {
    var ys := Partition(input, batchSize);
    var allGaps := EngineGaps(input, diffsecs, batchSize, first, minLen);
    var bySize := SortBy(allGaps, ByGapDesc);
    Report(allGaps, bySize, Categorized(bySize), LastKeptCount(ys, minLen), |Kept(ys, minLen)|)
  }

  // ---------------------------------------------------------------------
  // The driver's phases
  // ---------------------------------------------------------------------

  /** The submission loop (source lines 130-158): skip short batches, number
      each kept batch from the running packet number, keep the last running
      count and count the batches; with the pool replaced by an in-order map. */
  method SubmitBatches(ys: seq<Yield>, diffsecs: real, firstPkt: int, minLen: nat)
    returns (results: seq<BatchResult>, totalRecords: nat, batchCount: nat)
    requires minLen >= 1
    ensures results == WorkerResults(Kept(ys, minLen), diffsecs, firstPkt)
    ensures totalRecords == LastKeptCount(ys, minLen)
    ensures batchCount == |results| == |Kept(ys, minLen)|
  {
    results := [];
    totalRecords := 0;
    batchCount := 0;
    var currentPktNum := firstPkt;
    var i := 0;
    ghost var kept: seq<seq<Record>> := [];
    while i < |ys|
      invariant 0 <= i <= |ys|
      invariant Submitted(ys, i, kept, results, currentPktNum, totalRecords, batchCount, diffsecs, firstPkt, minLen)
    {
      var batch := ys[i].0;
      var pktCount := ys[i].1;
      if |batch| >= minLen {
        var r := ProcessBatch(batch, diffsecs, currentPktNum);
        SubmittedTaken(ys, i, kept, results, currentPktNum, totalRecords, batchCount, diffsecs, firstPkt, minLen, r);
        results := results + [r];
        kept := kept + [batch];
        currentPktNum := currentPktNum + |batch|;
        totalRecords := pktCount;
        batchCount := batchCount + 1;
      } else {
        SubmittedSkipped(ys, i, kept, results, currentPktNum, totalRecords, batchCount, diffsecs, firstPkt, minLen);
      }
      i := i + 1;
    }
    assert ys[..i] == ys;
  }

  /** The collection of gaps (source lines 161-185): the intra-batch gaps in
      result order, then one boundary check per adjacent pair of results,
      numbered by the running offset `batch_pkt_offset`. */
  method CollectGaps(results: seq<BatchResult>, diffsecs: real) returns (allGaps: seq<Gap>)
    ensures allGaps == Collected(results, diffsecs)
  {
    allGaps := [];
    var k := 0;
    while k < |results|
      invariant 0 <= k <= |results|
      invariant allGaps == Intra(results[..k])
    {
      IntraStep(results, k);
      allGaps := allGaps + results[k].gaps;
      k := k + 1;
    }
    assert results[..k] == results;
    ghost var intra := allGaps;
    ghost var boundary: seq<Gap> := [];
    var n := |results|;
    var batchPktOffset := 0;
    var i := 1;
    if n > 0 {
      GatheredStart(results, diffsecs);
    }
    while i < n
      invariant n > 0 ==> Gathered(results, diffsecs, i, batchPktOffset, boundary)
      invariant n == 0 ==> boundary == []
      invariant allGaps == intra + boundary
    {
      GatheredStep(results, diffsecs, i, batchPktOffset, boundary);
      batchPktOffset := batchPktOffset + results[i - 1].count;
      var prevLast := results[i - 1].last;
      var currFirst := results[i].first;
      var difference := Seconds(currFirst) - Seconds(prevLast);
      ghost var g: seq<Gap> := if difference > diffsecs then [Gap(prevLast, currFirst, difference, batchPktOffset, batchPktOffset + 1)] else [];
      if difference > diffsecs {
        allGaps := allGaps + [Gap(prevLast, currFirst, difference, batchPktOffset, batchPktOffset + 1)];
      }
      GapsAppend(intra, boundary, g, allGaps);
      boundary := boundary + g;
      i := i + 1;
    }
    if n > 0 {
      GatheredAll(results, diffsecs, i, batchPktOffset, boundary);
    }
  }

  /** The boundary loop's state before boundary i: the offset counts the
      records of the results before result i - 1, and the boundary gaps of
      the first i results are gathered. */
  ghost predicate Gathered(rs: seq<BatchResult>, diffsecs: real, i: int, offset: int, boundary: seq<Gap>)
  {
    && 1 <= i <= |rs|
    && offset == CumCount(rs[..i - 1])
    && boundary == BoundaryGaps(rs[..i], diffsecs, 0)
  }

  lemma GatheredStart(rs: seq<BatchResult>, diffsecs: real)
    requires rs != []
    ensures Gathered(rs, diffsecs, 1, 0, [])
  {
    assert |rs[..1]| == 1;
  }

  /** The boundary loop's step: the offset grows by the records of the
      result before boundary i, and the boundary's gap, if over the
      threshold, joins the others. */
  lemma GatheredStep(rs: seq<BatchResult>, diffsecs: real, i: int, offset: int, boundary: seq<Gap>)
    requires Gathered(rs, diffsecs, i, offset, boundary) && i < |rs|
    ensures var o := offset + rs[i - 1].count;
      var g := GapIfOver(rs[i - 1].last, rs[i].first, diffsecs, o);
      var d := Seconds(rs[i].first) - Seconds(rs[i - 1].last);
      && Gathered(rs, diffsecs, i + 1, o, boundary + g)
      && g == if d > diffsecs then [Gap(rs[i - 1].last, rs[i].first, d, o, o + 1)] else []
  {
    assert rs[..i][..i - 1] == rs[..i - 1];
    assert rs[..i + 1][..i] == rs[..i];
  }

  lemma GatheredAll(rs: seq<BatchResult>, diffsecs: real, i: int, offset: int, boundary: seq<Gap>)
    requires Gathered(rs, diffsecs, i, offset, boundary) && i >= |rs|
    ensures boundary == BoundaryGaps(rs, diffsecs, 0)
  {
    assert rs[..i] == rs;
  }

  lemma IntraStep(rs: seq<BatchResult>, k: nat)
    requires k < |rs|
    ensures Intra(rs[..k + 1]) == Intra(rs[..k]) + rs[k].gaps
  {
    assert rs[..k + 1][..k] == rs[..k];
  }


  method Analyze(input: seq<Record>, diffsecs: real, batchSize: int, firstPkt: int, minLen: nat) returns (rep: Report)
    requires minLen >= 1
    ensures rep == Expected(input, diffsecs, batchSize, firstPkt, minLen)
  {
    var ys := BatchGenerator(input, batchSize);
    var results, totalRecords, batchCount := SubmitBatches(ys, diffsecs, firstPkt, minLen);
    var allGaps := CollectGaps(results, diffsecs);
    allGaps := SortBy(allGaps, ByStartPkt);
    var bySize := SortBy(allGaps, ByGapDesc);
    var cats := Categorize(bySize);
    rep := Report(allGaps, bySize, cats, totalRecords, batchCount);
  }

  /** The driver as written (source lines 110-241, without the printing and
      the export): the gap list is a sorted, stable rearrangement of the
      collected gaps, which hold the same record pairs and durations as one
      scan of the scanned batches; the severity view and the buckets are
      rearrangements of it. */
  method ProcessPcap(input: seq<Record>, diffsecs: real, batchSize: int) returns (rep: Report)
    ensures rep == Expected(input, diffsecs, batchSize, FirstPktNum, MinScanLength)
    ensures var rs := EngineResults(input, diffsecs, batchSize, FirstPktNum, MinScanLength);
      && Sorted(rep.allGaps, ByStartPkt)
      && multiset(rep.allGaps) == multiset(Collected(rs, diffsecs))
    ensures var scanned := Flatten(Kept(Partition(input, batchSize), MinScanLength));
      multiset(Triples(rep.allGaps)) == multiset(Triples(ScanGaps(scanned, diffsecs, FirstPktNum)))
    ensures Sorted(rep.bySize, ByGapDesc) && multiset(rep.bySize) == multiset(rep.allGaps)
    ensures |rep.categories.underMinute| + |rep.categories.minuteToHour|
          + |rep.categories.hourToDay| + |rep.categories.dayOrMore| == |rep.allGaps|
  {
    rep := Analyze(input, diffsecs, batchSize, FirstPktNum, MinScanLength);
    var bs := Kept(Partition(input, batchSize), MinScanLength);
    var rs := EngineResults(input, diffsecs, batchSize, FirstPktNum, MinScanLength);
    SortBySorted(Collected(rs, diffsecs), ByStartPkt);
    SortByPermutation(Collected(rs, diffsecs), ByStartPkt);
    CollectedTriplesMatchSingleScan(bs, diffsecs, FirstPktNum);
    TriplesPermutation(rep.allGaps, Collected(rs, diffsecs));
    SortBySorted(rep.allGaps, ByGapDesc);
    SortByPermutation(rep.allGaps, ByGapDesc);
    SelectSizes(rep.bySize);
    assert |rep.bySize| == |multiset(rep.bySize)| == |multiset(rep.allGaps)| == |rep.allGaps|;
  }

  /** The driver with the numbering started at 1 and every batch scanned:
      its chronological list is exactly one scan of the whole stream, and it
      counts every record and every batch. */
  method ProcessPcapCorrected(input: seq<Record>, diffsecs: real, batchSize: int) returns (rep: Report)
    ensures rep == Expected(input, diffsecs, batchSize, CorrectedFirstPktNum, CorrectedMinScanLength)
    ensures rep.allGaps == ScanGaps(input, diffsecs, CorrectedFirstPktNum)
    ensures rep.totalRecords == |input| && rep.batchCount == |Partition(input, batchSize)|
    ensures Sorted(rep.bySize, ByGapDesc) && multiset(rep.bySize) == multiset(rep.allGaps)
  {
    rep := Analyze(input, diffsecs, batchSize, CorrectedFirstPktNum, CorrectedMinScanLength);
    CorrectedMatchesSingleScan(input, diffsecs, batchSize);
    SortBySorted(rep.allGaps, ByGapDesc);
    SortByPermutation(rep.allGaps, ByGapDesc);
  }

  // ---------------------------------------------------------------------
  // Offsets and counts
  // ---------------------------------------------------------------------

  /** The k-th worker is numbered from `first` plus the number of records in
      the batches submitted before it, and reports that batch's ends and length. */
  lemma {:induction false} WorkerResultsAt(bs: seq<seq<Record>>, diffsecs: real, first: int, k: nat)
    requires NonEmpty(bs) && k < |bs|
    ensures WorkerResults(bs, diffsecs, first)[k] == Worker(bs[k], diffsecs, first + |Flatten(bs[..k])|)
    decreases |bs|
  {
    var init := bs[..|bs| - 1];
    if k < |bs| - 1 {
      WorkerResultsAt(init, diffsecs, first, k);
      assert init[..k] == bs[..k];
    }
  }

  /** The results account for exactly the records of their batches. */
  lemma {:induction false} CumCountOfWorkerResults(bs: seq<seq<Record>>, diffsecs: real, first: int)
    requires NonEmpty(bs)
    ensures CumCount(WorkerResults(bs, diffsecs, first)) == |Flatten(bs)|
    decreases |bs|
  {
    if bs != [] {
      var rs := WorkerResults(bs, diffsecs, first);
      CumCountOfWorkerResults(bs[..|bs| - 1], diffsecs, first);
      assert rs[..|rs| - 1] == WorkerResults(bs[..|bs| - 1], diffsecs, first);
    }
  }

  /** The submission loop's state after the first `i` yields: the kept
      batches, their results, the next packet number, the stored total and
      the batch count. */
  ghost predicate Submitted(ys: seq<Yield>, i: nat, kept: seq<seq<Record>>, results: seq<BatchResult>, pkt: int,
                            total: nat, count: nat, diffsecs: real, first: int, minLen: nat)
    requires minLen >= 1 && i <= |ys|
  {
    && kept == Kept(ys[..i], minLen)
    && results == WorkerResults(kept, diffsecs, first)
    && pkt == first + |Flatten(kept)|
    && total == LastKeptCount(ys[..i], minLen)
    && count == |results|
  }

  lemma SubmittedTaken(ys: seq<Yield>, i: nat, kept: seq<seq<Record>>, results: seq<BatchResult>, pkt: int,
                       total: nat, count: nat, diffsecs: real, first: int, minLen: nat, r: BatchResult)
    requires minLen >= 1 && i < |ys| && |ys[i].0| >= minLen
    requires Submitted(ys, i, kept, results, pkt, total, count, diffsecs, first, minLen)
    requires r.gaps == ScanGaps(ys[i].0, diffsecs, pkt)
    requires r.first == ys[i].0[0] && r.last == ys[i].0[|ys[i].0| - 1] && r.count == |ys[i].0|
    ensures Submitted(ys, i + 1, kept + [ys[i].0], results + [r], pkt + |ys[i].0|, ys[i].1, count + 1, diffsecs, first, minLen)
  {
    var b := ys[i].0;
    KeptTaken(ys, i, minLen);
    WorkerOf(r, b, diffsecs, pkt);
    ResultsSnoc(kept, results, b, r, diffsecs, first, pkt);
  }

  lemma WorkerOf(r: BatchResult, b: seq<Record>, diffsecs: real, pkt: int)
    requires |b| > 0
    requires r.gaps == ScanGaps(b, diffsecs, pkt)
    requires r.first == b[0] && r.last == b[|b| - 1] && r.count == |b|
    ensures r == Worker(b, diffsecs, pkt)
  {
  }

  lemma ResultsSnoc(kept: seq<seq<Record>>, results: seq<BatchResult>, b: seq<Record>, r: BatchResult,
                    diffsecs: real, first: int, pkt: int)
    requires NonEmpty(kept) && |b| > 0
    requires results == WorkerResults(kept, diffsecs, first)
    requires pkt == first + |Flatten(kept)|
    requires r == Worker(b, diffsecs, pkt)
    ensures NonEmpty(kept + [b]) && results + [r] == WorkerResults(kept + [b], diffsecs, first)
    ensures pkt + |b| == first + |Flatten(kept + [b])|
  {
    WorkerResultsSnoc(kept, b, diffsecs, first);
  }

  lemma SubmittedSkipped(ys: seq<Yield>, i: nat, kept: seq<seq<Record>>, results: seq<BatchResult>, pkt: int,
                         total: nat, count: nat, diffsecs: real, first: int, minLen: nat)
    requires minLen >= 1 && i < |ys| && |ys[i].0| < minLen
    requires Submitted(ys, i, kept, results, pkt, total, count, diffsecs, first, minLen)
    ensures Submitted(ys, i + 1, kept, results, pkt, total, count, diffsecs, first, minLen)
  {
    KeptSkipped(ys, i, minLen);
  }

  lemma {:induction false} KeptTaken(ys: seq<Yield>, i: nat, minLen: nat)
    requires i < |ys| && |ys[i].0| >= minLen
    ensures Kept(ys[..i + 1], minLen) == Kept(ys[..i], minLen) + [ys[i].0]
    ensures LastKeptCount(ys[..i + 1], minLen) == ys[i].1
  {
    assert ys[..i + 1][..i] == ys[..i];
  }

  lemma {:induction false} KeptSkipped(ys: seq<Yield>, i: nat, minLen: nat)
    requires i < |ys| && |ys[i].0| < minLen
    ensures Kept(ys[..i + 1], minLen) == Kept(ys[..i], minLen)
    ensures LastKeptCount(ys[..i + 1], minLen) == LastKeptCount(ys[..i], minLen)
  {
    var kept := Kept(ys[..i], minLen);
    assert ys[..i + 1][..i] == ys[..i];
    assert kept + [] == kept;
  }


  /** One more batch adds one worker result, numbered after all earlier records. */
  lemma {:induction false} WorkerResultsSnoc(bs: seq<seq<Record>>, b: seq<Record>, diffsecs: real, first: int)
    requires NonEmpty(bs) && |b| > 0
    ensures NonEmpty(bs + [b])
    ensures WorkerResults(bs + [b], diffsecs, first) == WorkerResults(bs, diffsecs, first) + [Worker(b, diffsecs, first + |Flatten(bs)|)]
    ensures Flatten(bs + [b]) == Flatten(bs) + b
  {
    var c := bs + [b];
    assert c[..|bs|] == bs;
    NonEmptySnoc(bs, b);
    assert c[|c| - 1] == b;
  }

  lemma NonEmptySnoc(bs: seq<seq<Record>>, b: seq<Record>)
    requires NonEmpty(bs) && |b| > 0
    ensures NonEmpty(bs + [b])
  {
  }


  lemma {:induction false} FlattenLast(bs: seq<seq<Record>>)
    requires bs != [] && bs[|bs| - 1] != []
    ensures Flatten(bs) != [] && Flatten(bs)[|Flatten(bs)| - 1] == bs[|bs| - 1][|bs[|bs| - 1]| - 1]
  {
  }

  // ---------------------------------------------------------------------
  // Boundary reconciliation
  // ---------------------------------------------------------------------

  /** The running offsets grow strictly when every result holds a record. */
  lemma {:induction false} CumCountGrows(rs: seq<BatchResult>, i: nat, j: nat)
    requires forall t :: 0 <= t < |rs| ==> rs[t].count > 0
    requires i < j <= |rs|
    ensures CumCount(rs[..i]) < CumCount(rs[..j])
    decreases j
  {
    assert rs[..j][..j - 1] == rs[..j - 1];
    if i < j - 1 {
      CumCountGrows(rs, i, j - 1);
    }
  }

  /** Boundary gaps are numbered strictly increasingly, one packet apart each,
      at most one per boundary and none without a boundary. */
  lemma {:induction false} BoundaryGapsBounds(rs: seq<BatchResult>, diffsecs: real, base: int)
    requires forall t :: 0 <= t < |rs| ==> rs[t].count > 0
    ensures var b := BoundaryGaps(rs, diffsecs, base);
      && (|rs| <= 1 ==> b == [])
      && (|rs| > 1 ==> |b| <= |rs| - 1)
      && (forall k :: 0 <= k < |b| ==> base < b[k].startPkt && b[k].endPkt == b[k].startPkt + 1)
      && (forall k :: 0 <= k < |b| ==> b[k].startPkt < base + CumCount(rs))
      && (forall k, l :: 0 <= k < l < |b| ==> b[k].startPkt < b[l].startPkt)
    decreases |rs|
  {
    if |rs| > 1 {
      var init := rs[..|rs| - 1];
      BoundaryGapsBounds(init, diffsecs, base);
      BoundaryAtNumbered(rs, diffsecs, base);
      NumberedAppend(BoundaryGaps(init, diffsecs, base), BoundaryAt(rs, diffsecs, |rs| - 1, base),
        base, base + CumCount(init), base + CumCount(rs));
    }
  }

  /** The gap across the last boundary, if any, is numbered by the records
      before it, which are more than none and fewer than all. */
  lemma BoundaryAtNumbered(rs: seq<BatchResult>, diffsecs: real, base: int)
    requires forall t :: 0 <= t < |rs| ==> rs[t].count > 0
    requires |rs| > 1
    ensures var at := BoundaryAt(rs, diffsecs, |rs| - 1, base);
      var m := base + CumCount(rs[..|rs| - 1]);
      && |at| <= 1
      && (forall k :: 0 <= k < |at| ==> at[k].startPkt == m && at[k].endPkt == m + 1)
      && base < m < base + CumCount(rs)
  {
    CumCountGrows(rs, 0, |rs| - 1);
    CumCountGrows(rs, |rs| - 1, |rs|);
    assert rs[..|rs|] == rs;
  }

  /** Numbers strictly increasing below m, followed by at most one gap
      numbered m, stay strictly increasing. */
  lemma NumberedAppend(a: seq<Gap>, b: seq<Gap>, lo: int, m: int, hi: int)
    requires forall k :: 0 <= k < |a| ==> lo < a[k].startPkt && a[k].endPkt == a[k].startPkt + 1
    requires forall k :: 0 <= k < |a| ==> a[k].startPkt < m
    requires forall k, l :: 0 <= k < l < |a| ==> a[k].startPkt < a[l].startPkt
    requires |b| <= 1 && forall k :: 0 <= k < |b| ==> b[k].startPkt == m && b[k].endPkt == m + 1
    requires lo < m < hi
    ensures var c := a + b;
      && (forall k :: 0 <= k < |c| ==> lo < c[k].startPkt && c[k].endPkt == c[k].startPkt + 1)
      && (forall k :: 0 <= k < |c| ==> c[k].startPkt < hi)
      && (forall k, l :: 0 <= k < l < |c| ==> c[k].startPkt < c[l].startPkt)
  {
  }

  /** A boundary gap is reported for the boundary before result i exactly when
      the last record before it and the first record after it are more than
      the threshold apart; it is numbered by the records before the boundary. */
  lemma {:induction false} BoundaryGapsComplete(rs: seq<BatchResult>, diffsecs: real, base: int, i: nat)
    requires forall t :: 0 <= t < |rs| ==> rs[t].count > 0
    requires 1 <= i < |rs|
    ensures GapOf(rs[i - 1].last, rs[i].first, base + CumCount(rs[..i])) in BoundaryGaps(rs, diffsecs, base)
        <==> Difference(rs[i - 1].last, rs[i].first) > diffsecs
    decreases |rs|
  {
    var init := rs[..|rs| - 1];
    var g := GapOf(rs[i - 1].last, rs[i].first, base + CumCount(rs[..i]));
    var at := BoundaryAt(rs, diffsecs, |rs| - 1, base);
    var p := Difference(rs[i - 1].last, rs[i].first) > diffsecs;
    if i < |rs| - 1 {
      assert init[..i] == rs[..i];
      BoundaryGapsComplete(init, diffsecs, base, i);
      EarlierNotLast(rs, diffsecs, base, i);
      InEither(BoundaryGaps(rs, diffsecs, base), BoundaryGaps(init, diffsecs, base), at, g, p);
    } else {
      LastNotEarlier(rs, diffsecs, base);
      InEither(BoundaryGaps(rs, diffsecs, base), BoundaryGaps(init, diffsecs, base), at, g, p);
    }
  }

  /** The gap of an earlier boundary is not the last boundary's. */
  lemma EarlierNotLast(rs: seq<BatchResult>, diffsecs: real, base: int, i: nat)
    requires forall t :: 0 <= t < |rs| ==> rs[t].count > 0
    requires 1 <= i < |rs| - 1
    ensures GapOf(rs[i - 1].last, rs[i].first, base + CumCount(rs[..i])) !in BoundaryAt(rs, diffsecs, |rs| - 1, base)
  {
    CumCountGrows(rs, i, |rs| - 1);
  }

  /** The last boundary's gap is among the boundary gaps exactly when it is
      over the threshold, and is none of the earlier boundaries' gaps. */
  lemma LastNotEarlier(rs: seq<BatchResult>, diffsecs: real, base: int)
    requires forall t :: 0 <= t < |rs| ==> rs[t].count > 0
    requires |rs| > 1
    ensures var n := |rs| - 1;
      var g := GapOf(rs[n - 1].last, rs[n].first, base + CumCount(rs[..n]));
      && g !in BoundaryGaps(rs[..n], diffsecs, base)
      && (g in BoundaryAt(rs, diffsecs, n, base) <==> Difference(rs[n - 1].last, rs[n].first) > diffsecs)
  {
    var n := |rs| - 1;
    var init := rs[..n];
    assert init[..|init|] == init;
    BoundaryGapsBounds(init, diffsecs, base);
  }

  /** Moving the starting offset moves every boundary gap's numbers alike. */
  lemma {:induction false} BoundaryGapsShift(rs: seq<BatchResult>, diffsecs: real, base: int, delta: int)
    ensures BoundaryGaps(rs, diffsecs, base + delta) == Shifted(BoundaryGaps(rs, diffsecs, base), delta)
    decreases |rs|
  {
    if |rs| > 1 {
      var init := rs[..|rs| - 1];
      BoundaryGapsShift(init, diffsecs, base, delta);
      var b := BoundaryGaps(init, diffsecs, base);
      var at := BoundaryAt(rs, diffsecs, |rs| - 1, base);
      BoundaryAtShift(rs, diffsecs, |rs| - 1, base, delta);
      ShiftedAppend(b, at, delta);
    }
  }

  /** Moving the starting offset moves the gap across one boundary alike. */
  lemma BoundaryAtShift(rs: seq<BatchResult>, diffsecs: real, i: nat, base: int, delta: int)
    requires 1 <= i < |rs|
    ensures BoundaryAt(rs, diffsecs, i, base + delta) == Shifted(BoundaryAt(rs, diffsecs, i, base), delta)
  {
    var at := BoundaryAt(rs, diffsecs, i, base);
    if at != [] {
      var g := at[0];
      assert at == [g];
      ShiftedOne(g, delta);
    }
  }

  lemma ShiftedOne(g: Gap, delta: int)
    ensures Shifted([g], delta) == [g.(startPkt := g.startPkt + delta, endPkt := g.endPkt + delta)]
  {
    var one := [g];
    var noGaps: seq<Gap> := [];
    assert one[..0] == noGaps;
  }

  /** Collected gaps are a rearrangement of the stream-ordered interleaving. */
  lemma {:induction false} CollectedPermutesStitched(rs: seq<BatchResult>, diffsecs: real, base: int)
    ensures multiset(Intra(rs) + BoundaryGaps(rs, diffsecs, base)) == multiset(Stitched(rs, diffsecs, base))
    decreases |rs|
  {
    if |rs| > 1 {
      CollectedPermutesStitched(rs[..|rs| - 1], diffsecs, base);
    } else if |rs| == 1 {
      assert rs[..0] == [];
    }
  }

  /** Interleaving the workers' gaps with the boundary gaps, each boundary gap
      numbered by the last record before the boundary, is exactly one scan of
      the concatenated batches. */
  lemma {:induction false} StitchedIsSingleScan(bs: seq<seq<Record>>, diffsecs: real, first: int)
    requires NonEmpty(bs)
    ensures Stitched(WorkerResults(bs, diffsecs, first), diffsecs, first - 1) == ScanGaps(Flatten(bs), diffsecs, first)
    decreases |bs|
  {
    if |bs| == 1 {
      StitchOne(bs, diffsecs, first);
    } else if |bs| > 1 {
      var init := bs[..|bs| - 1];
      var x := bs[|bs| - 1];
      NonEmptyPrefix(bs);
      StitchedIsSingleScan(init, diffsecs, first);
      StitchStep(init, x, diffsecs, first);
      assert init + [x] == bs;
    }
  }

  lemma NonEmptyPrefix(bs: seq<seq<Record>>)
    requires NonEmpty(bs) && bs != []
    ensures NonEmpty(bs[..|bs| - 1]) && |bs[|bs| - 1]| > 0
  {
  }

  /** A single batch is scanned by its own worker alone. */
  lemma StitchOne(bs: seq<seq<Record>>, diffsecs: real, first: int)
    requires NonEmpty(bs) && |bs| == 1
    ensures Stitched(WorkerResults(bs, diffsecs, first), diffsecs, first - 1) == ScanGaps(Flatten(bs), diffsecs, first)
  {
    var b := bs[0];
    assert bs == [b];
    WorkerResultsOne(b, diffsecs, first);
    FlattenOne(b);
  }

  lemma FlattenOne(b: seq<Record>)
    ensures Flatten([b]) == b
  {
    var one := [b];
    var noBatches: seq<seq<Record>> := [];
    assert one[..0] == noBatches;
  }

  /** The step of StitchedIsSingleScan: one more batch adds the gap across its
      front boundary and its own gaps, as scanning the longer stream does. */
  lemma {:induction false} StitchStep(init: seq<seq<Record>>, b: seq<Record>, diffsecs: real, first: int)
    requires NonEmpty(init) && init != [] && |b| > 0
    requires Stitched(WorkerResults(init, diffsecs, first), diffsecs, first - 1) == ScanGaps(Flatten(init), diffsecs, first)
    ensures NonEmpty(init + [b])
    ensures Stitched(WorkerResults(init + [b], diffsecs, first), diffsecs, first - 1) == ScanGaps(Flatten(init + [b]), diffsecs, first)
  {
    WorkerResultsSnoc(init, b, diffsecs, first);
    StitchJoined(init, b, diffsecs, first);
  }

  /** StitchStep with the results and records written out as concatenations. */
  lemma {:induction false} StitchJoined(init: seq<seq<Record>>, b: seq<Record>, diffsecs: real, first: int)
    requires NonEmpty(init) && init != [] && |b| > 0
    requires Stitched(WorkerResults(init, diffsecs, first), diffsecs, first - 1) == ScanGaps(Flatten(init), diffsecs, first)
    ensures var f := Flatten(init);
      Stitched(WorkerResults(init, diffsecs, first) + [Worker(b, diffsecs, first + |f|)], diffsecs, first - 1)
      == ScanGaps(f + b, diffsecs, first)
  {
    var f := Flatten(init);
    LastBoundary(init, b, diffsecs, first);
    StitchJoin(WorkerResults(init, diffsecs, first), Worker(b, diffsecs, first + |f|), f, b, diffsecs, first);
  }

  /** The step of StitchStep on plain results and records: the new result's
      front boundary gap and its own gaps extend the scan of the records so
      far to the scan of the longer stream. */
  lemma StitchJoin(rsInit: seq<BatchResult>, w: BatchResult, f: seq<Record>, b: seq<Record>, diffsecs: real, first: int)
    requires rsInit != [] && |f| > 0 && |b| > 0
    requires Stitched(rsInit, diffsecs, first - 1) == ScanGaps(f, diffsecs, first)
    requires w == Worker(b, diffsecs, first + |f|)
    requires BoundaryAt(rsInit + [w], diffsecs, |rsInit|, first - 1) == GapIfOver(f[|f| - 1], b[0], diffsecs, first + |f| - 1)
    ensures Stitched(rsInit + [w], diffsecs, first - 1) == ScanGaps(f + b, diffsecs, first)
  {
    var rs := rsInit + [w];
    StitchedSnoc(rsInit, w, diffsecs, first - 1);
    ScanGapsAppend(f, b, diffsecs, first);
    GapsChain(Stitched(rs, diffsecs, first - 1), Stitched(rsInit, diffsecs, first - 1), BoundaryAt(rs, diffsecs, |rsInit|, first - 1), w.gaps,
      ScanGaps(f, diffsecs, first), GapIfOver(f[|f| - 1], b[0], diffsecs, first + |f| - 1), ScanGaps(b, diffsecs, first + |f|),
      ScanGaps(f + b, diffsecs, first));
  }

  lemma {:induction false} StitchedSnoc(rs: seq<BatchResult>, r: BatchResult, diffsecs: real, base: int)
    requires rs != []
    ensures Stitched(rs + [r], diffsecs, base) == Stitched(rs, diffsecs, base) + BoundaryAt(rs + [r], diffsecs, |rs|, base) + r.gaps
  {
    assert (rs + [r])[..|rs|] == rs;
  }

  /** The boundary in front of one more batch joins the last record so far
      with the batch's first record, numbered by the records so far. */
  lemma {:induction false} LastBoundary(init: seq<seq<Record>>, b: seq<Record>, diffsecs: real, first: int)
    requires NonEmpty(init) && init != [] && |b| > 0
    ensures Flatten(init) != []
    ensures var rsInit := WorkerResults(init, diffsecs, first);
      var rs := rsInit + [Worker(b, diffsecs, first + |Flatten(init)|)];
      var f := Flatten(init);
      BoundaryAt(rs, diffsecs, |rsInit|, first - 1) == GapIfOver(f[|f| - 1], b[0], diffsecs, first + |f| - 1)
  {
    var f := Flatten(init);
    var rsInit := WorkerResults(init, diffsecs, first);
    var rs := rsInit + [Worker(b, diffsecs, first + |f|)];
    assert rs[..|rs| - 1] == rsInit;
    CumCountOfWorkerResults(init, diffsecs, first);
    WorkerResultsAt(init, diffsecs, first, |init| - 1);
    FlattenLast(init);
    assert rs[|rs| - 2] == rsInit[|init| - 1];
  }

  /** Batched scanning with boundary reconciliation finds one scan's gaps,
      when the boundary offset starts one below the first packet number. */
  lemma {:induction false} BatchedMatchesSingleScan(bs: seq<seq<Record>>, diffsecs: real, first: int)
    requires NonEmpty(bs)
    ensures var rs := WorkerResults(bs, diffsecs, first);
      multiset(Intra(rs) + BoundaryGaps(rs, diffsecs, first - 1)) == multiset(ScanGaps(Flatten(bs), diffsecs, first))
  {
    StitchedIsSingleScan(bs, diffsecs, first);
    CollectedPermutesStitched(WorkerResults(bs, diffsecs, first), diffsecs, first - 1);
  }

  /** The boundary offset starts at 0 whatever the first packet number is:
      every boundary gap is numbered `1 - first` higher than one scan from
      packet `first` numbers the same pair. With the driver's first number 0
      that is one too high; starting the numbering at 1 makes them agree. */
  lemma {:induction false} BoundaryGapsMisnumbered(bs: seq<seq<Record>>, diffsecs: real, first: int)
    requires NonEmpty(bs)
    ensures var rs := WorkerResults(bs, diffsecs, first);
      Collected(rs, diffsecs) == Intra(rs) + Shifted(BoundaryGaps(rs, diffsecs, first - 1), 1 - first)
  {
    var rs := WorkerResults(bs, diffsecs, first);
    BoundaryGapsShift(rs, diffsecs, first - 1, 1 - first);
    assert first - 1 + (1 - first) == 0;
  }

  /** Whatever the numbering, the collected gaps pair the same records with
      the same durations as one scan of the concatenated batches. */
  lemma {:induction false} CollectedTriplesMatchSingleScan(bs: seq<seq<Record>>, diffsecs: real, first: int)
    requires NonEmpty(bs)
    ensures var rs := WorkerResults(bs, diffsecs, first);
      multiset(Triples(Collected(rs, diffsecs))) == multiset(Triples(ScanGaps(Flatten(bs), diffsecs, first)))
  {
    var rs := WorkerResults(bs, diffsecs, first);
    var intra := Intra(rs);
    var b0 := BoundaryGaps(rs, diffsecs, 0);
    var bm := BoundaryGaps(rs, diffsecs, first - 1);
    var scan := ScanGaps(Flatten(bs), diffsecs, first);
    BoundaryGapsShift(rs, diffsecs, first - 1, 1 - first);
    assert first - 1 + (1 - first) == 0;
    assert b0 == Shifted(bm, 1 - first);
    TriplesShifted(bm, 1 - first);
    TriplesAppend(intra, b0);
    TriplesAppend(intra, bm);
    assert Triples(intra + b0) == Triples(intra + bm);
    BatchedMatchesSingleScan(bs, diffsecs, first);
    assert multiset(intra + bm) == multiset(scan);
    TriplesPermutation(intra + bm, scan);
  }

  /** The chronological sort keeps, among gaps with equal starting numbers,
      the collection order: intra-batch gaps before boundary gaps, so on a tie
      between a boundary gap and the first gap of the next batch the latter
      stays first. */
  lemma {:induction false} ChronologicalTiesKeepIntraFirst(rs: seq<BatchResult>, diffsecs: real, v: real)
    ensures WithKey(SortBy(Collected(rs, diffsecs), ByStartPkt), ByStartPkt, v)
         == WithKey(Intra(rs), ByStartPkt, v) + WithKey(BoundaryGaps(rs, diffsecs, 0), ByStartPkt, v)
  {
    SortByStable(Collected(rs, diffsecs), ByStartPkt, v);
    WithKeyAppend(Intra(rs), BoundaryGaps(rs, diffsecs, 0), ByStartPkt, v);
  }

  // ---------------------------------------------------------------------
  // Which batches are scanned
  // ---------------------------------------------------------------------

  /** When every batch is long enough, all are kept, in order, and the
      stored total is the last running count. */
  lemma {:induction false} KeptAllLong(ys: seq<Yield>, minLen: nat)
    requires forall j :: 0 <= j < |ys| ==> |ys[j].0| >= minLen
    ensures Kept(ys, minLen) == Batches(ys)
    ensures LastKeptCount(ys, minLen) == if ys == [] then 0 else ys[|ys| - 1].1
    decreases |ys|
  {
    if ys != [] {
      KeptAllLong(ys[..|ys| - 1], minLen);
    }
  }

  /** When every batch is too short, none is kept and the total stays 0. */
  lemma {:induction false} KeptNoneShort(ys: seq<Yield>, minLen: nat)
    requires forall j :: 0 <= j < |ys| ==> |ys[j].0| < minLen
    ensures Kept(ys, minLen) == [] && LastKeptCount(ys, minLen) == 0
    decreases |ys|
  {
    if ys != [] {
      KeptNoneShort(ys[..|ys| - 1], minLen);
    }
  }

  /** With a batch size of one or less every batch holds one record, so the
      driver as written scans nothing, finds no gap and reports 0 records. */
  lemma {:induction false} TinyBatchesScanNothing(input: seq<Record>, diffsecs: real, batchSize: int)
    requires batchSize <= 1
    ensures Kept(Partition(input, batchSize), MinScanLength) == []
    ensures LastKeptCount(Partition(input, batchSize), MinScanLength) == 0
    ensures EngineGaps(input, diffsecs, batchSize, FirstPktNum, MinScanLength) == []
  {
    PartitionShape(input, batchSize);
    KeptNoneShort(Partition(input, batchSize), MinScanLength);
  }

  /** The records the driver as written scans: all of them, except the last
      when it is left alone in a batch of its own. */
  function AsWrittenScanned(input: seq<Record>, batchSize: int): (s: seq<Record>)
    requires batchSize >= 2
    ensures s <= input && |input| - 1 <= |s|
  {
    if |input| % batchSize == 1 then input[..|input| - 1] else input
  }

  /** The scanned batches are the stream without a trailing single-record
      batch, and the stored total counts only them. */
  lemma {:induction false} AsWrittenScansAllButTrailingSingleton(input: seq<Record>, batchSize: int)
    requires batchSize >= 2
    ensures Flatten(Kept(Partition(input, batchSize), MinScanLength)) == AsWrittenScanned(input, batchSize)
    ensures LastKeptCount(Partition(input, batchSize), MinScanLength) == |AsWrittenScanned(input, batchSize)|
  {
    var p := Partition(input, batchSize);
    TrailingSingleton(input, batchSize);
    if p != [] && |p[|p| - 1].0| == 1 {
      ScannedWithTrailingSingleton(input, batchSize);
    } else {
      ScannedWithoutTrailingSingleton(input, batchSize);
    }
  }

  lemma {:induction false} ScannedWithoutTrailingSingleton(input: seq<Record>, batchSize: int)
    requires batchSize >= 2
    requires var p := Partition(input, batchSize); !(p != [] && |p[|p| - 1].0| == 1)
    ensures Flatten(Kept(Partition(input, batchSize), MinScanLength)) == input
    ensures LastKeptCount(Partition(input, batchSize), MinScanLength) == |input|
  {
    var p := Partition(input, batchSize);
    PartitionShape(input, batchSize);
    PartitionTotal(input, batchSize);
    PartitionReassembles(input, batchSize);
    assert forall j :: 0 <= j < |p| ==> |p[j].0| >= MinScanLength;
    KeptAllLong(p, MinScanLength);
  }

  lemma {:induction false} ScannedWithTrailingSingleton(input: seq<Record>, batchSize: int)
    requires batchSize >= 2
    requires var p := Partition(input, batchSize); p != [] && |p[|p| - 1].0| == 1
    ensures |input| > 0
    ensures Flatten(Kept(Partition(input, batchSize), MinScanLength)) == input[..|input| - 1]
    ensures LastKeptCount(Partition(input, batchSize), MinScanLength) == |input| - 1
  {
    var p := Partition(input, batchSize);
    FrontBatchesLong(input, batchSize);
    KeptDropsShortLast(p, MinScanLength);
    TrailingFront(input, batchSize);
    TrailingCount(input, batchSize);
  }

  /** Every batch but the last is full, so holds at least two records. */
  lemma FrontBatchesLong(input: seq<Record>, batchSize: int)
    requires batchSize >= 2
    ensures var p := Partition(input, batchSize);
      forall j :: 0 <= j < |p| - 1 ==> |p[j].0| >= MinScanLength
  {
    PartitionShape(input, batchSize);
  }

  /** Without a trailing lone record, the batches before the last one hold
      every record but the last. */
  lemma {:induction false} TrailingFront(input: seq<Record>, batchSize: int)
    requires var p := Partition(input, batchSize); p != [] && |p[|p| - 1].0| == 1
    ensures var p := Partition(input, batchSize);
      |input| > 0 && Flatten(Batches(p[..|p| - 1])) == input[..|input| - 1]
  {
    var p := Partition(input, batchSize);
    PartitionReassembles(input, batchSize);
    FlattenBatchesLast(p);
    DropLastRecord(input, Flatten(Batches(p[..|p| - 1])), p[|p| - 1].0);
  }

  /** Before a trailing lone record, the count yielded with the batch before
      it is one less than the input length. */
  lemma {:induction false} TrailingCount(input: seq<Record>, batchSize: int)
    requires var p := Partition(input, batchSize); p != [] && |p[|p| - 1].0| == 1
    ensures var p := Partition(input, batchSize);
      (if |p| == 1 then 0 else p[|p| - 2].1) == |input| - 1
  {
    var p := Partition(input, batchSize);
    PartitionTotal(input, batchSize);
    PartitionCountBeforeLast(input, batchSize);
    assert Total(p) == Total(p[..|p| - 1]) + 1;
    if |p| == 1 {
      var noYields: seq<Yield> := [];
      assert p[..0] == noYields;
    }
  }


  /** A short last batch is dropped when all the others are kept. */
  lemma {:induction false} KeptDropsShortLast(ys: seq<Yield>, minLen: nat)
    requires ys != [] && |ys[|ys| - 1].0| < minLen
    requires forall j :: 0 <= j < |ys| - 1 ==> |ys[j].0| >= minLen
    ensures Kept(ys, minLen) == Batches(ys[..|ys| - 1])
    ensures LastKeptCount(ys, minLen) == if |ys| == 1 then 0 else ys[|ys| - 2].1
  {
    var init := ys[..|ys| - 1];
    assert Kept(ys, minLen) == Kept(init, minLen) + [];
    KeptAllLong(init, minLen);
  }

  /** The driver as written reports, up to their numbers, the gaps of one
      scan of the records it scans (ScanOfAsWrittenScanned says what that
      scan leaves out). */
  lemma {:induction false} AsWrittenReportsScannedGaps(input: seq<Record>, diffsecs: real, batchSize: int)
    requires batchSize >= 2
    ensures multiset(Triples(EngineGaps(input, diffsecs, batchSize, FirstPktNum, MinScanLength)))
         == multiset(Triples(ScanGaps(AsWrittenScanned(input, batchSize), diffsecs, FirstPktNum)))
  {
    AsWrittenScansAllButTrailingSingleton(input, batchSize);
    EngineTriples(input, diffsecs, batchSize, FirstPktNum, MinScanLength);
  }

  /** One scan of the whole stream is one scan of the records the driver as
      written scans, plus the gap, if any, before a trailing lone record. */
  lemma {:induction false} ScanOfAsWrittenScanned(input: seq<Record>, diffsecs: real, batchSize: int, first: int)
    requires batchSize >= 2
    ensures ScanGaps(input, diffsecs, first)
         == ScanGaps(AsWrittenScanned(input, batchSize), diffsecs, first)
          + (if |input| % batchSize == 1 && |input| >= 2
             then GapIfOver(input[|input| - 2], input[|input| - 1], diffsecs, first + |input| - 2)
             else [])
  {
    var s := AsWrittenScanned(input, batchSize);
    if |input| % batchSize == 1 && |input| >= 2 {
      assert s == input[..|input| - 1];
      ScanGapsDropLast(input, diffsecs, first);
    } else if |input| % batchSize == 1 {
      assert ScanGaps(input, diffsecs, first) == [] == ScanGaps(s, diffsecs, first);
    } else {
      assert ScanGaps(input, diffsecs, first) + [] == ScanGaps(input, diffsecs, first);
    }
  }

  /** Up to their numbers, the driver's chronological list holds the gaps of
      one scan of the records in the batches it scans. */
  lemma {:induction false} EngineTriples(input: seq<Record>, diffsecs: real, batchSize: int, first: int, minLen: nat)
    requires minLen >= 1
    ensures multiset(Triples(EngineGaps(input, diffsecs, batchSize, first, minLen)))
         == multiset(Triples(ScanGaps(Flatten(Kept(Partition(input, batchSize), minLen)), diffsecs, first)))
  {
    var bs := Kept(Partition(input, batchSize), minLen);
    var collected := Collected(WorkerResults(bs, diffsecs, first), diffsecs);
    CollectedTriplesMatchSingleScan(bs, diffsecs, first);
    SortByPermutation(collected, ByStartPkt);
    TriplesPermutation(SortBy(collected, ByStartPkt), collected);
  }

  /** Numbered from 1 with every batch scanned, the driver's chronological
      list is exactly one scan of the whole stream, whatever the batch size;
      every batch is scanned and every record counted. */
  lemma {:induction false} CorrectedMatchesSingleScan(input: seq<Record>, diffsecs: real, batchSize: int)
    ensures EngineGaps(input, diffsecs, batchSize, CorrectedFirstPktNum, CorrectedMinScanLength)
         == ScanGaps(input, diffsecs, CorrectedFirstPktNum)
    ensures LastKeptCount(Partition(input, batchSize), CorrectedMinScanLength) == |input|
    ensures |Kept(Partition(input, batchSize), CorrectedMinScanLength)| == |Partition(input, batchSize)|
  {
    var p := Partition(input, batchSize);
    PartitionShape(input, batchSize);
    PartitionTotal(input, batchSize);
    PartitionReassembles(input, batchSize);
    assert forall j :: 0 <= j < |p| ==> |p[j].0| >= CorrectedMinScanLength;
    KeptAllLong(p, CorrectedMinScanLength);
    SortedCollectedIsScan(Batches(p), diffsecs);
  }

  /** Numbered from 1, sorting the collected gaps by packet number yields one
      scan of the concatenated batches. */
  lemma {:induction false} SortedCollectedIsScan(bs: seq<seq<Record>>, diffsecs: real)
    requires NonEmpty(bs)
    ensures SortBy(Collected(WorkerResults(bs, diffsecs, 1), diffsecs), ByStartPkt) == ScanGaps(Flatten(bs), diffsecs, 1)
  {
    var rs := WorkerResults(bs, diffsecs, 1);
    var scan := ScanGaps(Flatten(bs), diffsecs, 1);
    BatchedMatchesSingleScan(bs, diffsecs, 1);
    assert Collected(rs, diffsecs) == Intra(rs) + BoundaryGaps(rs, diffsecs, 1 - 1);
    ScanGapsBounds(Flatten(bs), diffsecs, 1);
    assert StrictlySorted(scan, ByStartPkt);
    SortByPermutationsAgree(Collected(rs, diffsecs), scan, ByStartPkt);
  }

  /** Counterexample to consistent numbering: the same gap, between the
      second and third packets, is numbered 1 by one batch of four and 2 by
      two batches of two, while one scan from packet 0 numbers it 1. */
  lemma {:induction false} IndexMismatchExample()
    ensures var input := [Record(0, 1), Record(1, 1), Record(50, 1), Record(51, 1)];
      && EngineGaps(input, 10.0, 4, FirstPktNum, MinScanLength) == [GapOf(Record(1, 1), Record(50, 1), 1)]
      && EngineGaps(input, 10.0, 2, FirstPktNum, MinScanLength) == [GapOf(Record(1, 1), Record(50, 1), 2)]
      && ScanGaps(input, 10.0, FirstPktNum) == [GapOf(Record(1, 1), Record(50, 1), 1)]
  {
    var r0, r1, r2, r3 := Record(0, 1), Record(1, 1), Record(50, 1), Record(51, 1);
    SingleScanOfExample(r0, r1, r2, r3);
    OneBatchOfFour(r0, r1, r2, r3);
    TwoBatchesOfTwo(r0, r1, r2, r3);
  }

  lemma {:induction false} OneBatchOfFour(r0: Record, r1: Record, r2: Record, r3: Record)
    requires r0 == Record(0, 1) && r1 == Record(1, 1) && r2 == Record(50, 1) && r3 == Record(51, 1)
    ensures EngineGaps([r0, r1, r2, r3], 10.0, 4, 0, 2) == [GapOf(r1, r2, 1)]
  {
    var g := GapOf(r1, r2, 1);
    OneBatchOfFourCollected(r0, r1, r2, r3);
    SortByStrictlySortedIsIdentity([g], ByStartPkt);
  }

  lemma {:induction false} OneBatchOfFourCollected(r0: Record, r1: Record, r2: Record, r3: Record)
    requires r0 == Record(0, 1) && r1 == Record(1, 1) && r2 == Record(50, 1) && r3 == Record(51, 1)
    ensures Collected(EngineResults([r0, r1, r2, r3], 10.0, 4, 0, 2), 10.0) == [GapOf(r1, r2, 1)]
  {
    var input := [r0, r1, r2, r3];
    SingleScanOfExample(r0, r1, r2, r3);
    KeptOneBatch(input, 4, 2);
    WorkerResultsOne(input, 10.0, 0);
    OneResultCollected([Worker(input, 10.0, 0)]);
  }

  /** A stream no longer than the batch size and at least the minimum long is
      scanned as one batch. */
  lemma KeptOneBatch(input: seq<Record>, batchSize: int, minLen: nat)
    requires 0 < |input| <= batchSize && |input| >= minLen
    ensures Kept(Partition(input, batchSize), minLen) == [input]
  {
    PartitionOneBatch(input, batchSize);
    var ys := Partition(input, batchSize);
    var noYields: seq<Yield> := [];
    assert ys[..0] == noYields;
  }

  lemma WorkerResultsOne(b: seq<Record>, diffsecs: real, first: int)
    requires |b| > 0
    ensures NonEmpty([b]) && WorkerResults([b], diffsecs, first) == [Worker(b, diffsecs, first)]
  {
    var one := [b];
    var noBatches: seq<seq<Record>> := [];
    assert one[..0] == noBatches;
  }

  /** A single result contributes its own gaps and no boundary gap. */
  lemma {:induction false} OneResultCollected(rs: seq<BatchResult>)
    requires |rs| == 1
    ensures Intra(rs) == rs[0].gaps
    ensures forall d :: Collected(rs, d) == rs[0].gaps
  {
    assert rs[..0] == [];
    assert Intra(rs) == Intra(rs[..0]) + rs[0].gaps;
  }

  lemma {:induction false} TwoBatchesOfTwo(r0: Record, r1: Record, r2: Record, r3: Record)
    requires r0 == Record(0, 1) && r1 == Record(1, 1) && r2 == Record(50, 1) && r3 == Record(51, 1)
    ensures EngineGaps([r0, r1, r2, r3], 10.0, 2, 0, 2) == [GapOf(r1, r2, 2)]
  {
    var rs := TwoBatchesOfTwoResults(r0, r1, r2, r3);
    var h := GapOf(r1, r2, 2);
    SingleScanOfExample(r0, r1, r2, r3);
    assert rs[..1] == [Worker([r0, r1], 10.0, 0)];
    OneResultCollected(rs[..1]);
    assert Intra(rs) == Intra(rs[..1]) + rs[1].gaps == [];
    assert CumCount(rs[..1]) == 2 by {
      assert rs[..1][..0] == [];
    }
    assert BoundaryGaps(rs, 10.0, 0) == [h];
    assert Collected(rs, 10.0) == [h];
    SortByStrictlySortedIsIdentity([h], ByStartPkt);
  }

  lemma {:induction false} TwoBatchesOfTwoResults(r0: Record, r1: Record, r2: Record, r3: Record)
    returns (rs: seq<BatchResult>)
    ensures rs == EngineResults([r0, r1, r2, r3], 10.0, 2, 0, 2)
    ensures rs == [Worker([r0, r1], 10.0, 0), Worker([r2, r3], 10.0, 2)]
  {
    var ys := TwoBatchesOfTwoPartition(r0, r1, r2, r3);
    var bs := Kept(ys, 2);
    assert bs[..1] == [[r0, r1]];
    var noBatches: seq<seq<Record>> := [];
    assert bs[..1][..0] == noBatches;
    assert Flatten(bs[..1]) == [r0, r1];
    assert WorkerResults(bs[..1], 10.0, 0) == [Worker([r0, r1], 10.0, 0)];
    rs := WorkerResults(bs, 10.0, 0);
  }

  lemma {:induction false} TwoBatchesOfTwoPartition(r0: Record, r1: Record, r2: Record, r3: Record)
    returns (ys: seq<Yield>)
    ensures ys == Partition([r0, r1, r2, r3], 2) == [([r0, r1], 2), ([r2, r3], 4)]
    ensures Kept(ys, 2) == [[r0, r1], [r2, r3]]
  {
    var input := [r0, r1, r2, r3];
    PartitionOneBatch([r0, r1], 2);
    assert input[..2] == [r0, r1] && input[..3] == [r0, r1, r2] && input[..3][..2] == [r0, r1];
    var p3 := Partition(input[..3], 2);
    assert p3 == [([r0, r1], 2), ([r2], 3)];
    assert p3[..1] == [([r0, r1], 2)] && [r2] + [r3] == [r2, r3];
    ys := Partition(input, 2);
    var noYields: seq<Yield> := [];
    assert ys[..1] == [([r0, r1], 2)] && ys[..1][..0] == noYields;
    assert Kept(ys[..1], 2) == [[r0, r1]];
  }

  /** Scans of two, three and four records, pair by pair. */
  lemma ScanTwo(a: Record, b: Record, diffsecs: real, s: int)
    ensures ScanGaps([a, b], diffsecs, s) == GapIfOver(a, b, diffsecs, s)
  {
    var q := [a, b];
    assert ScanPairs(q, diffsecs, s, 1) == ScanPairs(q, diffsecs, s, 0) + GapIfOver(a, b, diffsecs, s);
  }

  lemma ScanThree(a: Record, b: Record, c: Record, diffsecs: real, s: int)
    ensures ScanGaps([a, b, c], diffsecs, s) == GapIfOver(a, b, diffsecs, s) + GapIfOver(b, c, diffsecs, s + 1)
  {
    var q := [a, b, c];
    assert ScanPairs(q, diffsecs, s, 1) == ScanPairs(q, diffsecs, s, 0) + GapIfOver(a, b, diffsecs, s);
    assert ScanPairs(q, diffsecs, s, 2) == ScanPairs(q, diffsecs, s, 1) + GapIfOver(b, c, diffsecs, s + 1);
  }

  lemma ScanFour(a: Record, b: Record, c: Record, e: Record, diffsecs: real, s: int)
    ensures ScanGaps([a, b, c, e], diffsecs, s)
         == GapIfOver(a, b, diffsecs, s) + GapIfOver(b, c, diffsecs, s + 1) + GapIfOver(c, e, diffsecs, s + 2)
  {
    var q := [a, b, c, e];
    assert ScanPairs(q, diffsecs, s, 1) == ScanPairs(q, diffsecs, s, 0) + GapIfOver(a, b, diffsecs, s);
    assert ScanPairs(q, diffsecs, s, 2) == ScanPairs(q, diffsecs, s, 1) + GapIfOver(b, c, diffsecs, s + 1);
    assert ScanPairs(q, diffsecs, s, 3) == ScanPairs(q, diffsecs, s, 2) + GapIfOver(c, e, diffsecs, s + 2);
  }

  /** One scan of the four records of IndexMismatchExample from packet 0. */
  lemma {:induction false} SingleScanOfExample(r0: Record, r1: Record, r2: Record, r3: Record)
    requires r0 == Record(0, 1) && r1 == Record(1, 1) && r2 == Record(50, 1) && r3 == Record(51, 1)
    ensures ScanGaps([r0, r1], 10.0, 0) == []
    ensures ScanGaps([r0, r1, r2], 10.0, 0) == [GapOf(r1, r2, 1)]
    ensures ScanGaps([r0, r1, r2, r3], 10.0, 0) == [GapOf(r1, r2, 1)]
    ensures ScanGaps([r0, r1], 10.0, 2) == [] && ScanGaps([r2, r3], 10.0, 2) == []
  {
    assert Difference(r0, r1) == 1.0 && Difference(r1, r2) == 49.0 && Difference(r2, r3) == 1.0;
    ScanTwo(r0, r1, 10.0, 0);
    ScanTwo(r0, r1, 10.0, 2);
    ScanTwo(r2, r3, 10.0, 2);
    ScanThree(r0, r1, r2, 10.0, 0);
    ScanFour(r0, r1, r2, r3, 10.0, 0);
  }

  /** Counterexample to a chronological list: with batch size 2 the gap
      across the boundary and the first gap of the second batch share start
      number 2, and the stable sort keeps the later gap first. */
  lemma {:induction false} TiedStartExample()
    ensures var input := [Record(0, 1), Record(1, 1), Record(50, 1), Record(100, 1)];
      && EngineGaps(input, 10.0, 2, FirstPktNum, MinScanLength)
         == [GapOf(Record(50, 1), Record(100, 1), 2), GapOf(Record(1, 1), Record(50, 1), 2)]
      && ScanGaps(input, 10.0, FirstPktNum)
         == [GapOf(Record(1, 1), Record(50, 1), 1), GapOf(Record(50, 1), Record(100, 1), 2)]
  {
    var r0, r1, r2, r3 := Record(0, 1), Record(1, 1), Record(50, 1), Record(100, 1);
    TiedStartCollected(r0, r1, r2, r3);
    SortByTiedPair(GapOf(r2, r3, 2), GapOf(r1, r2, 2), ByStartPkt);
  }

  lemma {:induction false} TiedStartCollected(r0: Record, r1: Record, r2: Record, r3: Record)
    requires r0 == Record(0, 1) && r1 == Record(1, 1) && r2 == Record(50, 1) && r3 == Record(100, 1)
    ensures Collected(EngineResults([r0, r1, r2, r3], 10.0, 2, 0, 2), 10.0) == [GapOf(r2, r3, 2), GapOf(r1, r2, 2)]
    ensures ScanGaps([r0, r1, r2, r3], 10.0, 0) == [GapOf(r1, r2, 1), GapOf(r2, r3, 2)]
  {
    var rs := TwoBatchesOfTwoResults(r0, r1, r2, r3);
    TiedStartScans(r0, r1, r2, r3);
    assert rs[..1] == [Worker([r0, r1], 10.0, 0)];
    OneResultCollected(rs[..1]);
    assert Intra(rs) == Intra(rs[..1]) + rs[1].gaps == [GapOf(r2, r3, 2)];
    assert CumCount(rs[..1]) == 2 by {
      assert rs[..1][..0] == [];
    }
    assert BoundaryGaps(rs, 10.0, 0) == [GapOf(r1, r2, 2)];
  }

  /** The scans of the records of TiedStartExample. */
  lemma {:induction false} TiedStartScans(r0: Record, r1: Record, r2: Record, r3: Record)
    requires r0 == Record(0, 1) && r1 == Record(1, 1) && r2 == Record(50, 1) && r3 == Record(100, 1)
    ensures ScanGaps([r0, r1], 10.0, 0) == []
    ensures ScanGaps([r2, r3], 10.0, 2) == [GapOf(r2, r3, 2)]
    ensures ScanGaps([r0, r1, r2, r3], 10.0, 0) == [GapOf(r1, r2, 1), GapOf(r2, r3, 2)]
  {
    assert Difference(r0, r1) == 1.0 && Difference(r1, r2) == 49.0 && Difference(r2, r3) == 50.0;
    ScanTwo(r0, r1, 10.0, 0);
    ScanTwo(r2, r3, 10.0, 2);
    ScanFour(r0, r1, r2, r3, 10.0, 0);
  }

  /** Counterexample to scanning every pair: with batch size 2 the third
      record forms a batch of its own, so the gap in front of it is lost and
      only two records are counted. */
  lemma {:induction false} TrailingSingletonExample()
    ensures var input := [Record(0, 1), Record(1, 1), Record(50, 1)];
      && EngineGaps(input, 10.0, 2, FirstPktNum, MinScanLength) == []
      && LastKeptCount(Partition(input, 2), MinScanLength) == 2
      && ScanGaps(input, 10.0, FirstPktNum) == [GapOf(Record(1, 1), Record(50, 1), 1)]
  {
    var r0, r1, r2, r3 := Record(0, 1), Record(1, 1), Record(50, 1), Record(51, 1);
    var input := [r0, r1, r2];
    SingleScanOfExample(r0, r1, r2, r3);
    PartitionOneBatch([r0, r1], 2);
    assert input[..2] == [r0, r1];
    var ys := Partition(input, 2);
    assert ys == [([r0, r1], 2), ([r2], 3)];
    var noYields: seq<Yield> := [];
    assert ys[..1] == [([r0, r1], 2)] && ys[..1][..0] == noYields;
    assert Kept(ys[..1], 2) == [[r0, r1]];
    assert Kept(ys, 2) == Kept(ys[..1], 2) + [];
    assert LastKeptCount(ys, 2) == 2;
    WorkerResultsOne([r0, r1], 10.0, 0);
    OneResultCollected([Worker([r0, r1], 10.0, 0)]);
  }

  // ---------------------------------------------------------------------
  // Sequence helpers
  // ---------------------------------------------------------------------

  lemma {:induction false} ShiftedAppend(a: seq<Gap>, b: seq<Gap>, delta: int)
    ensures Shifted(a + b, delta) == Shifted(a, delta) + Shifted(b, delta)
    decreases |b|
  {
    if b == [] {
      assert a + b == a;
    } else {
      assert (a + b)[..|a + b| - 1] == a + b[..|b| - 1];
      ShiftedAppend(a, b[..|b| - 1], delta);
    }
  }

  lemma {:induction false} TriplesAppend(a: seq<Gap>, b: seq<Gap>)
    ensures Triples(a + b) == Triples(a) + Triples(b)
    decreases |b|
  {
    if b == [] {
      assert a + b == a;
    } else {
      assert (a + b)[..|a + b| - 1] == a + b[..|b| - 1];
      TriplesAppend(a, b[..|b| - 1]);
    }
  }

  lemma {:induction false} TriplesShifted(gs: seq<Gap>, delta: int)
    ensures Triples(Shifted(gs, delta)) == Triples(gs)
    decreases |gs|
  {
    if gs != [] {
      var s := Shifted(gs, delta);
      TriplesShifted(gs[..|gs| - 1], delta);
      assert s[..|s| - 1] == Shifted(gs[..|gs| - 1], delta);
    }
  }

  /** Rearranging gaps rearranges what they say apart from their numbers. */
  lemma {:induction false} TriplesPermutation(a: seq<Gap>, b: seq<Gap>)
    requires multiset(a) == multiset(b)
    ensures multiset(Triples(a)) == multiset(Triples(b))
    decreases |a|
  {
    if a == [] {
      assert |b| == |multiset(b)|;
    } else {
      var x := a[|a| - 1];
      var a' := a[..|a| - 1];
      assert a == a' + [x];
      assert x in multiset(b);
      var j :| 0 <= j < |b| && b[j] == x;
      var b' := b[..j] + b[j + 1..];
      MultisetRemove(b, j);
      assert multiset(a') == multiset(a) - multiset{x};
      TriplesPermutation(a', b');
      TriplesRemove(b, j);
      TriplesAppend(a', [x]);
      assert Triples([x]) == [(x.start, x.end, x.gap)] by {
        assert [x][..0] == [];
      }
    }
  }

  lemma {:induction false} MultisetRemove(b: seq<Gap>, j: nat)
    requires j < |b|
    ensures multiset(b[..j] + b[j + 1..]) == multiset(b) - multiset{b[j]}
  {
    assert b == b[..j] + [b[j]] + b[j + 1..];
  }

  lemma {:induction false} TriplesRemove(b: seq<Gap>, j: nat)
    requires j < |b|
    ensures multiset(Triples(b)) == multiset(Triples(b[..j] + b[j + 1..])) + multiset{(b[j].start, b[j].end, b[j].gap)}
  {
    var x := b[j];
    assert b == b[..j] + [x] + b[j + 1..];
    TriplesAppend(b[..j], [x]);
    TriplesAppend(b[..j] + [x], b[j + 1..]);
    TriplesAppend(b[..j], b[j + 1..]);
    assert Triples([x]) == [(x.start, x.end, x.gap)] by {
      assert [x][..0] == [];
    }
  }
}
