/** The gap scan worker: one pass over the adjacent pairs of a batch. */
module GapScan {
  import opened PcapRecords

  /** One reported gap: the two records, their distance in seconds and the
      packet numbers of the earlier and the later record. */
  datatype Gap = Gap(start: Record, end: Record, gap: real, startPkt: int, endPkt: int)

  /** What a worker hands back for one batch. */
  datatype BatchResult = BatchResult(gaps: seq<Gap>, first: Record, last: Record, count: nat)

  /** The gap record for the pair (prev, curr), with `prev` numbered `startPkt`. */
  function GapOf(prev: Record, curr: Record, startPkt: int): Gap
  {
    Gap(prev, curr, Difference(prev, curr), startPkt, startPkt + 1)
  }

  /** The gaps the pair (prev, curr) contributes: one if its difference is
      strictly above the threshold, none otherwise. */
  function GapIfOver(prev: Record, curr: Record, diffsecs: real, startPkt: int): seq<Gap>
  {
    if Difference(prev, curr) > diffsecs then [GapOf(prev, curr, startPkt)] else []
  }

  /** The gap for the pair at positions i, i+1 of `b` when `b[0]` is packet `s`. */
  function PairGap(b: seq<Record>, s: int, i: nat): Gap
    requires i + 1 < |b|
  {
    GapOf(b[i], b[i + 1], s + i)
  }

  /** The gaps among the first `n` adjacent pairs of `b`, whose first record
      is packet `s`, in pair order. */
  function ScanPairs(b: seq<Record>, diffsecs: real, s: int, n: nat): seq<Gap>
    requires n < |b|
    decreases n
  {
    if n == 0 then []
    else ScanPairs(b, diffsecs, s, n - 1) + GapIfOver(b[n - 1], b[n], diffsecs, s + n - 1)
  }

  /** The gaps of a batch whose first record is packet `s`: every adjacent
      pair checked once, from the front of the batch. */
  function ScanGaps(b: seq<Record>, diffsecs: real, s: int): seq<Gap>
  {
    if b == [] then [] else ScanPairs(b, diffsecs, s, |b| - 1)
  }

  /** The worker's result for a non-empty batch. */
  function Worker(b: seq<Record>, diffsecs: real, s: int): BatchResult
    requires |b| > 0
  {
    BatchResult(ScanGaps(b, diffsecs, s), b[0], b[|b| - 1], |b|)
  }

  /** The worker (source lines 65-89): walks the batch once, numbering the
      packets from `startPktNum`, and reports every pair whose difference
      exceeds `diffsecs`, together with the batch's ends and length. */
  method ProcessBatch(batch: seq<Record>, diffsecs: real, startPktNum: int) returns (r: BatchResult)
    requires |batch| > 0
    ensures r.gaps == ScanGaps(batch, diffsecs, startPktNum)
    ensures r.first == batch[0] && r.last == batch[|batch| - 1] && r.count == |batch|
    ensures forall k :: 0 <= k < |r.gaps| ==> r.gaps[k].endPkt == r.gaps[k].startPkt + 1
  {
    var output: seq<Gap> := [];
    var prev := batch[0];
    var pktNum := startPktNum;
    var i := 1;
    while i < |batch|
      invariant 1 <= i <= |batch|
      invariant prev == batch[i - 1]
      invariant pktNum == startPktNum + i - 1
      invariant output == ScanPairs(batch, diffsecs, startPktNum, i - 1)
    {
      var curr := batch[i];
      pktNum := pktNum + 1;
      var difference := Seconds(curr) - Seconds(prev);
      if difference > diffsecs {
        output := output + [Gap(prev, curr, difference, pktNum - 1, pktNum)];
      }
      prev := curr;
      i := i + 1;
    }
    ScanGapsBounds(batch, diffsecs, startPktNum);
    r := BatchResult(output, batch[0], batch[|batch| - 1], |batch|);
  }

  /** `g` is the gap of the adjacent pair of `b` whose earlier record sits at
      position g.startPkt - s, and that pair's difference is above the threshold. */
  ghost predicate FromPair(b: seq<Record>, diffsecs: real, s: int, g: Gap)
  {
    var i := g.startPkt - s;
    0 <= i < |b| - 1 && g == PairGap(b, s, i) && Difference(b[i], b[i + 1]) > diffsecs
  }

  lemma {:induction false} ScanPairsSound(b: seq<Record>, diffsecs: real, s: int, n: nat)
    requires n < |b|
    ensures forall g :: g in ScanPairs(b, diffsecs, s, n) ==> FromPair(b, diffsecs, s, g)
    decreases n
  {
    if n > 0 {
      ScanPairsSound(b, diffsecs, s, n - 1);
      assert PairGap(b, s, n - 1) == GapOf(b[n - 1], b[n], s + n - 1);
    }
  }

  /** Every reported gap is the gap of one adjacent pair whose difference is
      strictly above the threshold, numbered by the earlier record's position. */
  lemma ScanGapsSound(b: seq<Record>, diffsecs: real, s: int)
    ensures forall g :: g in ScanGaps(b, diffsecs, s) ==> FromPair(b, diffsecs, s, g)
  {
    if b != [] {
      ScanPairsSound(b, diffsecs, s, |b| - 1);
    }
  }

  lemma {:induction false} ScanPairsComplete(b: seq<Record>, diffsecs: real, s: int, n: nat, i: nat)
    requires i < n < |b|
    ensures PairGap(b, s, i) in ScanPairs(b, diffsecs, s, n) <==> Difference(b[i], b[i + 1]) > diffsecs
    decreases n
  {
    var g := PairGap(b, s, i);
    var p := Difference(b[i], b[i + 1]) > diffsecs;
    var last := GapIfOver(b[n - 1], b[n], diffsecs, s + n - 1);
    if i < n - 1 {
      ScanPairsComplete(b, diffsecs, s, n - 1, i);
      NotNumbered(last, g);
    } else {
      ScanPairsBounds(b, diffsecs, s, n - 1);
      NotNumbered(ScanPairs(b, diffsecs, s, n - 1), g);
    }
    InEither(ScanPairs(b, diffsecs, s, n), ScanPairs(b, diffsecs, s, n - 1), last, g, p);
  }

  /** Every adjacent pair whose difference is strictly above the threshold is
      reported; at or below the threshold it is not. */
  lemma ScanGapsComplete(b: seq<Record>, diffsecs: real, s: int, i: nat)
    requires i + 1 < |b|
    ensures PairGap(b, s, i) in ScanGaps(b, diffsecs, s) <==> Difference(b[i], b[i + 1]) > diffsecs
  {
    ScanPairsComplete(b, diffsecs, s, |b| - 1, i);
  }

  lemma {:induction false} ScanPairsBounds(b: seq<Record>, diffsecs: real, s: int, n: nat)
    requires n < |b|
    ensures var r := ScanPairs(b, diffsecs, s, n);
      && |r| <= n
      && (forall k :: 0 <= k < |r| ==> s <= r[k].startPkt < s + n && r[k].endPkt == r[k].startPkt + 1)
      && (forall k, l :: 0 <= k < l < |r| ==> r[k].startPkt < r[l].startPkt)
    decreases n
  {
    if n > 0 {
      ScanPairsBounds(b, diffsecs, s, n - 1);
    }
  }

  /** Reported gaps are numbered strictly increasingly, within the batch's
      range, one packet apart each; at most one per adjacent pair. */
  lemma ScanGapsBounds(b: seq<Record>, diffsecs: real, s: int)
    ensures var r := ScanGaps(b, diffsecs, s);
      && (|b| > 0 ==> |r| <= |b| - 1)
      && (forall k :: 0 <= k < |r| ==> s <= r[k].startPkt < s + |b| - 1 && r[k].endPkt == r[k].startPkt + 1)
      && (forall k, l :: 0 <= k < l < |r| ==> r[k].startPkt < r[l].startPkt)
  {
    if b != [] {
      ScanPairsBounds(b, diffsecs, s, |b| - 1);
    }
  }

  /** The first n pairs are scanned alike in two sequences that agree on
      their first n + 1 records. */
  lemma {:induction false} ScanPairsPrefix(b: seq<Record>, c: seq<Record>, diffsecs: real, s: int, n: nat)
    requires n < |b| && n < |c| && b[..n + 1] == c[..n + 1]
    ensures ScanPairs(b, diffsecs, s, n) == ScanPairs(c, diffsecs, s, n)
    decreases n
  {
    if n > 0 {
      assert b[..n] == b[..n + 1][..n];
      assert c[..n] == c[..n + 1][..n];
      assert b[n - 1] == b[..n + 1][n - 1] && b[n] == b[..n + 1][n];
      assert c[n - 1] == c[..n + 1][n - 1] && c[n] == c[..n + 1][n];
      ScanPairsPrefix(b, c, diffsecs, s, n - 1);
    }
  }

  /** The pairs of x + y up to the m-th pair of y: those of x, the pair
      across the join, and the first m pairs of y numbered from s + |x|. */
  lemma {:induction false} ScanPairsAcross(x: seq<Record>, y: seq<Record>, diffsecs: real, s: int, m: nat)
    requires |x| > 0 && m < |y|
    ensures ScanPairs(x + y, diffsecs, s, |x| + m)
         == ScanPairs(x, diffsecs, s, |x| - 1) + GapIfOver(x[|x| - 1], y[0], diffsecs, s + |x| - 1) + ScanPairs(y, diffsecs, s + |x|, m)
    decreases m
  {
    var b := x + y;
    if m == 0 {
      assert b[..|x|] == x[..|x|];
      ScanPairsPrefix(b, x, diffsecs, s, |x| - 1);
    } else {
      ScanPairsAcross(x, y, diffsecs, s, m - 1);
      assert b[|x| + m - 1] == y[m - 1] && b[|x| + m] == y[m];
      GapsRegroup(ScanPairs(x, diffsecs, s, |x| - 1), GapIfOver(x[|x| - 1], y[0], diffsecs, s + |x| - 1),
        ScanPairs(y, diffsecs, s + |x|, m - 1), GapIfOver(y[m - 1], y[m], diffsecs, s + |x| + m - 1),
        ScanPairs(b, diffsecs, s, |x| + m - 1), ScanPairs(b, diffsecs, s, |x| + m), ScanPairs(y, diffsecs, s + |x|, m));
    }
  }

  /** Dropping the last record drops the check of the last pair. */
  lemma ScanGapsDropLast(b: seq<Record>, diffsecs: real, s: int)
    requires |b| >= 2
    ensures ScanGaps(b, diffsecs, s)
         == ScanGaps(b[..|b| - 1], diffsecs, s) + GapIfOver(b[|b| - 2], b[|b| - 1], diffsecs, s + |b| - 2)
  {
    var p := b[..|b| - 1];
    assert p[..|b| - 1] == b[..|b| - 1];
    ScanPairsPrefix(b, p, diffsecs, s, |b| - 2);
  }

  /** Scanning two adjacent non-empty stretches of the stream and checking
      the one pair that straddles them finds the gaps of scanning them
      together. */
  lemma ScanGapsAppend(x: seq<Record>, y: seq<Record>, diffsecs: real, s: int)
    requires |x| > 0 && |y| > 0
    ensures ScanGaps(x + y, diffsecs, s)
         == ScanGaps(x, diffsecs, s) + GapIfOver(x[|x| - 1], y[0], diffsecs, s + |x| - 1) + ScanGaps(y, diffsecs, s + |x|)
  {
    ScanPairsAcross(x, y, diffsecs, s, |y| - 1);
  }

  // ---------------------------------------------------------------------
  // Regrouping lemmas: each only restates a concatenation of gap
  // sequences (or membership in one) in another grouping, so that the
  // scan, sort and driver proofs can cite it without unfolding the operands.
  // ---------------------------------------------------------------------

  lemma GapsRegroup(a: seq<Gap>, b: seq<Gap>, c: seq<Gap>, d: seq<Gap>, l: seq<Gap>, r: seq<Gap>, cd: seq<Gap>)
    requires l == a + b + c && r == l + d && cd == c + d
    ensures r == a + b + cd
  {
  }

  lemma GapsRegroup3(a: seq<Gap>, b: seq<Gap>, c: seq<Gap>, l: seq<Gap>, m: seq<Gap>, q: seq<Gap>)
    requires l == a + m && m == b + c && q == a + b
    ensures l == q + c
  {
  }

  lemma GapsAppend(a: seq<Gap>, b: seq<Gap>, c: seq<Gap>, l: seq<Gap>)
    requires l == a + b + c
    ensures l == a + (b + c)
  {
  }

  lemma GapsChain(l: seq<Gap>, a: seq<Gap>, b: seq<Gap>, c: seq<Gap>, a': seq<Gap>, b': seq<Gap>, c': seq<Gap>, r: seq<Gap>)
    requires l == a + b + c && a == a' && b == b' && c == c' && r == a' + b' + c'
    ensures l == r
  {
  }

  lemma InEither(l: seq<Gap>, a: seq<Gap>, b: seq<Gap>, g: Gap, p: bool)
    requires l == a + b
    requires ((g in a <==> p) && g !in b) || ((g in b <==> p) && g !in a)
    ensures g in l <==> p
  {
  }

  /** A gap numbered differently from every gap of a sequence is not in it. */
  lemma NotNumbered(a: seq<Gap>, g: Gap)
    requires forall k :: 0 <= k < |a| ==> a[k].startPkt != g.startPkt
    ensures g !in a
  {
  }
}
