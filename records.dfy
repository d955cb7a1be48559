/** Packet records as the capture reader hands them to the gap detector,
    and the two integer helpers that work on raw timestamps. */
module PcapRecords {

  /** Ticks per second of a record's timestamp; a capture never reports zero. */
  type Resolution = r: nat | r > 0 witness 1

  /** The metadata the detector keeps of one packet: its raw timestamp in
      ticks and the resolution those ticks are counted in. */
  datatype Record = Record(ts: nat, res: Resolution)

  /** The record's time in seconds, as an exact quotient. */
  function Seconds(r: Record): real
  {
    r.ts as real / r.res as real
  }

  /** Seconds elapsed from `prev` to `curr`; the comparison both the worker
      and the boundary check make against the threshold. */
  function Difference(prev: Record, curr: Record): real
  {
    Seconds(curr) - Seconds(prev)
  }

  /** 2 to the power `n`. */
  function Pow2(n: nat): (p: nat)
    ensures p >= 1
  {
    if n == 0 then 1 else 2 * Pow2(n - 1)
  }

  /** Bitwise or of two unbounded non-negative integers, bit by bit from the
      least significant end (the meaning of `|` on the source's integers). */
  function BitOr(a: nat, b: nat): nat
    decreases a
  {
    if a == 0 then b
    else if b == 0 then a
    else 2 * BitOr(a / 2, b / 2) + (if a % 2 == 1 || b % 2 == 1 then 1 else 0)
  }

  /** The timestamp built from the two halves of a capture record: the high
      word shifted up by 32 bits (a multiplication by 2^32 on the source's
      unbounded integers), or-ed with the low word. */
  function ComposeTimestamp(tshigh: nat, tslow: nat): nat
  {
    BitOr(tshigh * Pow2(32), tslow)
  }

  /** Or-ing a value below 2^k into a multiple of 2^k adds it. */
  lemma {:induction false} OrIntoShiftedIsSum(h: nat, l: nat, k: nat)
    requires l < Pow2(k)
    ensures BitOr(h * Pow2(k), l) == h * Pow2(k) + l
  {
    var a := h * Pow2(k);
    if k == 0 {
      assert l == 0;
    } else if a == 0 || l == 0 {
    } else {
      assert a == (h * Pow2(k - 1)) * 2;
      assert a / 2 == h * Pow2(k - 1) && a % 2 == 0;
      assert l / 2 < Pow2(k - 1);
      OrIntoShiftedIsSum(h, l / 2, k - 1);
      assert BitOr(a, l) == 2 * (h * Pow2(k - 1) + l / 2) + l % 2;
    }
  }

  /** With a low word below 2^32 the or is a sum: the halves do not overlap
      and each can be read back. */
  lemma ComposeTimestampIsSum(tshigh: nat, tslow: nat)
    requires tslow < 0x1_0000_0000
    ensures ComposeTimestamp(tshigh, tslow) == tshigh * 0x1_0000_0000 + tslow
    ensures ComposeTimestamp(tshigh, tslow) / 0x1_0000_0000 == tshigh
    ensures ComposeTimestamp(tshigh, tslow) % 0x1_0000_0000 == tslow
  {
    Pow2At32();
    OrIntoShiftedIsSum(tshigh, tslow, 32);
  }

  /** Shifting by a + b bits is shifting by a, then by b. */
  lemma {:induction false} Pow2Add(a: nat, b: nat)
    ensures Pow2(a + b) == Pow2(a) * Pow2(b)
  {
    if a > 0 {
      Pow2Add(a - 1, b);
      assert Pow2(a + b) == 2 * Pow2(a - 1 + b);
    }
  }

  lemma Pow2At32()
    ensures Pow2(32) == 0x1_0000_0000
  {
    assert Pow2(2) == 4;
    Pow2Add(2, 2);
    Pow2Add(4, 4);
    Pow2Add(8, 8);
    Pow2Add(16, 16);
  }

  /** The record the partitioner stores for one packet (source lines 97-99). */
  function RecordOf(tshigh: nat, tslow: nat, tsres: Resolution): (r: Record)
    requires tslow < 0x1_0000_0000
    ensures r.ts == tshigh * 0x1_0000_0000 + tslow
    ensures r.res == tsres
  {
    ComposeTimestampIsSum(tshigh, tslow);
    Record(ComposeTimestamp(tshigh, tslow), tsres)
  }

  /** The whole seconds and the sub-second ticks that a timestamp is printed
      as; the calendar formatting of the seconds is not modelled. */
  function PrintableTimestamp(ts: nat, resol: Resolution): (split: (nat, nat))
    ensures split.0 * resol + split.1 == ts
    ensures split.1 < resol
  {
    (ts / resol, ts % resol)
  }

  /** The split is the only one with these two properties. */
  lemma PrintableTimestampUnique(ts: nat, resol: Resolution, sec: nat, subsec: nat)
    requires sec * resol + subsec == ts && subsec < resol
    ensures PrintableTimestamp(ts, resol) == (sec, subsec)
  {
    DivModUnique(ts, resol, sec, subsec);
  }

  /** Quotient and remainder are determined by the division equation. */
  lemma DivModUnique(n: nat, d: nat, q: nat, r: nat)
    requires d > 0 && q * d + r == n && r < d
    ensures n / d == q && n % d == r
  {
    if q < n / d {
      MulMono(q + 1, n / d, d);
    } else if q > n / d {
      MulMono(n / d + 1, q, d);
    }
  }

  lemma MulMono(a: nat, b: nat, c: nat)
    requires a <= b
    ensures a * c <= b * c
  {
  }

  // ---------------------------------------------------------------------
  // Regrouping lemmas: each only restates a concatenation of record
  // sequences in another grouping, so that the partitioner's proofs can
  // cite it without unfolding the operands.
  // ---------------------------------------------------------------------

  lemma RecordsRegroup(a: seq<Record>, l: seq<Record>, x: Record, fp: seq<Record>, fq: seq<Record>)
    requires fp == a + l && fq == a + (l + [x])
    ensures fq == fp + [x]
  {
  }

  lemma DropLastRecord(s: seq<Record>, front: seq<Record>, last: seq<Record>)
    requires s == front + last && |last| == 1
    ensures |s| > 0 && front == s[..|s| - 1]
  {
  }
}
