# PCAP gap detector — a verified model of the detection engine

The gap detector reads every packet's timestamp from a capture. It is meant to report each pair of consecutive packets whose timestamps are more than a threshold number of seconds apart. To scale, it is meant to:

- cut the packet stream into fixed-size batches;
- scan each batch in a worker;
- check the pair that straddles each batch boundary;
- merge everything into a chronological list and a severity-ordered list;
- put each gap into one of four duration buckets.

The code falls short of this in two ways, proved under "## Findings". It skips batches of fewer than two records, so the pair in front of a trailing one-record batch is never checked, and with a batch size of 1 or less no pair is checked at all (`Engine.TinyBatchesScanNothing`). Its packet numbering differs between intra-batch and boundary gaps, so the "chronological" list can put a later gap before an earlier one (`Engine.TiedStartExample`).

This project models that engine in Dafny and proves both what it does and how it relates to a single sequential scan of the whole stream.

The modules follow the program's stages:

- `PcapRecords` (`records.dfy`) covers the packet record as the detector keeps it: a raw timestamp in ticks and a positive resolution in ticks per second. Time in seconds is an exact quotient. It also has the two integer helpers: composing the 64-bit timestamp from its high and low words, and splitting a timestamp into whole seconds and sub-second ticks.
- `GapScan` (`scan.dfy`) is the worker `process_batch`. It is an imperative loop, proved against the specification function `ScanGaps`.
- `Partitioner` (`partition.dfy`) is the batch generator `batch_generator`. It is an imperative loop over an already decoded record sequence, proved against the specification function `Partition`, with the lemmas about the batches' shape and running counts.
- `GapSort` (`sorting.dfy`) covers the two sorts. Python's `list.sort` and `sorted` are stable, so both are modelled by a stable insertion sort over a key. A descending sort by duration is an ascending sort on the negated duration.
- `Buckets` (`buckets.dfy`) covers the categorisation loop and the unit choice of `format_duration`.
- `Engine` (`engine.dfy`) is the driver `process_pcap_parallel`:
  - the submission loop, which skips short batches and threads the running packet number;
  - the collection of intra-batch gaps;
  - the boundary reconciliation with its running offset;
  - the two sorts and the buckets.

  It also holds the theorems relating the batched engine to a single scan, and the two findings below.

The driver is parametrised by two things:

- the number given to the first packet: 0 in the source, at line 133;
- the shortest batch that is scanned: 2 in the source, at line 139.

`ProcessPcap` is the driver as written, with the values 0 and 2. `ProcessPcapCorrected` uses 1 and 1. With those values, batching is exactly transparent.

Two consequences of the code's numbering are worth stating as intended behaviour:

- **Packet numbering.** A single sequential scan numbers packets from 1. The code numbers intra-batch gaps from 0 (lines 79 and 133) and boundary gaps from 1, through the running record count (lines 172 and 183).
- **Ties.** With the code's numbering, a boundary gap and the first gap of the next batch can share a start number. The stable sort then keeps the intra-batch gap first (`Engine.ChronologicalTiesKeepIntraFirst`), so the chronological list can put a later gap before an earlier one (`Engine.TiedStartExample`).

## Model

| member | source | states |
|---|---|---|
| PcapRecords.ComposeTimestampIsSum | pcap-gap-detector.py:98 | For a low word below 2^32, `(tshigh << 32) \| tslow` equals `tshigh * 2^32 + tslow`. Both halves can be read back by division and remainder. |
| PcapRecords.OrIntoShiftedIsSum | pcap-gap-detector.py:98 | Or-ing a value below 2^k into a multiple of 2^k adds it. This holds for any k, with `\|` taken bit by bit on unbounded integers. |
| PcapRecords.RecordOf | pcap-gap-detector.py:96-99 | The stored record's timestamp is the high word times 2^32 plus the low word. Its resolution is the packet's `tsresol`. |
| PcapRecords.PrintableTimestamp | pcap-gap-detector.py:46-48 | The whole seconds times the resolution, plus the sub-second ticks, is the timestamp. The sub-second part is below the resolution. |
| PcapRecords.PrintableTimestampUnique | pcap-gap-detector.py:47-48 | Those two properties determine the split uniquely. |
| GapScan.ProcessBatch | pcap-gap-detector.py:65-89 | The worker loop's gaps are exactly `ScanGaps` of the batch from the given start number. `first`, `last` and `count` are the batch's first record, last record and length, and every gap has `endPkt == startPkt + 1`. |
| GapScan.ScanGapsSound | pcap-gap-detector.py:68-82 | Every reported gap is the gap of one adjacent pair `b[i], b[i+1]` whose difference exceeds the threshold. Its start number is `s + i`, its end number is one more, its records are the pair, and its duration is the difference in seconds. |
| GapScan.ScanGapsComplete | pcap-gap-detector.py:71-81 | The gap of pair i is reported if and only if the pair's difference is strictly above the threshold. Equality is not a gap. |
| GapScan.ScanGapsBounds | pcap-gap-detector.py:71-81 | There are at most `\|b\| - 1` gaps. Start numbers lie in `[s, s + \|b\| - 1)`, strictly increase, and every end number is the start number plus one. |
| GapScan.ScanGapsAppend | pcap-gap-detector.py:71-82 | Scanning `x + y` equals scanning `x`, then checking the one pair that straddles the two, then scanning `y` numbered from `s + \|x\|`. |
| Partitioner.BatchGenerator | pcap-gap-detector.py:92-107 | The generator yields `Partition(records, batchSize)`. The batches concatenate back to the input, are well shaped, and each carries the running record count. The last count is the input length. |
| Partitioner.PartitionReassembles | pcap-gap-detector.py:92-107 | Concatenating the yielded batches gives back the input exactly. |
| Partitioner.PartitionShape | pcap-gap-detector.py:102-107 | No batch is empty. Every batch but the last holds exactly `batchSize` records, or one when `batchSize < 1`. The last holds between one and that many. |
| Partitioner.PartitionCounts | pcap-gap-detector.py:100-107 | Each yielded count is the number of records in that batch and all earlier ones. The total is the input length. |
| GapSort.SortBySorted | pcap-gap-detector.py:188 | The sorted list is in non-decreasing key order: start number ascending for line 188. For the severity sort at line 219 (`reverse=True` by duration), that is non-increasing duration. |
| GapSort.SortByPermutation | pcap-gap-detector.py:188 | Sorting only rearranges: the multiset of gaps is unchanged. The same holds for the severity sort at line 219. |
| GapSort.SortByStable | pcap-gap-detector.py:188 | For every key value, the gaps with that key keep their original relative order. The same holds for the severity sort at line 219. |
| GapSort.InsertStable | pcap-gap-detector.py:188 | Inserting into a sorted list puts the new element after all earlier elements with an equal key. |
| GapSort.SortedPermutationUnique | pcap-gap-detector.py:188 | A sorted rearrangement of a list with strictly increasing keys is that list. |
| GapSort.SortByPermutationsAgree | pcap-gap-detector.py:188 | Sorting any rearrangement of a strictly ordered list gives back the strictly ordered list. |
| Buckets.CategoryOf | pcap-gap-detector.py:233-241 | Each duration is in exactly one bucket: below 60 s, [60 s, 3600 s), [3600 s, 86400 s), or 86400 s and above. A duration of exactly one day goes in the "> 1 day" bucket. |
| Buckets.FormatDuration | pcap-gap-detector.py:53-62 | The amount times the unit length is the duration. The unit is the bucket's unit, so the thresholds agree with the buckets. Minutes are below 60, hours below 24, and every unit but seconds has an amount of at least 1. |
| Buckets.Categorize | pcap-gap-detector.py:231-241 | Each bucket list is exactly the gaps of that bucket, in input order. The four sizes sum to the number of gaps. |
| Buckets.SelectMembership | pcap-gap-detector.py:232-241 | A gap is in bucket c's list if and only if it is one of the gaps and its duration falls in c. |
| Buckets.SelectSizes | pcap-gap-detector.py:231-241 | The bucket sizes sum to the number of gaps. |
| Buckets.SelectKeepsOrder | pcap-gap-detector.py:219-241 | A bucket list taken from the severity-sorted list is itself in descending-duration order. |
| Engine.Kept | pcap-gap-detector.py:138-140 | Every batch handed to a worker holds at least the minimum scanned length of records. |
| Engine.SubmitBatches | pcap-gap-detector.py:130-158 | The results, in submission order, are the workers' results over the kept batches. Each batch is numbered from the first number plus the records of the batches kept before it. The total is the last kept running count, and the batch count is the number of kept batches. |
| Engine.KeptTaken | pcap-gap-detector.py:138-145 | A batch at least as long as the minimum is appended to the kept batches and sets the stored total to its running count. |
| Engine.KeptSkipped | pcap-gap-detector.py:138-145 | A batch shorter than the minimum changes neither the kept batches, so neither the offsets nor the batch count, nor the stored total. |
| Engine.WorkerResultsAt | pcap-gap-detector.py:142-143 | The k-th worker is numbered from the first number plus the total length of the batches before it. It reports that batch's ends and length. |
| Engine.CumCountOfWorkerResults | pcap-gap-detector.py:170-172 | The counts of the results add up to the number of records in the scanned batches. |
| Engine.CollectGaps | pcap-gap-detector.py:161-185 | The collected list is all intra-batch gaps in result order, followed by `BoundaryGaps(results, d, 0)`: one check per adjacent pair of results, numbered by the running offset. |
| Engine.BoundaryGapsBounds | pcap-gap-detector.py:170-185 | With one result or none, there is no boundary gap. Otherwise there is at most one per boundary. Their start numbers strictly increase, lie above the base and below the base plus the record count, and each end number is its start number plus one. |
| Engine.BoundaryGapsComplete | pcap-gap-detector.py:171-185 | The boundary before result i gives a gap if and only if the first record after it is more than the threshold later than the last record before it. That gap is numbered by the records before the boundary. |
| Engine.BoundaryGapsShift | pcap-gap-detector.py:172-183 | Changing the offset's starting value moves every boundary gap's numbers by the same amount. |
| Engine.CollectedPermutesStitched | pcap-gap-detector.py:166-185 | The collected list is a rearrangement of intra and boundary gaps interleaved in stream order. |
| Engine.StitchedIsSingleScan | pcap-gap-detector.py:166-185 | That interleaving, with boundary gaps numbered by their earlier record, is exactly one scan of the concatenated batches. |
| Engine.BatchedMatchesSingleScan | pcap-gap-detector.py:166-185 | With the offset starting one below the first packet number, the collected gaps are, as a multiset, exactly the gaps of one scan of the concatenated batches. |
| Engine.BoundaryGapsMisnumbered | pcap-gap-detector.py:170-183 | The collected list is the intra gaps followed by the correctly numbered boundary gaps shifted by `1 - first`. With the source's first number 0, every boundary gap is one too high. |
| Engine.CollectedTriplesMatchSingleScan | pcap-gap-detector.py:166-185 | Whatever the numbering, the (start record, end record, duration) triples of the collected gaps are, as a multiset, those of one scan of the concatenated batches. |
| Engine.ChronologicalTiesKeepIntraFirst | pcap-gap-detector.py:166-188 | Among gaps with equal start numbers, the chronological list keeps intra-batch gaps before boundary gaps. |
| Engine.Analyze | pcap-gap-detector.py:130-241 | The driver's report is `Expected`. The chronological list is the stable sort of the collected gaps and the severity list is the stable sort of that. The buckets come from the severity list. The total and batch count are those of the submission loop. |
| Engine.ProcessPcap | pcap-gap-detector.py:110-241 | As written, the chronological list is sorted and is a rearrangement of the collected gaps. Its triples are those of one scan of the scanned batches. The severity list is its sorted rearrangement, and the bucket sizes sum to its length. |
| Engine.KeptAllLong | pcap-gap-detector.py:138-145 | When no batch is short, every batch is scanned in order and the total is the last running count. |
| Engine.KeptNoneShort | pcap-gap-detector.py:138-145 | When every batch is short, nothing is scanned and the total stays 0. |
| Engine.TinyBatchesScanNothing | pcap-gap-detector.py:102-145 | With a batch size of 1 or less, every batch holds one record. The driver as written then scans nothing, reports no gap and counts 0 records. |
| Partitioner.TotalWellShaped | pcap-gap-detector.py:100-107 | The records number (batches − 1) × batch size plus the last batch's length. |
| Partitioner.TrailingSingleton | pcap-gap-detector.py:102-107 | For a batch size of at least 2, the last batch is a lone record exactly when the record count leaves remainder 1 modulo the batch size. |
| Engine.AsWrittenScanned | pcap-gap-detector.py:138-140 | For a batch size of at least 2, the scanned records are a prefix of the stream missing at most the last record. |
| Engine.AsWrittenScansAllButTrailingSingleton | pcap-gap-detector.py:138-145 | For a batch size of at least 2, the driver as written scans the whole stream except a final record when the count leaves remainder 1. The stored total counts only the scanned records. |
| Engine.AsWrittenReportsScannedGaps | pcap-gap-detector.py:138-188 | As written, the triples of the chronological list are those of one scan of the scanned records. |
| Engine.ScanOfAsWrittenScanned | pcap-gap-detector.py:138-140 | One scan of the whole stream finds the gaps of the scanned records, plus the gap, if any, between the last two records when the last one is left alone. |
| Engine.EngineTriples | pcap-gap-detector.py:138-188 | For any numbering and threshold, the chronological list's triples are those of one scan of the scanned batches. |
| Engine.CorrectedMatchesSingleScan | pcap-gap-detector.py:130-188 | Numbered from 1 with every batch scanned, the chronological list equals one scan of the whole stream numbered from 1, for every batch size. Every batch is scanned and every record is counted. |
| Engine.SortedCollectedIsScan | pcap-gap-detector.py:166-188 | Numbered from 1, sorting the collected gaps by start number gives exactly one scan of the concatenated batches. |
| Engine.ProcessPcapCorrected | pcap-gap-detector.py:130-219 | The corrected driver's chronological list is exactly one scan of the stream from packet 1. Its total is the stream length, its batch count is the number of yielded batches, and its severity list is a sorted rearrangement. |
| Partitioner.PartitionOneBatch | pcap-gap-detector.py:102-107 | A stream no longer than the batch size is yielded as one batch with its length. |
| Engine.IndexMismatchExample | pcap-gap-detector.py:172-183 | On records at 0, 1, 50 and 51 s with threshold 10 s, the same gap is numbered 1 with one batch of four and 2 with two batches of two. One scan numbers it 1. |
| Engine.TiedStartExample | pcap-gap-detector.py:172-188 | On records at 0, 1, 50 and 100 s with threshold 10 s and batch size 2, the boundary gap 1→50 and the intra-batch gap 50→100 are both numbered 2→3, and the chronological list holds 50→100 before 1→50. One scan numbers them 1 and 2, in time order. |
| Engine.TrailingSingletonExample | pcap-gap-detector.py:139-144 | On records at 0, 1 and 50 s with threshold 10 s and batch size 2, no gap is reported and 2 records are counted. One scan finds the 49-second gap. |

## Findings

| source | as written | input that shows it | evidently intended | confidence | as-written member | corrected member |
|---|---|---|---|---|---|---|
| pcap-gap-detector.py:172-183 | Intra-batch gaps number the earlier packet from 0 (lines 79 and 133). Boundary gaps number it by the running record count, which counts from 1. A boundary gap can then share its start number with the next batch's first gap, and the chronological list puts the later gap first (on 0, 1, 50 and 100 s with batch size 2, gap 50→100 precedes gap 1→50, both numbered 2→3: `Engine.TiedStartExample`). | Timestamps 0, 1, 50, 51 (resolution 1), threshold 10: the gap between the 2nd and 3rd packets is numbered 1 with batch size 4 and 2 with batch size 2. | Numbers independent of the batch size, as one sequential scan assigns them. Starting the packet numbering at 1 achieves this. | not executed; proved | Engine.IndexMismatchExample | Engine.CorrectedMatchesSingleScan |
| pcap-gap-detector.py:139-144 | A trailing batch of a single record is skipped. The gap into the last packet is lost, and that packet is left out of `total_records`. | Timestamps 0, 1, 50 (resolution 1), threshold 10, batch size 2: no gap is reported and 2 packets are counted. | Every adjacent pair is checked and every packet is counted. The boundary check covers a one-record batch. | not executed; proved | Engine.TrailingSingletonExample | Engine.CorrectedMatchesSingleScan |

`Engine.BoundaryGapsMisnumbered` states the first finding for every input. `Engine.AsWrittenScansAllButTrailingSingleton` and `Engine.ScanOfAsWrittenScanned` state the second for every input. `Engine.ProcessPcapCorrected` is the driver with both corrections applied.

## Left out

- Capture decoding (`RawPcapReader`, lines 96-97) is a foreign library and file I/O. The model takes the decoded records as an input sequence, with the timestamp composed as in `PcapRecords.RecordOf`. File size and existence checks are out for the same reason.
- The worker pool (`Pool`, `apply_async`, `close`, `join`; lines 129-158) is concurrency. It is modelled as an in-order map over the kept batches, which is what reading `job.get()` in submission order observes. The worker count has no effect on the result and is not modelled.
- Printing, colours, the progress indicator and the detailed listing are output only and are not modelled.
- CSV export (lines 190-216) is file I/O and formatting. Its failure path only prints.
- Floating point: timestamps divided by resolutions are exact reals, so rounding in `timestamp / tsres` is not modelled, nor is the `.1f`/`.6f` formatting.
- `FormatDuration`: models the unit choice and the exact amount, not the rounding to one decimal or the string.
- `PrintableTimestamp`: models the integer split only. The calendar conversion through `time.gmtime` and `strftime` is a foreign call.
- Wall-clock time, elapsed time and processing rate use the clock and are not modelled.
- Argument parsing, interruption handling and exit codes are command-line plumbing and are not modelled.
- The in-place sort at line 188 is modelled as reassigning the list variable with the stable sort of its old value. Aliasing of the list is not observable in the source and is not modelled.
- The `if all_gaps:` guard around the categorisation is not modelled separately: with no gaps, all four bucket lists are empty, which is what the `defaultdict` holds. An absent dictionary key is modelled as an empty list.
