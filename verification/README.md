# Trading latency benchmark: verified model

A Dafny 4.11 model of the parts of the AWS trading latency benchmark that hold
state, loops and arithmetic whose correctness spans several functions, with
proofs of what they keep over whole runs. `dafny verify dfyconfig.toml` checks
everything.

- **Lock-free pipeline** (`SpscQueue`, `CsvWriter`, `CsvWriterRuns`, `TxReplies`,
  `ServerRows`, `ServerRowsRuns`): the two single-producer/single-consumer queues
  as one state machine over atomic micro-steps (load own index, load peer index,
  copy one word, publish), in any interleaving, with uint32 indices and masks. The
  CSV writer thread and the server's receiving and TX threads run on top of those
  micro-steps.
- **Statistics** (`StatsRing`, `StatsAnalysis`): the overwriting ring as a class
  that simulates an unbounded log, the histogram of one delta with its outlier
  counter, and the interpolated percentiles.
- **Correlation arrays** (`Correlation`): the modulo-50000 arrays against an
  unbounded map, including the uint32 wrap.
- **CSV** (`CsvText`, `CsvLog`, `CsvParse`, `CsvQuotes`, `CsvRoundTrip`,
  `CsvJoin`, `JoinTable`, `JoinOutput`, `EndToEnd`, `Headings`, `WrittenLogs`):
  printer, in-place splitter, relational join and fixed-point deltas, then all of
  them composed, down to the file a running logger leaves and the names every
  value of the joined file stands under.
- **Packet replicator** (`Checksum`, `Parsers`, `Frames`, `Replicator`,
  `UmemPool`): the Internet checksum, three UDP header parsers, the frame
  builder inside the shared UMEM, and the ownership of UMEM frames. The checksum
  follows RFC 791 section 3.1 and RFC 1071 sections 1 and 2.
- **Order/cancel ping-pong** (`PingPong`): Rust client, latency tracker and mock
  server over FIFO channels, with an invariant over all runs and an exact
  termination measure.

`Bits` holds wrap-around and masking, `Sorting` what qsort leaves behind,
`Sequences` facts about slices, `TimestampNames` the names of the twelve
timestamps, `Runs` how runs are extended, `Wrappers` the option type.

Conventions: timestamps and deltas are integers in nanoseconds; percentile
interpolation is over reals. Bytes are naturals below 256. Code that changes
state step by step is a method proved against a pure function of the old state;
whole-run theorems are about sequences of states linked by that function.
Environment choices (what the kernel delivers, how much a send accepts, which
ids and times come up) are parameters of the steps. The host is little-endian.

Results where a natural claim fails are stated with their exact condition, and
with a run or an input on which it does: a batch size of one writes no log line
at all (`CsvWriter.BatchOfOneWritesNothing`) and entries beyond one batch are
lost at shutdown (`CsvWriter.ShutdownLosesBacklogBeyondOneBatch`), both reached
by the runs of `CsvWriterRuns.BacklogIsLost`; a quote right after a separating
comma is not seen, because the comma in the buffer is a NUL by then
(`CsvQuotes.QuotedFieldsIff`, `CsvQuotes.LostQuoteExample`); a delta of 2^32
microseconds or more wraps (`JoinOutput.DeltaExact`); correlation entries near
the uint32 wrap live for 17296 or 67296 sends instead of 50000
(`Correlation.OwnEntryIff`, `Correlation.BoundIsTight`); an odd test size of 3
or more prints no statistics (`PingPong.StatisticsAtClose`,
`PingPong.OddTestPrintsNothing`); a server row read before its packet is
stored holds another packet's values or zeros (`ServerRows.RowHoldsOwnIff`,
`ServerRowsRuns.RowLoggedTooEarly`); receiving over a non-empty pending list loses
frames (`UmemPool.ReceiveConserves`), which no run of the loop does
(`UmemPool.ReceivingLosesNothing`).

## Model

| member | source | states |
|---|---|---|
| `Bits.NextPowerOf2` | ec2_timestamping_programs/include/timestamp_common.h:340-350 | the result is the least power of two not below n, for every n up to 2^31; 1 for 0; 0 exactly when the doubling overflows uint32 |
| `Bits.ShiftLeft` | ec2_timestamping_programs/include/timestamp_common.h:346-347 | `power <<= 1` doubles every uint32 power of two except 2^31, which becomes the zero the loop tests for |
| `Bits.PowerOfTwoTest` | ec2_timestamping_programs/include/timestamp_common.h:342 | `n & (n - 1)` is zero exactly for powers of two |
| `Bits.MaskIsRemainder` | ec2_timestamping_programs/include/timestamp_common.h:634 | masking with a power of two minus one is the remainder, for every operand |
| `Bits.MaskedDistance` | ec2_timestamping_programs/src/timestamp_server.c:653 | the masked wrapping difference of two ring indices is their distance going round the ring |
| `SpscQueue.StepKeepsInv` | ec2_timestamping_programs/include/timestamp_common.h:632-647 | every micro-step of either thread keeps the queue invariant: indices are history lengths modulo the size, live slots hold their entries whole, stale locals only under-report |
| `SpscQueue.NothingLostOrReordered` | ec2_timestamping_programs/include/timestamp_common.h:632-647 | in every state of every interleaving, consumed entries followed by the live slots are exactly the accepted entries, and the masked index difference is the backlog; for both index roles |
| `SpscQueue.AccessesNeverCollide` | ec2_timestamping_programs/src/timestamp_common.c:728-749 | while the producer copies in, its slot is not live; while the consumer copies out, its slot is published and complete; the two slots differ |
| `SpscQueue.StepRefinesBoundedFifo` | ec2_timestamping_programs/src/timestamp_server.c:596-624 | the queue is a FIFO of size - 1 entries: publish appends, release takes the oldest, enqueue fails exactly when full, dequeue exactly when empty at the time of the check |
| `SpscQueue.StepFrame` | ec2_timestamping_programs/src/timestamp_server.c:596-624 | a producer step leaves the consumer's locals alone and a consumer step the producer's, and the entry being enqueued never changes under way |
| `CsvText.ParseTimestampNs` | ec2_timestamping_programs/src/timestamp_csvjoin.c:212-239 | the parser with its 16-byte fraction buffer computes the pure reading of the text, wrap-around included |
| `CsvText.FillFraction` | ec2_timestamping_programs/src/timestamp_csvjoin.c:223-236 | the fraction buffer ends up with the first nine digits, zero-filled on the right |
| `CsvText.DecimalParsesToFloor` | ec2_timestamping_programs/src/timestamp_csvjoin.c:212-239 | sec.frac parses to floor(value * 10^9) on uint64, however many fraction digits there are |
| `CsvText.PrintedTimestampParsesBack` | ec2_timestamping_programs/src/timestamp_common.c:762-811 | the logger's `%llu.%09llu` form of any 64-bit nanosecond count parses back to it |
| `CsvText.StrtolOfPrinted` | ec2_timestamping_programs/src/timestamp_csvjoin.c:381-393 | strtol reads a printed number back and stops at its end |
| `CsvText.StrtolReadsSigned` | ec2_timestamping_programs/src/timestamp_csvjoin.c:381-393 | strtol skips spaces, takes one sign, and reads the digits that follow as a number saturated to a long, stopping right after them |
| `CsvText.StrtolWithoutDigits` | ec2_timestamping_programs/src/timestamp_csvjoin.c:381-393 | without a digit after the spaces and the sign it reads zero and stops where it began |
| `CsvText.WholeSecondsParse` | ec2_timestamping_programs/src/timestamp_csvjoin.c:212-219 | a timestamp without a point is that many whole seconds, on uint64 |
| `CsvLog.Snprintf` | ec2_timestamping_programs/src/timestamp_common.c:762-770 | the model of snprintf: when the text fits, it lands whole after what is already in the buffer |
| `CsvLog.LineBound` | ec2_timestamping_programs/src/timestamp_common.c:752-830 | no log line is longer than 165 characters or holds a NUL, against 256 bytes per entry |
| `CsvLog.FormatBatch` | ec2_timestamping_programs/src/timestamp_common.c:752-830 | the write buffer ends up holding every line of the batch whole and in order, at most 165 characters each, except that a 256-byte buffer (one entry) formats nothing |
| `CsvWriter.DecodeEncode` | ec2_timestamping_programs/include/timestamp_common.h:632-647 | an entry survives being copied word by word through the ring |
| `CsvWriter.StepKeepsWriterInv` | ec2_timestamping_programs/src/timestamp_common.c:861-889 | every event of producer, writer or shutdown keeps: batch in hand = last consumed entries, file = header + lines of the rest |
| `CsvWriter.FileIsWholePrefix` | ec2_timestamping_programs/src/timestamp_common.c:861-889 | at every moment of every run the file is the header and the complete lines, in order, of a prefix of the accepted entries: all consumed but the batch in hand |
| `CsvWriter.BatchOfOneWritesNothing` | ec2_timestamping_programs/src/timestamp_common.c:758 | with a batch size of one the formatter's guard never admits a line, so the file stays the bare header for ever |
| `CsvWriter.ShutdownLosesBacklogBeyondOneBatch` | ec2_timestamping_programs/src/timestamp_common.c:883-889 | after shutdown exactly max(0, backlog - batch_size) of the newest accepted entries are missing from the file |
| `CsvWriterRuns.BacklogIsLost` | ec2_timestamping_programs/src/timestamp_common.c:861-889 | the losses happen: whatever more than one batch of entries is logged, up to the ring's room, some run accepts them all, shuts down, and leaves exactly the first batch in the file (no line at all for batches of one) |
| `WrittenLogs.WrittenFileIsLog` | ec2_timestamping_programs/src/timestamp_common.c:861-889 | at every moment of every run the file is a log for the join theorems: its type is recognised and the join reads from it exactly the rows of the entries written so far |
| `CsvParse.TrimWhitespace` | ec2_timestamping_programs/src/timestamp_csvjoin.c:132-144 | the returned pointer leads to the trimmed text and nothing outside the field is touched |
| `CsvParse.CutTrailing` | ec2_timestamping_programs/src/timestamp_csvjoin.c:137-143 | the trailing spaces are cut by one NUL inside the field |
| `CsvParse.TrimIs` | ec2_timestamping_programs/src/timestamp_csvjoin.c:132-144 | trimming takes off exactly the spaces at both ends, for every text and any spaces around it |
| `CsvParse.CloseField` | ec2_timestamping_programs/src/timestamp_csvjoin.c:317-321 | ending and trimming one field leaves the fields already cut as they were |
| `CsvParse.LinesAreTheText` | ec2_timestamping_programs/src/timestamp_csvjoin.c:593-596 | the pieces fgets delivers put together are the text; each is a whole line or 2047 characters of one, except that the last may simply end |
| `CsvParse.EndingChomped` | ec2_timestamping_programs/src/timestamp_csvjoin.c:595 | cutting a line takes off its ending, LF or CR LF or none, and nothing else |
| `CsvParse.ParseCsvLine` | ec2_timestamping_programs/src/timestamp_csvjoin.c:307-331 | the in-place splitter returns pointers to exactly the fields of the pure splitter, quotes and the field limit included |
| `CsvQuotes.QuotesIgnoredIff` | ec2_timestamping_programs/src/timestamp_csvjoin.c:315-324 | a line splits as if quotes were ordinary characters exactly when it does not begin with a quote or holds no comma, for every line and field limit |
| `CsvQuotes.QuotedFieldsIff` | ec2_timestamping_programs/src/timestamp_csvjoin.c:315-324 | splitting in place gives the same fields as looking back at an untouched copy of the line exactly when, outside a leading quoted stretch and within the field limit, no separating comma has a quote right after it and a further comma later |
| `CsvQuotes.LostQuoteExample` | ec2_timestamping_programs/src/timestamp_csvjoin.c:315-324 | the line a,"b,c" splits into three fields, where the untouched copy would give two |
| `CsvRoundTrip.FieldsOfJoined` | ec2_timestamping_programs/src/timestamp_csvjoin.c:307-331 | splitting a line joined from plain fields gives the fields back, as many as the field limit admits |
| `CsvRoundTrip.LineParsesBack` | ec2_timestamping_programs/src/timestamp_common.c:752-830 | splitting a printed log line gives back its fields |
| `CsvRoundTrip.ReadLogText` | ec2_timestamping_programs/src/timestamp_csvjoin.c:431-440 | fgets delivers a log file as its header and one printed line per entry |
| `Sorting.Qsort` | ec2_timestamping_programs/src/timestamp_csvjoin.c:528 | the model of qsort: the first n elements become their ascending rearrangement, the rest stay |
| `Sorting.SortSorts` | ec2_timestamping_programs/src/timestamp_csvjoin.c:154-161 | the rearrangement is ascending and keeps every element as often |
| `Sorting.AscendingUnique` | ec2_timestamping_programs/src/timestamp_csvjoin.c:528 | two ascending sequences with the same elements are equal, so it does not matter how qsort works |
| `CsvJoin.ParseRow` | ec2_timestamping_programs/src/timestamp_csvjoin.c:437-459 | buffering, cutting, splitting and testing one line yields exactly the row it denotes, or nothing |
| `CsvJoin.RowMatchesIff` | ec2_timestamping_programs/src/timestamp_csvjoin.c:368-393 | a line is a row of the target exactly when its address is the same text, its port the same number modulo 2^16, and its third field one whole number from 0 to 2^32 - 1 and nothing else; that number is the row's |
| `CsvJoin.SequenceSet.Add` | ec2_timestamping_programs/src/timestamp_csvjoin.c:399-419 | a number is appended unless present; the array stays free of duplicates |
| `CsvJoin.LoadSequences` | ec2_timestamping_programs/src/timestamp_csvjoin.c:421-469 | the set holds exactly the sequence numbers of the file's matching rows, each once |
| `CsvJoin.Intersect` | ec2_timestamping_programs/src/timestamp_csvjoin.c:493-526 | the result holds exactly the numbers found in every set, each once |
| `CsvJoin.FindCommonSequences` | ec2_timestamping_programs/src/timestamp_csvjoin.c:471-538 | strictly ascending, and exactly the numbers occurring in a matching row of every input file |
| `CsvJoin.SortDistinct` | ec2_timestamping_programs/src/timestamp_csvjoin.c:528 | sorting a duplicate-free array makes it strictly ascending with the same members |
| `JoinTable.FindRecordBySeq` | ec2_timestamping_programs/src/timestamp_csvjoin.c:557-574 | binary search on a strictly ascending table terminates and returns the record's index, or -1 exactly when there is none |
| `JoinTable.StoreColumns` | ec2_timestamping_programs/src/timestamp_csvjoin.c:620-690 | one row's columns are stored into its record and nowhere else |
| `JoinTable.PopulateRow` | ec2_timestamping_programs/src/timestamp_csvjoin.c:600-690 | one matching row updates the record of its number, and no other record |
| `JoinTable.PopulateFromFile` | ec2_timestamping_programs/src/timestamp_csvjoin.c:576-694 | after a file, every record has absorbed that file's matching rows in order |
| `JoinTable.ColumnHoldsLastSupply` | ec2_timestamping_programs/src/timestamp_csvjoin.c:576-694 | folding the rows leaves in every column the value of the last row that supplies it, or NULL |
| `JoinTable.ProcessJoin` | ec2_timestamping_programs/src/timestamp_csvjoin.c:857-903 | the record table is the relational join: one row per number present in every file, strictly ascending, each column from its last supplier |
| `JoinTable.JoinIsUnique` | ec2_timestamping_programs/src/timestamp_csvjoin.c:857-903 | no two different tables satisfy the join's definition, so it determines the output |
| `JoinOutput.DeltaExact` | ec2_timestamping_programs/src/timestamp_csvjoin.c:241-254 | a delta is valid exactly for 0 < a < b, is b - a modulo 2^32 microseconds, and equals b - a exactly when the difference is below that |
| `JoinOutput.DeltaTextExact` | ec2_timestamping_programs/src/timestamp_csvjoin.c:256-265 | the printed whole and three-digit parts read back as the difference to the nanosecond |
| `JoinOutput.DeltasTelescope` | ec2_timestamping_programs/src/timestamp_csvjoin.c:241-254 | along any increasing chain of timestamps the deltas of neighbours add up to the delta of the ends |
| `JoinOutput.ServerColumnsTelescope` | ec2_timestamping_programs/src/timestamp_csvjoin.c:179-194 | TT D1 = D2 + D3 |
| `JoinOutput.ClientColumnsTelescope` | ec2_timestamping_programs/src/timestamp_csvjoin.c:179-194 | RTT D2 = RTT D1 + D6 + D7 |
| `JoinOutput.RoundTripColumnsTelescope` | ec2_timestamping_programs/src/timestamp_csvjoin.c:179-194 | RTT D1 = D1 + network out + TT D2 + network back |
| `JoinOutput.OutputFieldsShort` | ec2_timestamping_programs/src/timestamp_csvjoin.c:744-828 | no output field exceeds 31 characters and there are at most 29, so no row comes near the 2048-byte buffer |
| `JoinOutput.FormatOutputRecord` | ec2_timestamping_programs/src/timestamp_csvjoin.c:744-828 | the line buffer holds exactly the row's fields joined by commas, with nothing truncated, in every mode and for every target; Headings says what each field is |
| `EndToEnd.HeaderDetected` | ec2_timestamping_programs/src/timestamp_csvjoin.c:333-366 | every header the logger writes is recognised as its own file type, although shorter headers are tested by substring |
| `EndToEnd.MatchingRowsOfLog` | ec2_timestamping_programs/src/timestamp_csvjoin.c:576-694 | the join reads from a log file exactly the rows of its entries for the target address, in order |
| `EndToEnd.JoinedKeysAreShared` | ec2_timestamping_programs/src/timestamp_csvjoin.c:471-538 | the joined rows are exactly the numbers every log holds for the target |
| `EndToEnd.TimestampJoined` | ec2_timestamping_programs/src/timestamp_csvjoin.c:576-694 | a column with one supplying log holds that log's timestamp text, and parses to the logged nanoseconds |
| `EndToEnd.OutputLineSplits` | ec2_timestamping_programs/src/timestamp_csvjoin.c:744-828 | splitting a printed output row gives back its fields, as many as the field limit admits (the tool's own limit is 20, a full row has 29) |
| `EndToEnd.LoggedNanosecondsSurvive` | ec2_timestamping_programs/src/timestamp_csvjoin.c:744-828 | log, split, join, print, split again: each timestamp column within the field limit reads back as the nanoseconds of the timestamp that column is for; all twelve are within the tool's 20 |
| `EndToEnd.DeltaColumnSurvives` | ec2_timestamping_programs/src/timestamp_csvjoin.c:280-301 | each printed delta column within the field limit is NULL exactly when its ends are not 0 < a < b, and otherwise reads back as b - a (below 2^32 microseconds) |
| `Headings.LogHeading` | ec2_timestamping_programs/src/timestamp_common.c:612-629 | every log heading is the three key names and the names of its timestamps joined by commas, and names each value after its place in the universal timestamp array |
| `Headings.OutputHeadingSplits` | ec2_timestamping_programs/src/timestamp_csvjoin.c:700-738 | splitting the joined file's heading gives its key, timestamp and delta names, in every mode and for every target |
| `Headings.ValueUnderItsName` | ec2_timestamping_programs/src/timestamp_csvjoin.c:744-828 | wherever the joined file's heading and a log's heading show the same timestamp name, the joined row has under it the very text the log line of the same key has, which parses to the nanoseconds of the timestamp so named; every mode, target and position |
| `Headings.NullUnderMissingName` | ec2_timestamping_programs/src/timestamp_csvjoin.c:744-828 | under a name that no log has, every joined row prints NULL |
| `Headings.DeltaUnderItsName` | ec2_timestamping_programs/src/timestamp_csvjoin.c:179-210 | every delta column's name is made of the names of two timestamps of its own row, and its value is NULL unless 0 < first < second, NULL when either is NULL, and otherwise their exact difference (below 2^32 microseconds) |
| `Headings.OutputReadsBack` | ec2_timestamping_programs/src/timestamp_csvjoin.c:830-855 | the joined file is read back as its heading followed by one line per record, in order |
| `StatsRing.StatsCollector.GetBufferCount` | ec2_timestamping_programs/include/timestamp_common.h:377-383 | the masked difference is the number of live entries, and equals total_entries - dropped_entries even after the counters wrap |
| `StatsRing.StatsCollector.Enqueue` | ec2_timestamping_programs/include/timestamp_common.h:353-375 | appends to the log the ring stands for; the live entries stay the last size - 1 of it, counters included |
| `StatsRing.StatsCollector.UpdateTimestamps` | ec2_timestamping_programs/src/timestamp_common.c:978-1097 | patches the newest log entry with the number, by the mode's rule; the ring still shows the log's tail and no counter moves |
| `StatsRing.LateUpdateByName` | ec2_timestamping_programs/src/timestamp_common.c:978-1097 | a late update stores each value it brings under its own name (client or server side by mode, none in a direction a one-way program does not see, cycle counts only for a round-trip client that has them) and changes nothing else in the entry |
| `StatsRing.PatchCommutesWithTail` | ec2_timestamping_programs/src/timestamp_common.c:978-1097 | patching what the ring shows is the tail of patching the whole log: the search in the ring finds the right entry, or rightly nothing |
| `StatsRing.WindowIsTailOfLog` | ec2_timestamping_programs/include/timestamp_common.h:353-375 | after any sequence of enqueues and updates a ring that only ever sees itself shows exactly the last min(total, capacity) entries of the unbounded log |
| `StatsRing.Replay` | ec2_timestamping_programs/include/timestamp_common.h:353-375 | the real collector, driven through any run, ends with the log, window and counters of that run |
| `StatsAnalysis.DeltaAnalysis.AddValue` | ec2_timestamping_programs/src/timestamp_common.c:1540-1550 | a value is appended while there is room and invalidates the cached percentiles; otherwise it counts as an outlier |
| `StatsAnalysis.DeltaAnalysis.CountInBin` | ec2_timestamping_programs/src/timestamp_common.c:1486-1504 | one bin goes up, or the outlier counter, and used_bins covers the bin |
| `StatsAnalysis.DeltaAnalysis.Accept` | ec2_timestamping_programs/src/timestamp_common.c:1489-1504 | an accepted delta keeps histogram, outlier counter, collected values and used_bins what the verdicts so far demand |
| `StatsAnalysis.DeltaAnalysis.ProcessEntry` | ec2_timestamping_programs/src/timestamp_common.c:1449-1505 | processing one entry adds its verdict and keeps histogram, outlier counter, collected values and used_bins what the verdicts so far demand |
| `StatsAnalysis.ProcessBuffer` | ec2_timestamping_programs/src/timestamp_common.c:1398-1446 | the analysis sees exactly the live entries, oldest first; bins + outliers = accepted + over-range + (accepted - packet_count), with used_bins one past the highest non-empty bin; and for timestamps below 2^63 the values collected are the differences second - first from 1 ns to 10^9 ns, bin k counts those from k to k + 1 widths, and the outliers are those later, those past the capacity and those beyond the last bin |
| `StatsAnalysis.JudgeIs` | ec2_timestamping_programs/src/timestamp_common.c:1457-1484 | for timestamps a, b below 2^63: accepted as ns exactly when 0 < a < b <= a + 10^9 and ns = b - a; over range exactly when 0 < a and b > a + 10^9; ignored exactly when a is missing or b is not later |
| `StatsAnalysis.VerdictsAreDifferences` | ec2_timestamping_programs/src/timestamp_common.c:1457-1484 | over any buffer the accepted values are those differences in order, and the over-range count is the number of entries further apart |
| `StatsAnalysis.BinIs` | ec2_timestamping_programs/src/timestamp_common.c:1490 | bin k takes exactly the deltas from k up to, not including, k + 1 bin widths |
| `StatsAnalysis.HistogramAccounting` | ec2_timestamping_programs/src/timestamp_common.c:1449-1505 | bins + outliers = accepted + over-range + (accepted - packet_count); packet_count = min(accepted, capacity); used_bins is one past the highest non-empty bin |
| `StatsAnalysis.CountersFit` | ec2_timestamping_programs/src/timestamp_common.c:1449-1505 | no uint32 counter or bin wraps while one ring is analysed |
| `StatsAnalysis.CalculatePercentiles` | ec2_timestamping_programs/src/timestamp_common.c:1553-1579 | the collected prefix becomes its sorted rearrangement, later slots stay, and the cached values are its 25th, 50th, 75th, 90th and 95th percentiles in that order, ascending between its least and greatest value |
| `StatsAnalysis.InterpolateBetween` | ec2_timestamping_programs/src/timestamp_common.c:1565-1575 | both indices are in bounds and the interpolated value lies between its neighbours |
| `StatsAnalysis.InterpolateMonotone` | ec2_timestamping_programs/src/timestamp_common.c:1565-1575 | interpolation over ascending data is monotone in the position, within a segment and across segments |
| `StatsAnalysis.PercentilesOrdered` | ec2_timestamping_programs/src/timestamp_common.c:1553-1579 | min <= P25 <= P50 <= P75 <= P90 <= P95 <= max, over the same multiset of deltas, for any number of them |
| `StatsAnalysis.PercentileIs` | ec2_timestamping_programs/src/timestamp_common.c:1564-1575 | a percentile is the value at rank percent * (n - 1) / 100 where that is whole, and otherwise the weighted mean of the two values around it |
| `StatsAnalysis.MedianInTheMiddle` | ec2_timestamping_programs/src/timestamp_common.c:1553-1579 | P50 is the middle value of an odd number of deltas and the mean of the two middle ones of an even number |
| `Correlation.ClientArrays.Store` | ec2_timestamping_programs/src/timestamp_client.c:359-365 | every slot holds the newest store that went into it |
| `Correlation.ClientArrays.Lookup` | ec2_timestamping_programs/src/timestamp_client.c:534-537 | a lookup returns the newest store into the number's slot, zeros when there was none |
| `Correlation.ServerArrays.Store` | ec2_timestamping_programs/src/timestamp_server.c:411-425 | the five parallel arrays stay in step, each slot holding the newest store into it |
| `Correlation.ServerArrays.Lookup` | ec2_timestamping_programs/src/timestamp_server.c:721-726 | a lookup returns all five values of one and the same store |
| `Correlation.SlotIsRest` | ec2_timestamping_programs/include/timestamp_common.h:144-146 | a number's slot is what is left of it after whole blocks of 50000 |
| `Correlation.HoldsOwnIff` | ec2_timestamping_programs/include/timestamp_common.h:144-146 | a number still has its own entry exactly when no later store went into its slot |
| `Correlation.SharedSlot` | ec2_timestamping_programs/include/timestamp_common.h:144-146 | two numbers share a slot exactly at multiples of 50000 apart or, across the uint32 wrap, at 17296 plus such a multiple |
| `Correlation.OwnEntryIff` | ec2_timestamping_programs/include/timestamp_common.h:144-146 | for any start and up to 2^32 consecutive sends, exactly how many later sends an entry survives: 50000, or 17296 or 67296 near the wrap |
| `Correlation.NewestFiftyThousand` | ec2_timestamping_programs/src/timestamp_client.c:351-365 | numbering from zero, s has its own entry exactly when n - s <= 50000 |
| `Correlation.DistinctSlots` | ec2_timestamping_programs/include/timestamp_common.h:144-146 | any 17296 consecutive uint32 numbers have distinct slots |
| `Correlation.BoundIsTight` | ec2_timestamping_programs/include/timestamp_common.h:144-146 | two numbers 17296 apart across the wrap always collide |
| `Correlation.LookupAfterSending` | ec2_timestamping_programs/src/timestamp_client.c:359-365 | after sending, a lookup returns that send's own timestamps within its lifetime and some later send's afterwards |
| `TxReplies.NetworkOrder` | ec2_timestamping_programs/src/timestamp_server.c:1680-1681 | writing any uint32 most significant byte first and reading it back gives it back, and so the other way round; the bytes are its base-256 digits |
| `TxReplies.ReplyAnswersItsPacket` | ec2_timestamping_programs/src/timestamp_server.c:1674-1713 | a packet that starts with the network-order bytes of a number s and a port p gets a reply with those bytes of s, and its request is numbered s; the reply goes to the source address, at p if it is 1 to 65535, at its low 16 bits from there to 2^31 - 1, at the source port if it is zero or negative as an int |
| `TxReplies.QueuedReplyAnswers` | ec2_timestamping_programs/src/timestamp_server.c:1674-1713 | the reply to any queued request answers, in that sense, the packet the request was made from |
| `TxReplies.TxBuffers.Prepare` | ec2_timestamping_programs/src/timestamp_server.c:673-683 | after preparation message i is exactly the reply to request i of the batch |
| `TxReplies.TxBuffers.Transmit` | ec2_timestamping_programs/src/timestamp_server.c:685-796 | what leaves the socket is exactly the replies the outcome lets through, and that many are counted: prefix, nothing, EAGAIN, or per-packet fallback |
| `TxReplies.DepthIsBacklog` | ec2_timestamping_programs/src/timestamp_server.c:650-657 | the depth computed from the two indices is the number of queued requests |
| `TxReplies.StepKeepsTxInv` | ec2_timestamping_programs/src/timestamp_server.c:638-800 | every event of either thread keeps the run invariant |
| `TxReplies.RepliesAreSubsequence` | ec2_timestamping_programs/src/timestamp_server.c:638-800 | in every run the replies answer a strictly increasing selection of the accepted requests: in order, none twice, each carrying the sequence number of its own request and of the packet that was made from, to that packet's sender |
| `TxReplies.BatchesFit` | ec2_timestamping_programs/src/timestamp_server.c:655-664 | no batch exceeds the 128-entry arrays, and one that is sent has exactly the size aimed for |
| `TxReplies.FullSendsAnswerEveryRequest` | ec2_timestamping_programs/src/timestamp_server.c:685-752 | every dequeued and sent request is answered exactly when every send took its whole batch; then the replies are exactly one per request, in order |
| `TxReplies.NothingLostIff` | ec2_timestamping_programs/src/timestamp_server.c:685-796 | a run has dropped no request exactly when no send fell short |
| `ServerRows.StepKeepsRows` | ec2_timestamping_programs/src/timestamp_server.c:1695-1723 | every event of the two threads keeps: requests come from packets in order, stores trail enqueues by one, each row was read from its own number's slot |
| `ServerRows.RowHoldsOwnIff` | ec2_timestamping_programs/src/timestamp_server.c:706-737 | in every run each logged row names the number its own packet starts with in network order and that packet's port, and was read from its own packet's store, so holds its values, exactly when that store came before the read and no later packet's store hit the slot; the read is at most that one store too early |
| `ServerRowsRuns.RowLoggedTooEarly` | ec2_timestamping_programs/src/timestamp_server.c:1695-1723 | from any start and for any packet that gets a reply, some run logs its row before the packet is stored, with the zeros of an untouched slot |
| `Checksum.HeaderChecksum` | af_xdp_zero_copy_perf_benchmark/PacketReplicator.cpp:799-809 | the summing and folding loops terminate and give the one's complement of the folded word sum, with no uint32 overflow |
| `Checksum.FoldMod` | af_xdp_zero_copy_perf_benchmark/PacketReplicator.cpp:806-808 | folding keeps the sum modulo 65535 and keeps nonzero nonzero |
| `Checksum.CheckedHeaderVerifies` | af_xdp_zero_copy_perf_benchmark/PacketReplicator.cpp:799-809 | the finished header sums to 0xFFFF read in host order and in network order |
| `Checksum.OrderDoesNotMatter` | af_xdp_zero_copy_perf_benchmark/PacketReplicator.cpp:799-809 | any header verifies in host order exactly when it verifies in network order (RFC 1071 section 2(B)) |
| `Checksum.SameBytesAsNetworkOrder` | af_xdp_zero_copy_perf_benchmark/PacketReplicator.cpp:809 | the two bytes stored are those a network-order computation would store |
| `Parsers.RedirectedIffFastAcceptsTarget` | af_xdp_zero_copy_perf_benchmark/unicast_filter.c:94-191 | a frame is redirected exactly when the fast extractor accepts it, it is addressed to the configured target and the queue has a socket |
| `Parsers.CheckedIffFastAndSaneLength` | af_xdp_zero_copy_perf_benchmark/PacketReplicator.cpp:544-588 | the checked extractor accepts exactly those frames the fast one accepts whose UDP length lies between 8 and the bytes left |
| `Parsers.CheckedWithinFast` | af_xdp_zero_copy_perf_benchmark/PacketReplicator.cpp:1278-1319 | same payload offset, fast length at least the checked one, equal exactly when the UDP length fills the frame |
| `Parsers.RedirectedFrames` | af_xdp_zero_copy_perf_benchmark/unicast_filter.c:94-191 | every redirected frame is accepted by the fast extractor, and by the checked one exactly when its UDP length is sane |
| `Frames.CopyBytes` | af_xdp_zero_copy_perf_benchmark/PacketReplicator.cpp:820-821 | the payload copied from elsewhere in the UMEM arrives unchanged and nothing else moves |
| `Frames.WriteIpHeaders` | af_xdp_zero_copy_perf_benchmark/PacketReplicator.cpp:742-809 | the first 34 bytes are the Ethernet header and the checksummed IP header |
| `Frames.CreateUdpPacket` | af_xdp_zero_copy_perf_benchmark/PacketReplicator.cpp:724-826 | 0 and an untouched buffer exactly when the frame does not fit; otherwise exactly the frame's bytes are written and every other byte of the UMEM stays |
| `Frames.ExtractInvertsBuild` | af_xdp_zero_copy_perf_benchmark/PacketReplicator.cpp:544-588 | extraction returns the payload exactly when it is at most 65527 bytes long; the fast extractor always does |
| `Frames.BuiltFrameIsSound` | af_xdp_zero_copy_perf_benchmark/PacketReplicator.cpp:724-826 | any frame of at most 4096 bytes, byte by byte: the found destination MAC or six 0xFF, the interface's MAC or 02:00:00:00:00:01, every field of the IP and UDP headers with untruncated lengths; the header verifies both ways, a filter set to the destination redirects it and the payload is extracted whole |
| `Frames.FrameOnTheWire` | af_xdp_zero_copy_perf_benchmark/PacketReplicator.cpp:742-818 | the built frame is what goes on the wire: each header byte has its stated value, the ports and lengths most significant byte first |
| `Frames.ReplicaFits` | af_xdp_zero_copy_perf_benchmark/PacketReplicator.cpp:511-542 | the frame built for a received frame's payload is never longer than that frame and carries the same payload |
| `Replicator.DistinctTxFrames` | af_xdp_zero_copy_perf_benchmark/AFXDPSocket.cpp:523-528 | up to 2048 consecutive sends use frames that do not overlap |
| `Replicator.CounterFrame` | af_xdp_zero_copy_perf_benchmark/AFXDPSocket.cpp:523-528 | the uint32 frame counter wraps without disturbing the round robin |
| `Replicator.SendSinglePacketDirect` | af_xdp_zero_copy_perf_benchmark/PacketReplicator.cpp:666-722 | one send writes exactly its frame into the next TX frame and yields a descriptor exactly when the ring had room |
| `Replicator.ReplicatePacket` | af_xdp_zero_copy_perf_benchmark/PacketReplicator.cpp:511-542 | the RX half of the UMEM is never written; a frame per destination is built from the received payload; the count returned is the number of descriptors |
| `Replicator.SentFramesDeliver` | af_xdp_zero_copy_perf_benchmark/PacketReplicator.cpp:511-542 | each of the newest 2048 frames built carries its destination's and the interface's MAC address, passes a filter at its destination and yields the received payload there |
| `UmemPool.AFXDPSocket.constructor` | af_xdp_zero_copy_perf_benchmark/AFXDPSocket.cpp:433-450 | bind puts the 2048 frames after the TX ones into the fill ring |
| `UmemPool.AFXDPSocket.ReceiveFrames` | af_xdp_zero_copy_perf_benchmark/AFXDPSocket.cpp:623-708 | the peeked descriptors are handed out in order and their addresses become the pending list |
| `UmemPool.AFXDPSocket.RecycleFrames` | af_xdp_zero_copy_perf_benchmark/AFXDPSocket.cpp:710-742 | the pending frames go back to the fill ring when it has room; the list is cleared either way |
| `UmemPool.AFXDPSocket.PollTxCompletions` | af_xdp_zero_copy_perf_benchmark/AFXDPSocket.cpp:530-561 | the method's whole new state is that of the modelled poll |
| `UmemPool.PollHoldsBack` | af_xdp_zero_copy_perf_benchmark/AFXDPSocket.cpp:530-561 | completions are held back until 64 are at hand and then all released together, the counters following |
| `UmemPool.AFXDPSocket.SendSinglePacket` | af_xdp_zero_copy_perf_benchmark/PacketReplicator.cpp:666-722 | a frame number is taken whether or not the ring has room; the counters move only when it has |
| `UmemPool.AFXDPSocket.SendBatch` | af_xdp_zero_copy_perf_benchmark/AFXDPSocket.cpp:464-516 | past the guard on outstanding_tx_ the reservation never fails: exactly min(batch, 64) descriptors are submitted, and the counters stay in step |
| `UmemPool.ReceiveConserves` | af_xdp_zero_copy_perf_benchmark/AFXDPSocket.cpp:690-697 | a receive loses no frame exactly when the pending list was empty or nothing arrived |
| `UmemPool.RecycleConserves` | af_xdp_zero_copy_perf_benchmark/AFXDPSocket.cpp:710-742 | a recycle loses no frame exactly when the fill ring has room for the pending list |
| `UmemPool.FillHasRoom` | af_xdp_zero_copy_perf_benchmark/AFXDPSocket.cpp:342-348 | frames in the fill ring and pending together never exceed 2048 of its 4096 entries |
| `UmemPool.StepKeepsOwners` | af_xdp_zero_copy_perf_benchmark/PacketReplicator.cpp:407-446 | every application or kernel step keeps each RX frame in exactly one place |
| `UmemPool.EveryRxFrameHasOneOwner` | af_xdp_zero_copy_perf_benchmark/PacketReplicator.cpp:407-446 | in every reachable state each RX frame is once in exactly one of fill ring, kernel, RX ring and pending list, and no other frame is in any |
| `UmemPool.RecyclingLosesNothing` | af_xdp_zero_copy_perf_benchmark/AFXDPSocket.cpp:710-742 | in every reachable state recycling finds room and puts every pending frame back |
| `UmemPool.ReceivingLosesNothing` | af_xdp_zero_copy_perf_benchmark/AFXDPSocket.cpp:623-708 | in every run a receive finds the pending list empty and loses no frame |
| `UmemPool.CountersAgree` | af_xdp_zero_copy_perf_benchmark/AFXDPSocket.cpp:530-606 | in every reachable state submitted = released + outstanding_tx_, cached_completions_ equals what the completion ring has peeked and not released and is under 64, and outstanding_tx_ cannot wrap |
| `UmemPool.TxNeverOverlapsRx` | af_xdp_zero_copy_perf_benchmark/AFXDPSocket.cpp:523-528 | no chunk queued for sending, being sent or completed but unreleased overlaps one that is pending, in the RX ring, in the fill ring or with the kernel for receiving |
| `UmemPool.SendsTakeFramesInTurn` | af_xdp_zero_copy_perf_benchmark/AFXDPSocket.cpp:523-528 | in every run the k-th send uses TX frame k modulo 2048, and while the ring has room queues exactly that frame with its length |
| `PingPong.LatencyTracker.RecordOrderResponse` | hft_client/rust_client/src/tracker.rs:78-87 | a known id is removed, its round trip returned and recorded clamped; an unknown id changes nothing |
| `PingPong.LatencyTracker.RecordCancelResponse` | hft_client/rust_client/src/tracker.rs:91-100 | the same on the cancel map |
| `PingPong.HftClient.Handle` | hft_client/rust_client/src/client.rs:137-250 | the read loop and message handler make exactly the transition of the protocol model, whatever message comes in whatever state |
| `PingPong.WebSocketActor.Handle` | mock-trading-server/src/websocket.rs:25-133 | the server makes exactly the transition of the protocol model, panicking exactly where it would unwrap a missing user id |
| `PingPong.StepKeepsFlight` | hft_client/rust_client/src/client.rs:168-250 | every receive by either party keeps the protocol invariant |
| `PingPong.OneInFlightOnePending` | hft_client/rust_client/src/client.rs:168-296 | while testing, exactly one message is in flight and exactly one id is pending, in the map of the message's kind and equal to its id, and the server knows the client by the configured token |
| `PingPong.NeverPanics` | mock-trading-server/src/websocket.rs:38-120 | the server's user id is always set when unwrapped and the client never fails |
| `PingPong.EveryEventCounts` | hft_client/rust_client/src/client.rs:215-237 | every receive brings the end nearer by exactly one |
| `PingPong.TestTerminates` | hft_client/rust_client/src/client.rs:137-159 | every run has at most 4 * ceil(test_size / 2) + 6 receives, can move until it has exactly that many, and has then stopped |
| `PingPong.TestRuns` | hft_client/rust_client/src/client.rs:137-159 | for every test size a run of every length up to that end exists |
| `PingPong.OddTestPrintsNothing` | hft_client/rust_client/src/tracker.rs:103-110 | for every odd test size of 3 or more some run stops with test_size + 1 responses and nothing printed |
| `PingPong.StatisticsAtClose` | hft_client/rust_client/src/tracker.rs:103-141 | at close: ceil(test_size / 2) orders sent and two responses to each; printed exactly once with test_size samples when even, never when odd and at least 3, once with 2 samples for 1 |
| `PingPong.SampleIsRoundTrip` | hft_client/rust_client/src/tracker.rs:72-100 | in every run sample k is the client's own time from the event at which it sent request k, an order or its cancel, to the event at which the answer under the same id arrived: the difference of the two events' clocks, at least 1 ns and at most an hour |
| `PingPong.PrintDue` | hft_client/rust_client/src/tracker.rs:103-110 | over whole cycles the count reaches a multiple of test_size exactly at the end, and only when test_size is even or one |
| `PingPong.OrdersRotate` | hft_client/rust_client/src/client.rs:299-311 | the k-th order of any run is for pair k modulo the number of pairs, or the default when none is configured |

## Left out

- Weak memory ordering: the atomics are sequentially consistent interleavings; acquire, release and relaxed annotations are not modelled.
- Races inside one access to the statistics ring or the correlation arrays: each enqueue, update, store and lookup is one atomic step, in any order with the other threads' steps; only the two queues get micro-steps.
- ServerRows.RowHoldsOwnIff: stops at the row the TX thread builds; whether the CSV ring has room for it is the business of SpscQueue and CsvWriter.
- Sockets, ioctl, kernel error queues, BPF loading, ARP and interface lookup: their results are parameters (how many packets were sent, which frames the kernel filled, which MAC or IP was found).
- Reuse of an AF_XDP TX frame that is still in flight: a frame number is taken even when the reservation fails, so the code gives no such guarantee; only the counters and the TX/RX split are modelled.
- CsvWriter.ShutdownLosesBacklogBeyondOneBatch: assumes every write() is complete and that the buffer is destroyed after its producer has finished its last call.
- CsvWriter.FileIsWholePrefix: batch sizes of 2^24 and more are excluded, because there batch_size * 256 wraps in uint32.
- JoinTable.ProcessJoin: fewer than 2^31 matching rows in the first file, because record indices are C ints.
- EndToEnd.LoggedNanosecondsSurvive: for a column supplied by one log whose matching entries have distinct sequence numbers; JoinTable.ProcessJoin covers every other input by its last-supplier rule.
- Headings.ValueUnderItsName: for a name one log alone has, with distinct sequence numbers among that log's entries for the target; JoinTable.ProcessJoin covers every other input by its last-supplier rule.
- The six helpers that fill a log entry: which measured time is stored at which place of the entry is taken from the universal list of timestamps.
- PingPong.TestTerminates: test_size of zero is excluded; the remainder in should_print_stats would panic there.
- StatsAnalysis.CalculatePercentiles: percentile interpolation is over reals; the rounding of doubles is not modelled.
- Replicator.ReplicatePacket: whether each TX ring reservation succeeds is a parameter; the ring itself is in UmemPool. Exceptions and the regular-socket fallback are not modelled.
- Exceptions thrown between receive and recycle, which would leave frames pending.
- Allocation failure, file-open failure, partial or failed write(), null-pointer checks.
- qsort, strtol, atoi, snprintf, fgets and strcspn are modelled by their C library behaviour.
- Doubling of the sequence set's capacity, and the csv_type and padding bytes of a queued entry.
- The join's column masks (field_mask, delta masks) that no code path reads.
- The join's file-count validation, its summary messages and its command line.
- The statistics' table of twelve deltas and which of them a mode enables: the two timestamp indices of a delta are parameters of StatsAnalysis.
- TSC calibration, CPU affinity, real-time scheduling, signal handlers, pacing and sleeping.
- JSON text, TLS, WebSocket framing, HdrHistogram internals and .hlog files: message datatypes and a list of samples stand in for them.
- The one-way client's store without TSC values, which nothing reads back.
- The replicator's buffer pool, destination cache, packet templates, control protocol, configuration loaders, logging, the Java and C++ clients and the CDK stacks: easy or unused.
