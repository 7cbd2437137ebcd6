# kafgres: a verified model of its protocols and codecs

kafgres is a Kafka broker that lives inside Postgres. This project models the parts of it where a
mistake loses, repeats or corrupts data, and proves what those parts promise. `dafny verify
dfyconfig.toml` checks all of it.

**Change data capture** (`Cdc*.dfy`). One replication slot feeds many mappings, called lanes. Each
lane collects a run of changes, flushes it on a change of shape or under memory pressure, retries
one transaction at a time when a run cannot be rendered, and stops, holding the slot, when it cannot
go on. `CdcStream` and `CdcWal` say what the slot decodes and what each lane is owed; `CdcWorld` is
everything outside the drain's memory (slot, saved positions, log with its unsynced partitions) and
what must hold of it at every instant; `CdcDb` is the database, whose every step may fail, and which
keeps the whole history of worlds so that a crash can strike in any of them; `CdcRuns` and `CdcDrain`
are the drain itself; `CdcWorker` reads the peek and runs the worker.

**The log cleaner** (`CompactionLog`, `Compaction`, `Rebuild`, `Cleaning`). The whole-log rule, the
bounded fingerprint map and per-batch cleaning, passes over consecutive stretches, and the rewriting
of a batch at byte level; `Cleaning` joins them, from a log of batches in bytes to the log left.

**Record batches** (`Bytes`, `Records`, `RecordPrint`, `Batches`, `Building`). The "Record Batch" and
"Record" sections of Apache Kafka's message format: zigzag varints, declared extents, the buffered
and the streaming reader, key-only reading, printing, stamping, building and walking.

**The schema compiler** (`Versions`, `Wire`, `Schema`, `SchemaSize`, `SchemaRoundTrip`). The emitted
size, encode and decode functions as one interpreter over a schema datatype, so that each theorem
covers every generated module. `Framing` and `Header` are the stream around the messages.

**Producers** (`ProducerWindow`, `ProducerRuns`, `ProducerCut`, `SqlProducer`). The five-deep sequence
window with wraparound, and the ids of batches produced from SQL across savepoints.

**Groups** (`Group`, `Coordinator`). The classic coordinator's state machine over all groups at once.

What comes from outside is a parameter or a free choice: rendering, appending, syncing, saving and
advancing succeed or fail as they like; the clock, the checksum, the fingerprint, what counts as
UTF-8 and the text of a summary are parameters. The feed is assumed to be whole transactions in
increasing end-LSN order, each row's LSN at most its transaction's end, the commit row's LSN equal to
it, and fewer than 2^63 - 1 rows in a transaction. Fingerprints are assumed injective on the keys
present, and offsets in a log distinct. Where text is measured, each character stands for one byte of
its UTF-8 form.

## Where the code does not do what it is meant to

Each of these has a lemma with a concrete case and one that says exactly when the property holds.

- A tagged struct that may be null but does not default to null is written with an empty payload and
  cannot be read back (`SchemaRoundTrip.NullTagIsLost`); decoding inverts encoding exactly when no such
  null is written (`SchemaRoundTrip.RoundTrip`).
- After the log is cut back, resending the lost batches can be refused, because a later epoch's batch
  replaced the window row just below the cut (`ProducerCut.ResendCanBeRefused`);
  `ProducerCut.ResendIsAccepted` has the exact condition, and `ProducerCut.OneEpochResumes` shows it
  always holds when no later epoch began.
- A batch whose append fails after it was reserved can leave the window without the batch it replaced
  (`ProducerRuns.AbandonForgets`); `ProducerRuns.AbandonKeeps` says exactly when the newest row stays.
- Resending one of the newest five batches can be refused instead of answered as a duplicate, because
  a window of 2^31 sequences or more came round to its first one (`ProducerRuns.WideSpanLosesOne`);
  `ProducerRuns.NewestFiveAreDuplicates` has the exact condition, and
  `ProducerRuns.NarrowSpanKeepsFive` shows that a narrower window always meets it.
- A drain whose cursor fails to close returns before its last appends are synced and recorded, so the
  next drain appends them again though nothing crashed (`CdcWorker.FailedCloseRepeats`);
  `CdcWorker.EndedEarly` shows that the saved positions still say what was handled exactly when no
  mapping moved in that last flush, and `CdcWorker.NextDrainRepeats` that one which moved repeats.
- A streaming reader counts 64 bytes for each header, so it can refuse a record a buffer accepts
  (`RecordPrint.StreamRefuses`); `Records.StreamAgrees` says exactly when.
- An untagged SQL producer id can decode to another transaction's xid
  (`SqlProducer.LargeXidIsMisread`); an id decodes to its own exactly when it is tagged or the xid is
  below 2^62 (`SqlProducer.IdDecodes`).

## Model

| member | source | states |
|---|---|---|
| CdcStream.BodyCut | extension/src/cdc.rs:659-669 | Cutting a run's text where its first elements end, and skipping one comma, leaves exactly the text of the rest |
| CdcWorld.SlotLosesNothing | extension/src/cdc.rs:930-983 | In any good state every change of every transaction ending at or below the slot has been handled by every mapping, in an entry that is not lost and has nothing left to sync |
| CdcWorld.SummaryComesAfter | extension/src/cdc.rs:824-843 | Every table change of every transaction a summary reaches was produced by an earlier entry |
| CdcWorld.CrashKeeps | extension/src/cdc.rs:870-885 | Whatever unsynced appends a crash takes, from whatever state, and however far back it puts the slot, what is found afterwards is a good state at rest |
| CdcWorld.AppendKeeps | extension/src/cdc.rs:793-813 | Appending a lane's next stretch keeps the no-loss, order, text and prefix properties, if a summary only follows its tables |
| CdcWorld.SyncKeeps | extension/src/cdc.rs:855-868 | So does syncing any partitions |
| CdcDb.Db.RenderAndProduce | extension/src/cdc.rs:1269-1305 | One transaction: appended with some set of partitions, or refused leaving nothing; every state passed through is good |
| CdcDb.Db.SavePositions | extension/src/cdc.rs:1108-1129 | Positions are saved all together or not at all, and only positions whose changes are handled and durable |
| CdcDb.Db.Advance | extension/src/cdc.rs:1154-1160 | The slot moves only to where no lane's saved position is behind it |
| CdcDb.Db.Crash | extension/src/cdc.rs:930-983 | The process may die in any state of its history, the slot back where it was last flushed; the world found then is at rest |
| CdcRuns.Deliverable | extension/src/cdc.rs:653-655 | The furthest transaction within the hold: all before it end by it too, the next does not; none exactly when there is no hold or the first ends after it |
| CdcRuns.AdvanceTarget | extension/src/cdc.rs:847-853 | With no holds, everything peeked; else the smallest hold, and nothing when any stopped mapping gives none |
| CdcRuns.RetainedIsPrefix | extension/src/cdc.rs:735-790 | Keeping the transactions that end by the cut one's end keeps exactly those up to it |
| CdcRuns.CutRun | extension/src/cdc.rs:735-790 | A run cut at one of its transactions is the run of its elements up to there, text, shape and ends |
| CdcRuns.Transactions | extension/src/cdc.rs:659-669 | The loop's slices are, transaction by transaction, the JSON arrays of exactly their own elements, with their holds and last positions |
| CdcDrain.Drain.SyncAll | extension/src/cdc.rs:855-885 | On success every partition is durable and nothing else moved; at the first failure the run is no longer clean and neither slot nor positions moved |
| CdcDrain.Drain.Persist | extension/src/cdc.rs:815-822 | A lane's position is recorded only after all it appended to is durable |
| CdcDrain.Drain.Record | extension/src/cdc.rs:793-813 | While the peek is read an append is synced and saved at once; after it, its partitions join those still to sync; a failure leaves every lane's memory true of the world |
| CdcDrain.Drain.Produce | extension/src/cdc.rs:793-813 | Done means the lane's delivered position is the stretch's last; any failure leaves every lane as it was and says which stretch was refused |
| CdcDrain.Drain.Retry | extension/src/cdc.rs:735-790 | One transaction at a time up to the first that fails; the hold it reports keeps exactly that one and all after it, and in a clean run that one is the refused one |
| CdcDrain.Drain.Deliver | extension/src/cdc.rs:735-790 | A run goes out whole, or one transaction at a time when a stalling mapping fails to render several; a failure's hold loses nothing the lane has not handled |
| CdcDrain.Drain.FlushTables | extension/src/cdc.rs:824-829 | Every table run is out, and the summary lane asking is as it was |
| CdcDrain.Drain.ChangesFirst | extension/src/cdc.rs:824-843 | Every table run is out; with no table stopped nothing is held, else the hold is before the earliest stopped table's next change |
| CdcDrain.Drain.Trim | extension/src/cdc.rs:735-790 | What is taken from a summary run is what the hold lets go, all of whose table changes are produced; otherwise the lane stops |
| CdcDrain.Drain.Take | extension/src/cdc.rs:735-745 | The run leaves the lane and its body leaves the budget |
| CdcDrain.Drain.FlushRun | extension/src/cdc.rs:735-790 | A flush leaves the lane without a run, takes exactly its body off the budget, touches no other lane, and stops the lane only on a failure or a hold |
| CdcDrain.Drain.Flush | extension/src/cdc.rs:735-790 | The same with the table lanes' runs sent out before a summary's |
| CdcDrain.Drain.Largest | extension/src/cdc.rs:701-703 | The longest body, the last of equals |
| CdcDrain.Drain.MakeRoom | extension/src/cdc.rs:700-708 | The pressure loop ends with nothing buffered or room for the element, and its no-run exit is never taken |
| CdcDrain.Drain.Prepare | extension/src/cdc.rs:697-708 | After a shape change and the pressure loop the lane's run, if any, has the element's shape and the element fits |
| CdcDrain.Drain.Append | extension/src/cdc.rs:709-732 | The element joins the lane's run and the budget grows by its length and one |
| CdcDrain.Drain.Offer | extension/src/cdc.rs:690-733 | A change is passed by only by a lane that is stopped or has delivered it; otherwise it is in the run, and what is buffered is the runs' total and at most the larger of the chunk size and the element's length and one |
| CdcDrain.Drain.Finish | extension/src/cdc.rs:1075-1082 | After the peek every run is out, tables before summaries, and without a failure no lane has stopped |
| CdcDrain.Drain.Holds | extension/src/cdc.rs:964-964 | Exactly what the stopped lanes hold the slot at |
| CdcDrain.Drain.Settle | extension/src/cdc.rs:963-974 | Sync, then save: whatever fails, the world is at rest; on success every lane's position is the saved one |
| CdcDrain.Drain.Commit | extension/src/cdc.rs:963-982 | Sync, save, advance, in that order; with no failure and no stop the slot is at the highest LSN peeked |
| CdcWal.SummaryCounts | extension/src/cdc.rs:1034-1070 | A summary names exactly the tables its transaction changed, with how many changes each, how many in all, and the highest LSN |
| CdcWal.SummaryTime | extension/src/cdc.rs:1034-1070 | Its timestamp is the latest of the changes that carry one, and none exactly when none does |
| CdcWal.SummaryRanksLast | extension/src/cdc.rs:1034-1042 | A summary's position is after every change of its transaction, however many there are below 2^63 - 1 |
| CdcWal.FeedIsGood | extension/src/cdc.rs:1015-1073 | What each lane is owed is in strictly increasing position order |
| CdcWorker.Scan.ReadTxn | extension/src/cdc.rs:1015-1073 | Reading a transaction offers every lane exactly what it is owed of it, in order |
| CdcWorker.Scan.Read | extension/src/cdc.rs:1010-1074 | Reading a peek offers every lane exactly what it is owed of all of it |
| CdcWorker.Scan.OnBegin | extension/src/cdc.rs:1020-1033 | A transaction opens with the end of the one before as its hold and nothing counted |
| CdcWorker.Scan.OnChange | extension/src/cdc.rs:1043-1069 | A change is counted, and offered, at its rank, to exactly the lanes of its table |
| CdcWorker.Scan.OnCommit | extension/src/cdc.rs:1034-1042 | Every summary lane is offered the transaction's summary, after all its changes, unless it had none |
| CdcWorker.Conclude | extension/src/cdc.rs:952-982 | However the end of a drain goes, a failing cursor close included, the world is at rest; a close that fails before any mapping moved leaves the run clean |
| CdcWorker.EndedEarly | extension/src/cdc.rs:951-959 | Where a drain ends without recording, the saved positions say what was handled exactly when no mapping had moved |
| CdcWorker.NextDrainRepeats | extension/src/cdc.rs:951-1002 | What a mapping that had moved appends next is not a prefix of its stream |
| CdcWorker.FailedCloseRepeats | extension/src/cdc.rs:951-959 | One change appended, a cursor that fails to close, and the change appended again |
| CdcWorker.FreshWorld | extension/src/cdc.rs:985-1002 | An empty log, no saved position and a slot that has passed nothing is at rest |
| CdcWorker.StartsBehind | extension/src/cdc.rs:985-1002 | A replay from a held slot starts no lane ahead of what its saved position accounts for |
| CdcWorker.DrainOnce | extension/src/cdc.rs:930-983 | Whatever step fails, a drain leaves the world at rest; if none fails the slot passes everything peeked |
| CdcWorker.Work | extension/src/cdc.rs:1146-1152 | Any run of ticks and crashes from a fresh slot: at every instant nothing the slot or a saved position passed is lost or unsynced, no summary came early, every entry was rendered from exactly its changes, and until the first crash, failed sync or save, or failed cursor close with appends unrecorded, each mapping handled a prefix of its stream once |
| CompactionLog.PassPreserves | codec/src/compaction.rs:194-252 | Removing no tombstones, and even where a batch survives whole, a pass with a map of any part keeps every key's latest record, every unkeyed record and all above the map, and makes no other record a latest one |
| CompactionLog.PassAgain | codec/src/compaction.rs:194-252 | A second pass with a map of what the first left removes nothing |
| CompactionLog.PassesAreOnePass | codec/src/compaction.rs:145-252 | However a log is cut into consecutive stretches, bounded passes leave exactly what one pass with a map of all of it leaves |
| CompactionLog.PassIsSurvival | codec/src/compaction.rs:31-81 | A pass with a map of the whole log keeps exactly what the whole-log rule keeps |
| Compaction.SurvivorsUntil | codec/src/compaction.rs:31-81 | The loop keeps a record's offset exactly when it is unkeyed, or the last of its key and not a tombstone older than the cutoff; it keeps the base of every control batch and no other, counts the different keys, and fails only with a batch's own error |
| Compaction.OffsetMap.Scan | codec/src/compaction.rs:150-175 | The last offset of each key of a batch, given up exactly when the keys do not fit beside those mapped |
| Compaction.OffsetMap.AddBatch | codec/src/compaction.rs:145-181 | All of a batch's keys or none: refused exactly when they do not fit, failed exactly when they fit and the batch does not read, and either leaves the map as it was |
| Compaction.Sift | codec/src/compaction.rs:194-252 | Exactly the records that stay, given up when a compressed batch's survivors would hold too much |
| Compaction.CleanBatch | codec/src/compaction.rs:194-252 | Untouched when control, above the map, over a cap or with nothing to drop; else exactly the records that stay; an unreadable batch is its own error |
| Compaction.MapDecides | codec/src/compaction.rs:183-191 | Looking up a fingerprint decides whether a mapped record supersedes this one |
| Compaction.CleanerAgrees | codec/src/compaction.rs:31-81 | With a map of the whole log and tombstones going when older than the cutoff, the lookup keeps a record exactly when the whole-log rule does |
| Compaction.BuildMap | codec/src/compaction.rs:145-181 | A map of as many readable batches as fit, at least one, holds exactly their keys and offsets and ends no lower than any of them |
| Compaction.CleanPass | codec/src/compaction.rs:194-252 | Cleaning any chosen batches of a readable log with a map of any of them never adds or renumbers a record and keeps all the rule keeps; with no cap hit and all chosen it is the pass; with no tombstone removal every key's latest record stays the latest |
| Compaction.PassByKeys | codec/src/compaction.rs:145-181 | A map of keys and offsets alone makes the same pass as the records themselves |
| Rebuild.RebuildBatch | codec/src/compaction.rs:255-355 | The byte-patching loop writes the printed batch of the kept records, or nothing when there are none |
| Rebuild.WriteRecord | codec/src/compaction.rs:255-355 | One kept record, as deltas from the batch's first |
| Rebuild.WriteBatch | codec/src/compaction.rs:255-355 | Placeholders for length and checksum, patched afterwards, give the printed batch |
| Rebuild.RebuildPreserves | codec/src/compaction.rs:255-355 | The rewritten batch validates and decodes to exactly the kept records with absolute offsets, timestamps, keys, values, headers and attributes; base and last offset are the first and last survivor's; producer identity, leader epoch and flags carry over |
| Cleaning.CleanWhole | codec/src/compaction.rs:31-252 | When one map takes the whole log and no cap is hit, the cleaner keeps exactly the records whose offsets the whole-log rule returns |
| Cleaning.RewrittenView | codec/src/compaction.rs:194-355 | At byte level: clean a batch, rebuild it, decode it, and the records are exactly those kept, within the old extent, in a batch that can be cleaned again |
| Cleaning.CleanOne | extension/src/storage/segment.rs:960-974 | A batch left verbatim, rewritten or dropped decodes to exactly the records the map's rule keeps |
| Cleaning.PassOver | extension/src/storage/segment.rs:1009-1035 | A pass over a log in bytes leaves batches, still in order and readable, that decode to exactly the pass over its records |
| Cleaning.PassCompacts | codec/src/compaction.rs:145-252 | Over what earlier passes left and one more stretch, a map of that stretch alone leaves what compacting both would |
| Cleaning.CompactedIsPass | codec/src/compaction.rs:31-81 | The fully compacted log is what one pass with a map of all of it leaves, and what the whole-log rule keeps when no tombstone is old enough |
| Cleaning.MapStretch | extension/src/storage/mod.rs:117-137 | A map of as much of the next stretch as fits is fit to clean with from the start of the log |
| Cleaning.CleanStretch | extension/src/storage/segment.rs:948-1036 | One map and one pass take the log, in bytes, from compacted up to one batch to compacted up to a later one |
| Cleaning.CleanLog | extension/src/storage/segment.rs:948-1036 | However small the maps are, passing stretch after stretch over a log in bytes ends, and what is left decodes to every unkeyed record and the last of each key, in order |
| Records.RecordIter.Next | codec/src/records.rs:1172-1214 | Each step yields the head of what is left, its error, or the end; the iterator is spent after either |
| Records.RecordIter.Collect | codec/src/records.rs:1172-1214 | Draining the iterator gives exactly the records before the end or the first error |
| Records.ErrorFreeTiles | codec/src/records.rs:1063-1214 | A read without error yields the declared count, and the records' extents tile the payload |
| Records.TilesAreRead | codec/src/records.rs:1063-1214 | Whatever tiles the payload in the declared number is what is read |
| Records.RecordAgrees | codec/src/records.rs:868-980 | Record by record the stream yields what the buffer does, unless over its caps, and fails wherever it fails |
| Records.StreamAgrees | codec/src/records.rs:868-1214 | Within the caps the stream yields the same records and fails at the same index; over them it stops with a strict prefix |
| Records.KeysProject | codec/src/records.rs:1216-1226 | Key-only iteration is the key projection of full iteration, errors included, unless the full one meets a record too large |
| Records.BufferHasNoCaps | codec/src/records.rs:876-881 | A buffered read never finds anything too large |
| RecordPrint.RecordAt | codec/src/records.rs:1063-1146 | A printed record reads back wherever it stands, and the reader stops at its end |
| RecordPrint.BodyReads | codec/src/records.rs:1063-1214 | A printed body reads back as exactly its records |
| RecordPrint.StreamRefuses | codec/src/records.rs:868-980 | A printed record of 2^20 + 1 empty headers that a buffer reads back and a stream finds too large |
| Bytes.WriteVar | codec/src/primitives.rs:178-187 | The writing loop emits the base-128 form |
| Bytes.VarSize | codec/src/primitives.rs:189-196 | The size loop counts its bytes |
| Bytes.ReadVar | codec/src/records.rs:950-979 | The reading loop accumulates the shifted groups in a word, dropping what spills over, and refuses more bytes than the limit |
| Bytes.VarRoundTrip | codec/src/primitives.rs:77-88 | A varint reads back wherever it stands, if the extent and byte limit admit it |
| Bytes.ZigZag | codec/src/records.rs:664-682 | Unfolding the zigzag form gives the number back |
| Batches.PrintValidates | codec/src/records.rs:175-212 | A printed batch validates, carries its header fields and holds its body |
| Batches.StampKeepsCrc | codec/src/records.rs:294-317 | Stamping a validated batch leaves it valid with the same checksum over the same bytes, at the new offset and epoch |
| Building.BuildBatch | codec/src/records.rs:1299-1366 | The building loop writes the printed batch of the records |
| Building.BuildPreserves | codec/src/records.rs:1299-1366 | A built batch, stamped anywhere, validates and decodes to exactly its records at consecutive offsets from there, with the producer id and the transactional flag asked for |
| Building.BatchIter.Next | codec/src/records.rs:330-360 | The next batch and the rest of the blob; a length that cannot be drops the rest |
| Building.BatchIter.Collect | codec/src/records.rs:330-360 | Iteration ends, with every item and nothing left |
| Building.WalkReturns | codec/src/records.rs:330-360 | A blob of whole batches gives each of them in order |
| Building.WalkTiles | codec/src/records.rs:330-360 | If no item fails the batches are the blob, byte for byte |
| Versions.Intersect | codec-gen/src/versions.rs:59-70 | A version is in the result exactly when it is in both |
| Versions.CoversMeansAll | codec-gen/src/versions.rs:72-78 | One range covers another exactly when it contains each of its versions |
| Versions.ConditionIsMembership | codec-gen/src/versions.rs:80-96 | On every version the message has, the specialised test is membership |
| Wire.PutUGetU | codec/src/primitives.rs:77-88 | An unsigned varint reads back and leaves what follows |
| Wire.LengthBack | codec/src/primitives.rs:198-213 | A length prefix reads back in all four forms |
| Wire.NullLengthBack | codec/src/primitives.rs:235-243 | So does a null |
| Wire.BlobBack | codec/src/primitives.rs:245-283 | A length-prefixed string or byte string reads back and leaves what follows |
| Wire.LengthSizes | codec/src/primitives.rs:215-233 | The size helpers predict the prefix written |
| SchemaSize.SizeIsExact | codec-gen/src/emit.rs:239-361 | For every schema, version and value that encodes, the emitted size is the number of bytes written |
| SchemaSize.TagSizes | codec-gen/src/emit.rs:643-758 | Also in the tagged section, however known and unknown tags interleave and with payload lengths that are themselves computed sizes |
| SchemaRoundTrip.RoundTrip | codec-gen/src/emit.rs:365-796 | For every schema, version, conforming value and suffix, decoding the encoding gives the value and leaves the suffix, or fails, exactly as the value writes no null struct under a tag |
| SchemaRoundTrip.TagsBack | codec-gen/src/emit.rs:690-796 | Known and unknown tags come back however they interleave, fields not written at their defaults |
| SchemaRoundTrip.NullTagIsLost | codec-gen/src/emit.rs:422-481 | A conforming value that encodes and does not decode |
| Framing.Writer.WriteFrame | codec/src/framing.rs:37-50 | Success, exactly when the body encoded and fits, leaves the length-prefixed body; failure leaves the placeholder and what was written |
| Framing.Connection.Read | codec/src/framing.rs:18-34 | Bytes arriving in any pieces keep what was taken and what is buffered in step with the whole stream |
| Framing.Connection.TakeFrame | codec/src/framing.rs:18-34 | A whole frame is taken off the front; an incomplete or oversized one consumes nothing |
| Framing.ParseAppend | codec/src/framing.rs:18-34 | Parsing a stream in two goes is parsing it at once |
| Framing.FramesArrive | codec/src/framing.rs:18-50 | However written frames are divided into reads and whenever they are taken, those taken are the first bodies in order, none is refused, and in the end they are all of them |
| Header.DecodeTagged | codec/src/header.rs:155-174 | The loop reads the section a struct without tagged fields would |
| Header.RequestBack | codec/src/header.rs:41-97 | A request header's size is exact, and it reads back whatever follows |
| Header.PeekAgrees | codec/src/header.rs:100-110 | The peeked key and version are those the decoder finds |
| Header.ResponseBack | codec/src/header.rs:119-153 | The same for a response header |
| ProducerWindow.SequencesWrap | extension/src/producer.rs:36-44 | Sequences are integers modulo 2^31, and "in sequence" is the successor |
| ProducerWindow.SpanSpaces | extension/src/producer.rs:188-190 | From any batch on, while windows span fewer than 2^31 sequences no two batches of an epoch within one start at the same sequence |
| ProducerWindow.WindowStep | extension/src/producer.rs:254-316 | Recording the next batch, however wide the window, keeps it the newest five of the epoch at hand but for those whose first sequence came round again or whose row a failed append took |
| ProducerRuns.StampCompletes | extension/src/producer.rs:329-348 | Reserving and then stamping is recording with the offset |
| ProducerRuns.Producer.Record | extension/src/producer.rs:254-316 | The new row is last of at most five; while there are fewer every other row with another first sequence stays, and none is made up |
| ProducerRuns.Producer.Stamp | extension/src/producer.rs:329-348 | The row at that first sequence gets the offset, and no other row or field changes |
| ProducerRuns.Producer.Release | extension/src/producer.rs:352-370 | Exactly a reservation at that first sequence goes |
| ProducerRuns.Producer.ForgetPast | extension/src/producer.rs:320-326 | Exactly the rows at or past the end go, the rest in order |
| ProducerRuns.Producer.Produce | extension/src/producer.rs:193-370 | Over every run, failed appends included: the window's rows are those of batches of the log; until a failed append takes the newest row, appended epochs never decrease and within an epoch batches chain without gap or repeat; what each failure took is recorded; any other answer changes nothing |
| ProducerRuns.NewestFiveAreDuplicates | extension/src/producer.rs:193-250 | Resending one of the newest five batches of the current epoch is answered as a duplicate with its original offset exactly when no later batch started at its first sequence and no failed append took its row |
| ProducerRuns.NarrowSpanKeepsFive | extension/src/producer.rs:188-250 | Always, when the batches since span fewer than 2^31 sequences and no append failed, whatever older windows spanned |
| ProducerRuns.WideSpanLosesOne | extension/src/producer.rs:254-276 | Two accepted batches 2^31 offsets apart, the first of which is then refused as out of order |
| ProducerRuns.AbandonKeeps | extension/src/producer.rs:352-370 | After a failed append the newest four rows stay unless they share its first sequence, and the newest row is still the newest exactly when it does not |
| ProducerRuns.AbandonForgets | extension/src/producer.rs:352-370 | A new epoch's failed first append can let an old batch be appended again |
| ProducerRuns.AbandonTracks | extension/src/producer.rs:352-370 | A failed append leaves a window on the log that knows what it lost, and breaks the chain exactly when it took the newest row |
| ProducerCut.ForgetsPast | extension/src/producer.rs:320-326 | After forgetting past an end no duplicate answer names an offset at or past it |
| ProducerCut.ForgottenWindow | extension/src/producer.rs:320-326 | What is left is a window on what is left of the log |
| ProducerCut.ResendIsAccepted | extension/src/producer.rs:193-326 | Resending the lost batches in order is accepted at every step exactly when nothing from before the cut is retained, or the last batch before it is, or the first lost one starts at zero in a later epoch than any retained |
| ProducerCut.OneEpochResumes | extension/src/producer.rs:193-326 | Always, when no later epoch began after the cut |
| ProducerCut.ResendCanBeRefused | extension/src/producer.rs:193-326 | A run of five accepted batches after whose loss the first is refused |
| SqlProducer.FieldsAreDisjoint | extension/src/produce_sql.rs:197-213 | The fields of a tagged id share no bits |
| SqlProducer.IdDecodes | extension/src/produce_sql.rs:205-222 | An id decodes to its xid exactly when it is tagged or the xid is below 2^62 |
| SqlProducer.LargeXidIsMisread | extension/src/produce_sql.rs:205-222 | The untagged id of transaction 2^62 decodes to transaction 0 |
| SqlProducer.IdsAreDistinct | extension/src/produce_sql.rs:205-213 | One id, one transaction and one generation |
| SqlProducer.OrphanKeeps | extension/src/produce_sql.rs:256-269 | Rolling a savepoint back leaves no live batch after a rolled-back one with its id |
| SqlProducer.ProducePins | extension/src/produce_sql.rs:225-254 | Appending reserves a partition exactly at the transaction's first batch there |
| SqlProducer.OrphanPins | extension/src/produce_sql.rs:256-269 | Rolling a savepoint back leaves each partition reserved once by its transaction |
| SqlProducer.Session.EnterProduce | extension/src/produce_sql.rs:225-254 | A new transaction starts over; the highest subtransaction that produced is remembered; the id is the current generation's; a reservation is asked for exactly where the transaction has none |
| SqlProducer.Session.RolledBack | extension/src/produce_sql.rs:258-269 | The generation moves on exactly when the rolled-back subtransaction or one in it produced under it |
| SqlProducer.Session.Produce | extension/src/produce_sql.rs:225-254 | A produced batch never follows a rolled-back one with its id, and its partition is reserved exactly when no batch of the transaction, rolled back or not, is there; a failed append leaves the log and the reservations alone |
| SqlProducer.Session.Rollback | extension/src/produce_sql.rs:256-269 | Over every run of savepoint begin, release and rollback the same holds |
| SqlProducer.Session.Savepoint | extension/src/produce_sql.rs:256-269 | A new subtransaction's id is above every one given out, and nothing is produced under it yet |
| SqlProducer.Session.Release | extension/src/produce_sql.rs:256-269 | A released savepoint's batches stay, under those that enclose it |
| SqlProducer.Session.Start | extension/src/produce_sql.rs:225-247 | A transaction begins with no callback registered, whatever the last one left |
| SqlProducer.Session.End | extension/src/produce_sql.rs:242-247 | A commit keeps every batch, an abort orphans every batch of the transaction and no other |
| Group.JoinKeeps | extension/src/group.rs:166-250 | A join, in any state, keeps the group's invariant: states, assignments, generations, leader, protocol, and a join window that ends by the deadline |
| Group.CompleteKeeps | extension/src/group.rs:272-319 | Completing with a member as leader and a protocol all offer keeps it |
| Group.EvictKeeps | extension/src/group.rs:272-305 | Those left behind go even when no protocol is common, and the group is still sound |
| Group.AssignKeeps | extension/src/group.rs:321-343 | Handing out any assignments leaves everyone assigned and keeps it |
| Group.ReopenKeeps | extension/src/group.rs:353-391 | Reopening after any members have gone keeps it, empty exactly when nobody is left |
| Group.ClosedEarlyKeepsAll | extension/src/group.rs:252-270 | A rebalance that closes before its deadline leaves nobody behind, and past it always closes |
| Group.CommonProtocol | extension/src/group.rs:293-302 | The first of the first member's protocols that every member offers; none exactly when no protocol is offered by all |
| Coordinator.Coordinator.Join | extension/src/group.rs:166-250 | Every group stays sound, no generation goes back, and only this group changes |
| Coordinator.Coordinator.CompleteJoin | extension/src/group.rs:272-319 | Those who did not rejoin go; the group is vacated when nobody is left, unchanged otherwise when no protocol is common, else formed at the next generation with the preferred protocol and the first member as leader |
| Coordinator.Coordinator.ApplyAssignments | extension/src/group.rs:321-343 | Each member has the last assignment named for it, else what it had, else an empty one |
| Coordinator.Coordinator.TouchHeartbeat | extension/src/group.rs:345-351 | A heartbeat puts off one member's session timeout and changes nothing else; of a member or group not there, nothing |
| Coordinator.Assign | extension/src/group.rs:321-332 | The loop gives each member the last assignment named for it |
| Coordinator.Longest | extension/src/group.rs:373-375 | The longest rebalance timeout of any member, sixty seconds with none |
| Coordinator.Coordinator.OpenRebalance | extension/src/group.rs:367-391 | Preparing, or empty when nobody is left, with the longest member timeout to run and nothing assigned |
| Coordinator.Coordinator.Leave | extension/src/group.rs:353-365 | True exactly when the member was there; then it is gone and the group reopens |
| Coordinator.Coordinator.Sweep | extension/src/group.rs:466-491 | Exactly the members past their session timeout go, and exactly the groups that lost one reopen |
| Coordinator.Coordinator.Delete | extension/src/group.rs:406-431 | Only a group without members is deleted, its offsets with it; the outcome says which case |

## Left out

- CdcDrain.Drain.Offer: lanes are found by filtering on the table, not through the two-level index built for it.
- CdcWorker.Scan.Read: fetches in chunks are a step that may fail before each row.
- CdcDb.Db.SavePositions: the guard that a mapping's definition has not changed since the drain began, because no mapping is redefined during a run here.
- CdcWal.SummaryCounts: the summary's JSON text is a parameter.
- CdcWorker.Work: mappings are not added, removed or redefined during a run, and the drain's SQL mode, stop messages and produced count are not modelled.
- CdcWorld.SlotLosesNothing: a change counts as handled whether appended, filtered out or dead-lettered; which of them rendering chose is not modelled.
- Records.StreamAgrees: a decompressor is its whole output; one that fails part-way, and the 1 GiB cap on its total, are not modelled.
- Rebuild.RebuildPreserves: the kept list is in offset order with deltas and lengths that fit their widths.
- Compaction.CleanPass: compression is its decoded bytes.
- Cleaning.CleanLog: which segments are picked, the byte budget of a step and swapping files are not modelled; every batch is decodable and in offset order, whatever is kept of one fits the widths it is written in, none was aborted, and no tombstone goes.
- SchemaRoundTrip.RoundTrip: structs that contain themselves are not modelled; a float is its eight bytes, so a NaN or negative zero compared with a default is not; error kinds are one failure.
- ProducerRuns.Producer.Produce: the window's rows are kept in insertion order, which the table orders by a sequence; one batch a request.
- ProducerRuns.NewestFiveAreDuplicates: nothing is said once a failed append has taken the newest row; expiry of idle producers, transactional id allocation and epoch bumps are not modelled.
- ProducerCut.ResendIsAccepted: from the batch of the oldest row on, no failed append took a row and no window spans 2^31 sequences.
- SqlProducer.Session.EnterProduce: what a reservation pins, the fsync owed at commit and the key hash are not modelled.
- Coordinator.Coordinator.CompleteJoin: member rows live with their group, and the order of the member query is a parameter; called only while a rebalance is being prepared.
- Coordinator.Coordinator.ApplyAssignments: called only by a leader while completing or stable.
- Framing.Connection.TakeFrame: version negotiation and the tables of supported APIs would only add lookups.
- Header.RequestBack: which header version an API uses is a table lookup and is not modelled.
- Storage engines, request handlers, replication, TLS, SASL, ACLs, quotas, snapshots, configuration and catalog set-up are not part of this model.
