# Verified models of a database's scan, upload and join-filter machinery

This project models the parts of PredTransDuckDB, a DuckDB fork that adds predicate
transfer, in which most can go wrong: concurrent protocols, scans over split buffers,
the choice of a join forest, filters that are folded in place, parsers and codecs. Each
part is stated next to what it is for, and the two are connected for all inputs, all
runs or all reachable states.

| part | modules | main results |
|---|---|---|
| parallel newline-delimited JSON scan | `JsonText`, `Ndjson*` | `ScanResult`, `BufferLives`, `NotStuck`, `RunsAreBounded`, `FittingFile` |
| JSON scan with a carried remainder | `JsonValues`, `JsonSyntax`, `Carry*` | `BufferedIsOnePass`, `BufferedIff`, `OnePassIs`, `SmallValuesFit`, `ScanFile` |
| S3 multipart upload | `Upload*` | `WrittenIsCompleted`, `RaisesForReason`, `RunsAreBounded`, `Completion`, `SlotsBalance`, `BlockedIff`, `StarvedIff` |
| predicate transfer | `JoinTree`, `JoinForest`, `JoinOrder`, `PredicateTransfer`, `RobustTransfer`, `CyclicQuery` | `ReduceQuery`, `CreateForest`, `ChooseTrees`, `CyclicKeepsAll` |
| blocked Bloom filter | `BloomBits`, `BloomFolding`, `BloomFilter`, `PartitionSort` | `FoldIsSmaller`, `Fold`, `PushNextBatch`, `BuildFilter` |
| caches over remote and piped files | `HttpReader`, `PipeReplay` | `Perform`, `DetectThenRead` |
| JSON paths, key patterns | `JsonPath*`, `KeyMatch` | `ReadAsSpelled`, `SelectedIffFits`, `GetPath`, `StrictIff`, `Match` |
| time buckets | `TimeBucket` | `MicrosBucket`, `DayBucket` |
| JSON serializer and deserializer | `JsonSerde`, `JsonSerdeReader` | `RoundTrip`, `SaveAndLoad` |

The two protocols are step systems. A schedule says which thread moves next; a step
does what one lock-protected section or one unprotected access of the source does, and
a stage such as `Broken` stands for what must not happen (an access to a buffer that is
gone, an unknown part number). The invariant is split into facts about one buffer, about
two neighbouring buffers and about counters (`NdjsonInvariant`), or about one handle and
the pool (`UploadInvariant`), so that a step is looked at only where it acts. Code that
works in place is kept as classes, arrays and loops, and proved against functions.

## Where the code does not do what one would expect

Each of these is shown by an input or a family of inputs, and each has its exact condition.

- A file that ends without a newline exactly at the end of a read request loses its last
  line without an error, and its last buffer is never freed (`TailIsLost`; exactly when:
  `LinesDelivered`, `BufferLeft`).
- A blank line across a buffer boundary makes the parallel scan fail, although blank lines
  elsewhere are skipped (`BlankLineAcross`; exactly when: `ScanResult`).
- A scan with a carried remainder refuses valid files, depending on where its buffers end
  (`ExactFitFails`, `LateSeparatorFails`; exactly when: `BufferedIff`), and reads an array
  whose opening bracket is not in the first buffer as one value (`OtherUnits`).
- A failed upload does not give back its slot. With as many failures as slots the writer
  waits for ever and never sees the error (`FailureBlocks`, `ExhaustedPool`; exactly when:
  `BlockedIff`).
- A writer out of memory waits for its own slot (`StarvesAlone`; exactly when:
  `StarvedIff`).
- An error flag seen too early rethrows an exception that is not there
  (`RethrowsNothing`; exactly when: `RethrowsNothingIff`).
- Indexes of 19 digits are not checked for their bracket (`RunsOver`,
  `UnclosedIndexAccepted`; exactly when: `OverrunIff`, `StrictIff`).
- Day buckets are wrong for some times if the origin has a sub-millisecond part of two
  microseconds or more (`OriginFails`, `LateBucket`; exactly when: `DayBucket`).
- The assertions in front of the step back to an earlier day bucket fail for some times
  before the epoch, also from origins on whole milliseconds (`AssertionFails`; exactly
  when: `DayBucket`).
- A null in a list is not consumed by the deserializer (`NullHidesTheNext`; exactly when:
  `RoundTrip`).
- Along the chosen trees the tables of a cyclic query keep rows that belong to no result
  (`CyclicKeepsAll`; exactly when: `ChooseTrees`).

## Model

Some rows name a lemma whose result is used by several operations; it is cited at the
operation it is about.

| member | source | states |
|---|---|---|
| `NdjsonResult.ScanResult` | extension/json/json_scan.cpp:536-656 | For every file, every set of threads and every interleaving, when no thread can move any more: each thread finished or threw. None threw if and only if at every buffer boundary the last newline in front of it and the first one behind it are in the two buffers, and the line between them fits and is not blank. Then the units in batch order are, character by character, the stretches between newlines without the whitespace around them, of the covered text; of the whole file if and only if it does not end, with an unfinished line, where a read request ends. The map of buffers is empty except for the last buffer of a file that ends on a request boundary. |
| `NdjsonLines.LinesAre` | extension/json/json_scan.cpp:843-894 | A sequence of texts is what the scan makes of a window if and only if the window can be cut into stretches that hold no newline and neither start nor end with one of the six whitespace characters, with a newline between two of them and nothing but whitespace around them, and these are their texts. |
| `NdjsonLines.OnlyPieces` | extension/json/json_scan.cpp:843-894 | There is only one such way to cut a window. |
| `NdjsonResult.BoundaryIff` | extension/json/json_scan.cpp:798-841 | The owner of a buffer can rebuild the line that crosses into it if and only if there are these two newlines, not too far apart, with something else than whitespace between them. |
| `NdjsonResult.TailIff` | extension/json/json_scan.cpp:843-894 | A tail is lost if and only if the file ends where a request ends and some character that is not whitespace has no newline behind it. |
| `NdjsonResult.BatchOrder` | extension/json/json_scan.cpp:699-715 | Batch indices grow with buffer indices: the units under the first n batch indices are the units of the first m buffers, in file order. |
| `NdjsonResult.LinesDelivered` | extension/json/json_scan.cpp:843-894 | The delivered lines are all lines of the file if and only if the file does not end, with an unfinished line, exactly where a read request ends. |
| `NdjsonResult.BufferLeft` | extension/json/json_scan.cpp:638-647 | At the end a buffer is still in the map if and only if it is the last one and the file ends exactly where a request ends: its second reader never comes. |
| `NdjsonResult.FailureHasCause` | extension/json/json_scan.cpp:798-841 | A thread throws only if some crossing line cannot be rebuilt: no newline in a buffer, too long, or blank. |
| `NdjsonSteps.RunInv` | extension/json/json_scan.cpp:536-656 | The invariant that ties counters, reader counts, memory blocks, thread stages and output to the file is kept by every feasible schedule. |
| `NdjsonSteps.CopyResult` | extension/json/json_scan.cpp:802-837 | While a thread copies from the previous buffer, that buffer is in the map with its memory intact; the copied bytes are the crossing line of the file, or the boundary cannot be joined. |
| `NdjsonSteps.ClaimIsSlice` | extension/json/buffered_json_reader.cpp:61-72 | Position and size claimed under the lock are those of the slice with the claimed index, for any order of the claims. |
| `NdjsonSteps.NotClosed` | extension/json/buffered_json_reader.cpp:41-43 | The file is not closed while a claimed slice is still to be read. |
| `NdjsonProgress.NothingBreaks` | extension/json/buffered_json_reader.cpp:249-267 | In no run does a thread read a removed buffer, remove one twice, decrement a count below zero or read from a closed file. |
| `NdjsonProgress.BufferLives` | extension/json/buffered_json_reader.cpp:249-267 | A published buffer leaves the map only after its owner and, unless it is the last, the owner of the next buffer have released it; as long as it is there its memory holds its slice of the file. |
| `NdjsonProgress.NotStuck` | extension/json/json_scan.cpp:802-806 | As long as one thread has work left, some thread can take a step: neither the spin loop nor the wait before closing can block all threads. |
| `NdjsonProgress.StitchUnblocked` | extension/json/json_scan.cpp:802-806 | A thread that spins for the previous buffer implies a thread that can move toward publishing it. |
| `NdjsonProgress.RunsAreBounded` | extension/json/json_scan.cpp:268-290 | No run is longer than (request + 20) * file size + 8 * threads steps. |
| `NdjsonBuffers.BufferAdds` | extension/json/json_scan.cpp:798-894 | One more buffer emits exactly the lines between the old and the new end of the covered text. |
| `NdjsonBuffers.UnitsAreLines` | extension/json/json_scan.cpp:798-894 | The buffers in order emit the lines of the covered text, each once. |
| `NdjsonBuffers.StitchInFile` | extension/json/json_scan.cpp:808-832 | The bytes joined from two buffers are the line that crosses the boundary, together with the newlines around it. |
| `NdjsonLines.ParseNextChunk` | extension/json/json_scan.cpp:843-894 | The loop over one buffer gives the units and the stopping point of the recursive definition, for every fill level of the vector. |
| `NdjsonLines.ChunkIsPrefix` | extension/json/json_scan.cpp:268-290 | A call takes the next units in order and leaves the others to later calls; a call that returns nothing has reached the end of the buffer. |
| `NdjsonLines.ParseNotLast` | extension/json/json_scan.cpp:855-871 | In a buffer that is not the last, exactly the lines up to the last newline are parsed. |
| `NdjsonLines.ParseLast` | extension/json/json_scan.cpp:855-871 | In the last buffer all lines are parsed, the unfinished one included. |
| `NdjsonCapacity.FittingFile` | extension/json/json_scan.cpp:798-832 | If the file ends in a newline, no line is blank and each line with its two newlines fits the maximum object size, every crossing line can be rebuilt and no tail is lost; and both the part copied before the size is known and the whole line with its padding fit the buffer in which the line is put together. |
| `NdjsonCapacity.NewlineWithin` | extension/json/json_scan.cpp:296-304 | Then every window as long as the longest line holds a newline, so the backward search stays inside the buffer. |
| `NdjsonCapacity.TailIsLost` | extension/json/json_scan.cpp:702-715 | A file of one line without newline, exactly as long as a request: the scan succeeds and delivers nothing. |
| `NdjsonCapacity.BlankLineAcross` | extension/json/json_scan.cpp:840 | Blank lines are skipped inside a buffer, but one that crosses a boundary makes the scan fail. |
| `JsonText.PreviousNewline` | extension/json/json_scan.cpp:296-304 | The backward search finds the last newline of the buffer if and only if there is one; otherwise it leaves the buffer. |
| `JsonText.TrimWhitespace` | extension/json/json_scan.cpp:370-378 | Both loops together give the trimmed text (`TrimIs` says which it is). |
| `JsonText.TrimIs` | extension/json/json_scan.cpp:370-378 | The trimmed text is the part of the window that neither starts nor ends with one of the six whitespace characters and around which there is nothing else. |
| `CarryScan.BufferedIsOnePass` | extension/json/json_scan.cpp:843-894 | For arrays and unstructured values and every capacity: a buffered scan that raises no error gives the units of one scan over the whole file, if and only if the first buffer does not end before the array really starts. |
| `CarryCuts.BufferedIff` | extension/json/json_scan.cpp:843-894 | For every file that one pass reads without an error, and every capacity: the buffered scan gives the same units if and only if the array starts in the first buffer and no buffer ends at a bad place, a condition on the places of the values and the capacity only. |
| `CarryCuts.ErrorsAreBadCuts` | extension/json/json_scan.cpp:855-888 | The buffered scan of such a file raises an error if and only if some buffer ends between the opening bracket and what follows it, or between a value and its separator, or cuts off a value that is the first in the buffer or the first of a call, or that ends with the file. |
| `CarryCuts.ExactFit` | extension/json/json_scan.cpp:693-716 | Unstructured values exactly as long as one buffer: the scan succeeds if and only if they are valid and the last one ends before the file does. |
| `CarryCuts.ExactFitFails` | extension/json/json_scan.cpp:855-863 | For every capacity and every parser, a valid file of one value that is refused as too large, because the value fills the buffer. |
| `CarryCuts.LateSeparatorFails` | extension/json/json_scan.cpp:877-888 | For every capacity and every parser, a valid array that is refused, because the whitespace in front of a comma ends a buffer. |
| `CarryCuts.JsonGrows` | extension/json/json_scan.cpp:306-368 | A value that is not known to end in a buffer does not end in it, however the text goes on. |
| `CarryScan.OtherUnits` | extension/json/json_scan.cpp:769-796 | When the first buffer holds only whitespace or an empty array, the units differ from those of a scan in one pass. |
| `CarryScan.ValueInFile` | extension/json/json_scan.cpp:342-368 | A value that ends inside a buffer, or in the last one, is the value that stands at that place of the file. |
| `JsonValues.NextJsonStable` | extension/json/json_scan.cpp:306-368 | A value that ends inside a buffer ends at the same place in every longer text. |
| `JsonValues.FindNextJson` | extension/json/json_scan.cpp:342-368 | The loops over quotes, escapes and brackets find the end that the recursive definition gives (`OnlyEnd` says which it is). |
| `JsonSyntax.StringEndIs` | extension/json/json_scan.cpp:318-328 | A string ends behind the first quote that has an even number of backslashes in front of it, or is open up to the end of the window if there is none. |
| `JsonSyntax.NestedEndIs` | extension/json/json_scan.cpp:306-340 | The end found is the first place at which the brackets outside of strings are balanced again, by a count character by character; it is the end of the window if there is none. |
| `JsonSyntax.OnlyEnd` | extension/json/json_scan.cpp:342-368 | For every first character: a place is the end of the value if and only if it is the first such place, or, for a value without brackets and quotes, the first comma or closing bracket. |
| `JsonValues.FindNestedEnd` | extension/json/json_scan.cpp:306-340 | The loop that counts open brackets and skips strings stops behind the bracket that closes the first one. |
| `JsonValues.InnerEndsFirst` | extension/json/json_scan.cpp:306-340 | The first value in an array ends before the array does. |
| `CarryReader.TakeValues` | extension/json/json_scan.cpp:843-894 | The loop over a buffer: its units, stopping point, remainder and error agree with what the rest of the scan has to give. |
| `CarryReader.Reader.SkipOverArrayStart` | extension/json/json_scan.cpp:769-796 | Moves behind the opening bracket, to the end of an empty array, or reports the bad start. |
| `CarryReader.Reader.Fill` | extension/json/json_scan.cpp:693-716 | After a read the buffer is the text of the file from the value that was cut off on, as much of it as there is room for, and is the last one if and only if room is left; the read fails exactly if the file has ended with a value cut off. |
| `CarryReader.Reader.ReadBuffer` | extension/json/json_scan.cpp:536-656 | Reading a buffer and opening the array keeps what the scan still has to give. |
| `CarryReader.Reader.ReadNextBuffer` | extension/json/json_scan.cpp:536-656 | Goes on to the next buffer; says no more only if nothing is left to give. |
| `CarryReader.Reader.ParseNextChunk` | extension/json/json_scan.cpp:843-894 | The units handed out, followed by what is then left, are what was left before. |
| `CarryReader.Reader.ReadNext` | extension/json/json_scan.cpp:268-290 | One call: at most one vector of units, none only at the end, and some progress in the file. |
| `CarryReader.ScanFile` | extension/json/json_scan.cpp:536-656 | The imperative scan returns what the specification gives. If it raises no error, and the array starts in the first buffer, the units are the texts of the values the file is made of, by its characters; and of every file made of values it returns their texts if and only if also no buffer ends at a bad place. |
| `CarryMeaning.OnePassIs` | extension/json/json_scan.cpp:843-894 | The scan in one pass gives these units if and only if the file is made of their values: values one after the other that end where brackets and quotes are closed and are valid; in an array behind its opening bracket and each followed by a comma or a closing bracket. |
| `CarryMeaning.ErrorsAre` | extension/json/json_scan.cpp:855-888 | From any place on it stops with an error if and only if behind some values there is one that is not valid, or, with the other error, one in an array without a separator behind it. |
| `CarryMeaning.ArrayStartIs` | extension/json/json_scan.cpp:769-796 | Where the elements of an array start and which error a bad start gives, by the characters: no opening bracket, nothing behind it, or something behind an empty array. |
| `CarryFits.SmallValuesFit` | extension/json/json_scan.cpp:693-716 | Values one after the other are read without an error, however the buffers fall, if each ends less than a buffer behind the one before it and before the end of the file, and no buffer holds 2048 of them. |
| `CarryFits.SmallArrayFits` | extension/json/json_scan.cpp:693-716 | So is an array of such values whose separators follow at once. |
| `UploadTheorems.WrittenIsCompleted` | extension/httpfs/s3fs.cpp:960-993 | In every run of writers, upload threads and the shared slot pool: if the calls on a handle raised no error and its completion request is out, the parts in order are the concatenation of all bytes passed to Write. |
| `UploadRaises.RaisesForReason` | extension/httpfs/s3fs.cpp:960-993 | In every run a handle raises an error only if one of its upload requests or its completion request was answered with a failure, or a write that was not empty did not start at the number of bytes written before. |
| `UploadRaises.SequentialNeverRaises` | extension/httpfs/s3fs.cpp:960-993 | Over the events alone: writes that follow one another, with all requests answered with success, never raise an error. |
| `UploadRaises.WriteRaisesIff` | extension/httpfs/s3fs.cpp:969-972 | In every reachable state the first step of a write raises an error if and only if it writes something and does not start at the number of bytes written before. |
| `UploadRaises.FailureShows` | extension/httpfs/s3fs.cpp:414-429 | After a failed upload, in every continuation, no call of FileSync or Close returns normally and no completion request is sent. |
| `UploadRaises.WaitsForReason` | extension/httpfs/s3fs.cpp:491-585 | In every reachable state a writer in the middle of a call can go on, unless all slots are taken, memory is short, or an upload is not done. |
| `UploadProgress.RunsAreBounded` | extension/httpfs/s3fs.cpp:960-993 | From every reachable state a run without new calls has at most a number of steps that follows from the bytes to copy, the buffers to flush, the uploads and the slots. |
| `UploadProgress.ComesToRest` | extension/httpfs/s3fs.cpp:491-585 | Where no step is left, every writer is between two calls, has ended or raised an error, or waits for a slot while all are taken, or for memory. |
| `UploadParts.PartSizes` | extension/httpfs/s3fs.cpp:974-990 | Every part of a completed object but the last has exactly the part size; the last one is neither empty nor larger. |
| `UploadTheorems.Completion` | extension/httpfs/s3fs.cpp:491-543 | At most one completion request per handle, sent only after all uploads are acknowledged and never after a failed one; part numbers are 1, 2, ...; etags are there for exactly these parts; the parts make up the bytes accepted. A handle that ends with bytes accepted has sent one. |
| `UploadTheorems.NothingBreaks` | extension/httpfs/s3fs.cpp:512-528 | No run meets an unknown part number, a negative counter, an allocation that gives up, or a barrier that finds an error without its exception. |
| `UploadTheorems.SlotsBalance` | extension/httpfs/s3fs.cpp:546-585 | In every reachable state the slots in use are those held by buffers being filled, uploads not returned and writers that allocate; they never exceed the limit. |
| `UploadSteps.RunInv` | extension/httpfs/s3fs.cpp:392-617 | The invariant over data, counters, tags, writers and pool is kept by every step of every run. |
| `UploadSteps.CopyLands` | extension/httpfs/s3fs.cpp:960-993 | A copy lands right behind the bytes that are already in the part. |
| `UploadSteps.Quiet` | extension/httpfs/s3fs.cpp:491-510 | When no upload is in progress, each one has finished or failed; without an error all parts are counted, and with one its exception is stored. |
| `UploadBlocking.BlockedWriter` | extension/httpfs/s3fs.cpp:546-585 | With a single handle, a writer that waits for a slot has an upload in flight that can return one if and only if fewer uploads have failed than there are slots. |
| `UploadErrors.BlockedIff` | extension/httpfs/s3fs.cpp:546-585 | In every run of a single handle, a writer that waits for a slot can still go on in some continuation if and only if fewer uploads have failed than there are slots. |
| `UploadErrors.StarvedIff` | extension/httpfs/s3fs.cpp:558-582 | In every run of a single handle, while a writer waits for memory at most as many slots are in use as it saw, and it can still go on in some continuation if and only if a slot was returned since, or some upload will return one unless it fails. It counts its own slot, so alone it waits for ever. |
| `UploadErrors.ReturnSlot` | extension/httpfs/s3fs.cpp:431-455 | An upload that does not fail leads to a state with one slot less in use. |
| `UploadBlocking.ExhaustedPool` | extension/httpfs/s3fs.cpp:414-429 | A failed upload keeps its slot: once as many have failed as there are slots, a waiting writer waits for ever, in every continuation. |
| `UploadExamples.FailureBlocks` | extension/httpfs/s3fs.cpp:414-429 | A run in which one failed upload blocks the writer for ever. |
| `UploadExamples.StarvesAlone` | extension/httpfs/s3fs.cpp:558-582 | A run in which the first allocation never returns. |
| `UploadErrors.RethrowsNothingIff` | extension/httpfs/include/s3fs.hpp:170-174 | In every run, a step makes a writer rethrow an exception that is not there if and only if it is a flush while some upload has raised the error flag and not yet stored its exception. |
| `UploadExamples.RethrowsNothing` | extension/httpfs/s3fs.cpp:414-420 | Such a step can be reached: a run with two slots. |
| `RobustTransfer.ReduceQuery` | src/optimizer/predicate_transfer/predicate_transfer_optimizer.cpp:37-84 | For every join graph, every table content and every filter without false negatives: what predicate transfer leaves of each table is part of it, and rows that agree on all conditions are in the tables if and only if they are in what is left. If the conditions are those of the shared attributes, the query is acyclic, the filters are exact and no tree of the forest was emptied, each row that is left belongs to an answer of the query over the original tables; if a tree was emptied, the query has no answer. |
| `CyclicQuery.ForestSufficesIff` | src/optimizer/predicate_transfer/dag_manager.cpp:361-454 | The conditions along the chosen trees imply all conditions of the query, for all rows, if and only if the trees connect the tables of every attribute. |
| `CyclicQuery.ChooseTrees` | src/optimizer/predicate_transfer/dag_manager.cpp:361-454 | Of the trees the optimizer builds: reducing the tables along them leaves nothing but rows of the result, whatever the tables hold, if and only if the query is acyclic. |
| `CyclicQuery.CyclicKeepsAll` | src/optimizer/predicate_transfer/predicate_transfer_optimizer.cpp:37-84 | For every cyclic query and every choice of trees there are tables of one row each that lose nothing to any filters without false negatives, although the query has no result. |
| `CyclicQuery.TriangleIsCyclic` | src/optimizer/predicate_transfer/dag_manager.cpp:53-183 | Three tables joined in a triangle are such a query. |
| `JoinOrder.CreateForest` | src/optimizer/predicate_transfer/dag_manager.cpp:361-454 | The trees cover every table once, each grown from a largest table along a heaviest edge; they form a join forest if and only if the query is acyclic. |
| `RobustTransfer.RowInResult` | src/optimizer/predicate_transfer/predicate_transfer_optimizer.cpp:37-84 | In a reduced forest without an empty root every row can be extended to a result row of the whole query. |
| `JoinOrder.LargestRoot` | src/optimizer/predicate_transfer/dag_manager.cpp:245-286 | Grows one tree until nothing that is left is joined to it, and keeps agreeing with some join forest of the query. |
| `JoinOrder.FindEdge` | src/optimizer/predicate_transfer/dag_manager.cpp:191-215 | The edge found is none only if there is none; no other edge between the two sets has more conditions, and none with as many leads to a larger table. |
| `JoinOrder.PickRoot` | src/optimizer/predicate_transfer/dag_manager.cpp:245-256 | The root is a table with the largest cardinality. |
| `JoinOrder.BestIsHeaviest` | src/optimizer/predicate_transfer/dag_manager.cpp:191-215 | The edge chosen shares the most attributes of all pairs across the border of the tree. |
| `JoinOrder.TreesSuffice` | src/optimizer/predicate_transfer/dag_manager.cpp:361-454 | If the query has a join forest, the trees built are one. |
| `JoinForest.TakeHeaviest` | src/optimizer/predicate_transfer/dag_manager.cpp:191-215 | Exchange: a heaviest edge across a border can be made part of a join forest without touching the edges on either side. |
| `JoinForest.EdgeBetween` | src/optimizer/predicate_transfer/dag_manager.cpp:191-215 | If two tables on different sides of a border share an attribute, an edge of the join forest crosses the border between them. |
| `PredicateTransfer.Transfer` | src/optimizer/predicate_transfer/predicate_transfer_optimizer.cpp:37-84 | Forward and backward pass keep every row that takes part in the join, whatever the false positives; with exact filters the tables are reduced along every edge in both directions. |
| `PredicateTransfer.KeysAreExact` | src/optimizer/predicate_transfer/predicate_transfer_optimizer.cpp:105-170 | A filter that keeps the keys themselves, as a hash table does, is exact and has no false negatives. |
| `PredicateTransfer.ForwardPass` | src/optimizer/predicate_transfer/predicate_transfer_optimizer.cpp:45-60 | After the forward pass, with exact filters, each row has a partner in each child; no row of the join is lost. |
| `PredicateTransfer.BackwardPass` | src/optimizer/predicate_transfer/predicate_transfer_optimizer.cpp:62-77 | After the backward pass, with exact filters, each row also has a partner in its parent, and the partners in the children are still there. |
| `PredicateTransfer.UseFilters` | src/optimizer/predicate_transfer/predicate_transfer_optimizer.cpp:202-226 | A row is kept if and only if it passes the filters of all children. |
| `PredicateTransfer.PassDown` | src/optimizer/predicate_transfer/predicate_transfer_optimizer.cpp:231-285 | Each child gets the filter of the keys that are left, and no other filter changes. |
| `PredicateTransfer.SameAnswers` | src/optimizer/predicate_transfer/predicate_transfer_optimizer.cpp:37-84 | The query, with any further condition, has the same answers on what is left. |
| `PredicateTransfer.LeftIffJoined` | src/optimizer/predicate_transfer/predicate_transfer_optimizer.cpp:37-84 | With exact filters a row is left if and only if it takes part in the join of the original tables, unless that join is empty. |
| `BloomFilter.BuildFilter` | src/execution/operator/persistent/physical_create_bf.cpp:213-238 | The filter built batch by batch, and folded or not, tests exactly by the Bloom filter of the keys of the table, and accepts all of them. |
| `BloomFilter.BloomIsSafe` | src/optimizer/predicate_transfer/predicate_transfer_optimizer.cpp:105-170 | A builder whose filters are all built like this has no false negatives, which is what predicate transfer asks for. |
| `JoinTree.NoDanglingRow` | src/optimizer/predicate_transfer/predicate_transfer_optimizer.cpp:62-77 | In a reduced forest every row of every table extends to a joined row over all tables. |
| `BloomBits.FoldIsSmaller` | src/optimizer/predicate_transfer/bloom_filter/bloom_filter.cpp:182-242 | Folding gives, block for block, the filter of the smaller size that would have been built from the same hashes. |
| `BloomBits.NoFalseNegative` | src/include/duckdb/optimizer/predicate_transfer/bloom_filter/bloom_filter.hpp:119-123 | A hash that was inserted is found. |
| `BloomBits.FoundIff` | src/include/duckdb/optimizer/predicate_transfer/bloom_filter/bloom_filter.hpp:119-123 | A hash is found if and only if every bit of its mask is set in the mask of an inserted hash that has the same block number. |
| `BloomBits.SameFilter` | src/include/duckdb/optimizer/predicate_transfer/bloom_filter/bloom_filter.hpp:213-219 | The set of hashes determines the filter: order and repetition of inserts do not matter. |
| `BloomBits.BlockIdFolds` | src/include/duckdb/optimizer/predicate_transfer/bloom_filter/bloom_filter.hpp:236-242 | A block number in the large filter is the one in the small filter plus a whole number of slices. |
| `BloomFilter.BlockedBloomFilter.constructor` | src/optimizer/predicate_transfer/bloom_filter/bloom_filter.cpp:78-101 | An empty filter of the smallest power of two with eight bits per row and at least 512 bits. |
| `BloomFilter.BlockedBloomFilter.InsertOne` | src/include/duckdb/optimizer/predicate_transfer/bloom_filter/bloom_filter.hpp:213-219 | The filter is then the one built from one hash more. |
| `BloomFilter.BlockedBloomFilter.Insert` | src/optimizer/predicate_transfer/bloom_filter/bloom_filter.cpp:103-117 | The filter is then the one built from these hashes too. |
| `BloomFilter.BlockedBloomFilter.FindAll` | src/optimizer/predicate_transfer/bloom_filter/bloom_filter.cpp:137-159 | The selection vector holds exactly the rows that pass, in order, with and without prefetching. |
| `BloomFilter.SelectedIff` | src/optimizer/predicate_transfer/bloom_filter/bloom_filter.cpp:136-180 | A row is selected if and only if its hash is found. |
| `BloomFilter.SelectedAscending` | src/optimizer/predicate_transfer/bloom_filter/bloom_filter.cpp:136-180 | The selected rows come in order, each once. |
| `BloomFilter.BlockedBloomFilter.SingleFold` | src/optimizer/predicate_transfer/bloom_filter/bloom_filter.cpp:221-242 | The folded array is still the filter of the hashes inserted, at the smaller size. |
| `BloomFilter.BlockedBloomFilter.Fold` | src/optimizer/predicate_transfer/bloom_filter/bloom_filter.cpp:182-219 | Folding loses no hash and stops at the largest size, from the present one down to 16 blocks, at which the filter of the inserted hashes has a quarter of its bits set: at all larger sizes it would have fewer. Folding several times at once therefore gives what halving step by step would give. A filter that was made smaller has less than half of its bits set. |
| `BloomFilter.FoldsAtOnce` | src/optimizer/predicate_transfer/bloom_filter/bloom_filter.cpp:206-214 | The number of folds is the largest for which every size on the way was still to be folded, and does not pass the minimum. |
| `BloomFolding.SmallerHasFewer` | src/optimizer/predicate_transfer/bloom_filter/bloom_filter.cpp:182-242 | Of two filters of the same hashes the smaller one has no more bits set. |
| `BloomFolding.PopCountIs` | src/optimizer/predicate_transfer/bloom_filter/bloom_filter.cpp:196-200 | The count of a block is its number of bits: zero for no bit, and one more for each bit that is added. |
| `BloomFilter.FoldSlices` | src/optimizer/predicate_transfer/bloom_filter/bloom_filter.cpp:221-242 | The loop in place ors all slices into the first one. |
| `BloomFilter.PushNextBatch` | src/optimizer/predicate_transfer/bloom_filter/bloom_filter.cpp:321-385 | A batch sorted into partitions and inserted partition by partition gives the filter of all its hashes. |
| `BloomFilter.Unprocessed` | src/optimizer/predicate_transfer/bloom_filter/bloom_filter.cpp:356-362 | The list holds the partitions that are not empty, each once. |
| `BloomFilter.PartitionHolds` | src/optimizer/predicate_transfer/bloom_filter/bloom_filter.cpp:363-385 | Between the starts of two partitions stand exactly the hashes of the first one. |
| `PartitionSort.Sort` | src/include/duckdb/optimizer/predicate_transfer/bloom_filter/partition_util.hpp:44-68 | Counting sort in place: the ranges are the starts of the partitions and every row stands in its own slot. |
| `PartitionSort.SlotsDiffer` | src/include/duckdb/optimizer/predicate_transfer/bloom_filter/partition_util.hpp:63-67 | Different rows go to different slots. |
| `PartitionSort.SlotTaken` | src/include/duckdb/optimizer/predicate_transfer/bloom_filter/partition_util.hpp:63-67 | Every slot of a partition is taken by one of its rows. |
| `PartitionSort.Scatter` | src/include/duckdb/optimizer/predicate_transfer/bloom_filter/partition_util.hpp:63-67 | The last loop puts every hash into its slot and turns the starts into the starts of the next partition. |
| `HttpReader.HttpFile.Perform` | extension/httpfs/httpfs.cpp:381-504 | Every sequence of seeks, positioned reads and sequential reads inside the file gives what a plain file gives, with at most one request per call. |
| `HttpReader.ReadsGoOn` | extension/httpfs/httpfs.cpp:452-504 | On the plain file a read goes on where a seek or the last read left the position. |
| `HttpReader.HttpFile.Read` | extension/httpfs/httpfs.cpp:381-450 | A positioned read gives the bytes of the file, moves the offset behind them and keeps the buffer a mirror of the file. Bytes in the buffer are not asked for again; if some are missing there is one request, from the first missing byte on, for a whole buffer or for all that is wanted if that is more. |
| `HttpReader.HttpFile.Buffered` | extension/httpfs/httpfs.cpp:416-449 | The loop takes what is buffered, then makes one request, into the buffer or past it. |
| `HttpReader.HttpFile.ReadOn` | extension/httpfs/httpfs.cpp:452-458 | A sequential read stops at the end of the file and returns how much it read. |
| `HttpReader.HttpFile.GetRange` | extension/httpfs/httpfs.cpp:292-379 | A range request, with inclusive bounds as in section 14.1.2 of RFC 9110, fills exactly the bytes asked for. |
| `PipeReplay.DetectThenRead` | extension/json/buffered_json_reader.cpp:31-39 | Any sample reads, a reset, then any reads: the whole stream from its first byte, without a gap or repetition, however short the reads of the pipe are. |
| `PipeReplay.FileHandle.Read` | extension/json/buffered_json_reader.cpp:101-128 | A read after detection goes on where the last one stopped, first from the cache and then from the pipe. |
| `PipeReplay.FileHandle.ReadFromCache` | extension/json/buffered_json_reader.cpp:143-167 | The copy across the cached buffers gives the bytes from the position on, up to the end of the cache. |
| `PipeReplay.FileHandle.ReadInternal` | extension/json/buffered_json_reader.cpp:130-141 | Short reads are repeated until the request is met or the pipe is empty. |
| `KeyMatch.Match` | extension/httpfs/s3fs.cpp:995-1018 | True if and only if the key can be cut into consecutive blocks, one per pattern segment: one matching segment for an ordinary one, any number for `**`, at least one for a final `**`. |
| `KeyMatch.MatchAt` | extension/httpfs/s3fs.cpp:995-1018 | The same for every pair of suffixes the recursion reaches. |
| `KeyMatch.MatchesIff` | extension/httpfs/s3fs.cpp:995-1018 | The recursive matching relation holds if and only if such a cut exists. |
| `JsonPathWildcard.SelectedIffFits` | extension/json/json_common.cpp:236-301 | A place in the document is selected if and only if it fits the path step by step. |
| `JsonPathWildcard.AllAscending` | extension/json/json_common.cpp:236-301 | The selected places come in document order, none twice. |
| `JsonPathWildcard.NoWildcardSelectsOne` | extension/json/json_common.cpp:185-308 | A path without wildcards selects the value that GetPath finds, and nothing else. |
| `JsonPathWildcard.Collect` | extension/json/json_common.cpp:236-301 | The recursive traversal returns the values at all selected places, in that order. |
| `JsonPathWildcard.CollectChildren` | extension/json/json_common.cpp:236-301 | The loop over the children of one value collects for each of them what the rest of the path selects. |
| `JsonPath.ValidatePath` | extension/json/json_common.cpp:145-183 | Accepts exactly the paths that have tokens, says whether one is a wildcard, and reports the rest, including the paths on which the source reads past the end. |
| `JsonPath.GetPath` | extension/json/json_common.cpp:185-234 | On every validated path without wildcards the loop returns what following the tokens one by one gives. |
| `JsonPathGrammar.ReadAsSpelled` | extension/json/json_common.cpp:81-183 | A path is read as these tokens if and only if it is written as one after the other: quoted and unquoted keys, indices from the front or the back of one to nineteen digits, a lone hash, wildcards. |
| `JsonPathGrammar.PlainKey` | extension/json/json_common.cpp:44-50 | An unquoted key is the whole text up to the next dot or bracket, and the rest is read as a path of its own. |
| `JsonPathGrammar.BackIndex` | extension/json/json_common.cpp:105-143 | A minus sign, with or without a hash, counts from the back. |
| `JsonPathGrammar.HashSelectsNothing` | extension/json/json_common.cpp:115-124 | A lone hash stands for a place behind the end and selects nothing. |
| `JsonPathGrammar.TakesIff` | extension/json/json_common.cpp:185-301 | Which child a token takes: the first field of that name, the element at that place from the front or the back, or any. |
| `JsonPathGrammar.EvalOne` | extension/json/json_common.cpp:185-234 | No token selects the value itself, and one token the field or element it takes. |
| `JsonPathGrammar.EvalJoin` | extension/json/json_common.cpp:185-234 | A path is followed piece by piece: what two paths behind each other select is what the second selects in what the first does. |
| `JsonPathGrammar.BeforeIff` | extension/json/json_common.cpp:236-301 | One place comes before another in the document if and only if it is the smaller one where they first differ. |
| `JsonPath.TokenizeRest` | extension/json/json_common.cpp:145-183 | The rest of a validated path is a validated path, so the evaluators stay inside it and never meet an unknown character. |
| `JsonPath.ScanString` | extension/json/json_common.cpp:33-52 | The loop stops at the closing quote or before the next token. |
| `JsonPath.ScanInteger` | extension/json/json_common.cpp:54-79 | The loop reads the digits up to the bracket and their value, or gives up. |
| `JsonPath.NextKey` | extension/json/json_common.cpp:81-103 | Key, quoted key or wildcard, and where the next token starts. |
| `JsonPath.NextIndex` | extension/json/json_common.cpp:105-143 | Index from the front or from the back or wildcard, and where the next token starts. |
| `JsonPathText.RoundTrip` | extension/json/json_common.cpp:145-183 | The path written for a sequence of tokens is read back as these tokens if and only if no key is empty or has a quote in it and no index has more than nineteen digits. |
| `JsonPathText.OverrunIff` | extension/json/json_common.cpp:54-143 | Reading a path runs over its end if and only if it comes to an index whose nineteen digits end the path. |
| `JsonPathText.StrictIff` | extension/json/json_common.cpp:54-143 | A path that is not refused is read as by a reader that looks for the bracket of every index, if and only if reading never comes to an index with nineteen digits and no bracket behind them. |
| `JsonPathText.IndexClosedIff` | extension/json/json_common.cpp:105-143 | An index that is read is closed by a bracket if and only if it does not have nineteen digits without one. |
| `JsonPathText.NeverRunsOver` | extension/json/json_common.cpp:54-143 | Paths whose numbers have at most 18 digits are always read like this, and never run over. |
| `JsonPathText.RunsOver` | extension/json/json_common.cpp:54-143 | With 19 digits at the end the reader steps over the end of the path. |
| `JsonPathText.UnclosedIndexAccepted` | extension/json/json_common.cpp:54-143 | With 19 digits and no bracket the path is accepted all the same. |
| `TimeBucket.MicrosBucket` | extension/icu/icu-timebucket.cpp:64-76 | For every time, origin and positive width the result b is the bucket: b <= ts < b + width and b - origin a multiple of width, through milliseconds, carries of either sign and the units of the calendar. |
| `TimeBucket.DayBucket` | extension/icu/icu-timebucket.cpp:78-95 | The day bucket is right if and only if the time is not just below a boundary seen from an origin off the millisecond grid, and else it is the next one; from an origin on the grid it is always right; it is out of range exactly if the day count leaves 32 bits. Both assertions hold if and only if the time is neither seen late nor at or just below a boundary before the origin; on the grid, if and only if it is not a negative time on or after the origin in the last millisecond of a bucket. |
| `TimeBucket.Assertions` | extension/icu/icu-timebucket.cpp:87-92 | The truncated day count either needs no step back, or one step for a time that is before the origin and not on the start of a bucket, if and only if the time is neither seen late nor at or just below a boundary before the origin. |
| `TimeBucket.OriginFails` | extension/icu/icu-timebucket.cpp:78-95 | For every width and every origin that is two or more microseconds off the grid there is a negative time, at most one bucket and a microsecond below the smaller of the origin and zero, that is just below a boundary; if the origin has 64 bits, it is in range. |
| `TimeBucket.LateBucket` | extension/icu/icu-timebucket.cpp:78-95 | At that time a bucket is returned, and it starts after the time. |
| `TimeBucket.AssertionFails` | extension/icu/icu-timebucket.cpp:87-89 | From every origin on the grid that is a whole bucket or more before the epoch there is a time in range at which the first assertion fails. |
| `TimeBucket.NoAssertionFails` | extension/icu/icu-timebucket.cpp:87-92 | From every other origin on the grid the assertions fail at no time. |
| `TimeBucket.Quotient` | extension/icu/icu-datesub.cpp:37-40 | The day quotient computed from truncated milliseconds is the right one, one too many or two too many, and two too many exactly for these times. |
| `TimeBucket.DefaultOrigin` | extension/icu/icu-timebucket.cpp:22 | The default origin is positive and on the millisecond grid. |
| `TimeBucket.OnlyOneBucket` | extension/icu/icu-timebucket.cpp:64-76 | A time has one bucket only. |
| `TimeBucket.AddInterval` | extension/icu/icu-dateadd.cpp:56-118 | Days and microseconds are added exactly, with carries of either sign. |
| `TimeBucket.CalendarAddHour` | extension/icu/icu-dateadd.cpp:35-53 | Hours beyond 32 bits are added in portions that sum up to the hours asked for. |
| `TimeBucket.Calendar.FieldDifference` | extension/icu/icu-datefunc.cpp:147-156 | So many whole units lie between two times, and less than one more, counted toward zero. |
| `TimeBucket.OnlyOneQuotient` | extension/icu/icu-datefunc.cpp:147-156 | Only the truncated quotient has that property. |
| `JsonSerde.RoundTrip` | extension/json/json_deserializer.cpp:98-144 | For every typed value tree: reading back what was written gives the same tree if and only if in every list the nulls come last. |
| `JsonSerde.EncodeShows` | extension/json/json_serializer.cpp:6-163 | The text written shows the value, member by member under its own tag, whatever the schema calls it. |
| `JsonSerde.SignedRead` | extension/json/json_deserializer.cpp:157-211 | A signed number is read from a number of either sign, as the one number of its width that differs from it by a multiple of the range, and from nothing else. |
| `JsonSerde.UnsignedRead` | extension/json/json_deserializer.cpp:165-219 | An unsigned number is read in the same way, from a number without a sign only. |
| `JsonSerde.MembersRead` | extension/json/json_deserializer.cpp:27-45 | The members of an object are read if and only if for each property the first member with its tag can be read, whatever the order and whatever else the object holds. |
| `JsonSerde.NullHidesTheNext` | extension/json/json_deserializer.cpp:123-141 | A null pointer in front of another object in a list: the null is looked at but not consumed, and the object is lost. |
| `JsonSerde.Stuck` | src/include/duckdb/common/serializer/deserializer.hpp:229-241 | From the first null on the reader of a list sees nothing but null. |
| `JsonSerde.PushInto` | extension/json/json_serializer.cpp:6-20 | Pushing into a container that was just attached is the same as attaching the fuller container. |
| `JsonSerde.Writer.Write` | extension/json/json_serializer.cpp:6-103 | Writing a value adds its text to the innermost container and restores the stack. |
| `JsonSerde.Writer.Enter` | extension/json/json_serializer.cpp:48-67 | A container is attached to its parent first and becomes the innermost one. |
| `JsonSerde.Writer.WriteHuge` | extension/json/json_serializer.cpp:156-163 | A 128-bit integer is written as an object of its two halves. |
| `JsonSerdeReader.Reader.Read` | extension/json/json_deserializer.cpp:27-144 | Reading takes the next value of the innermost container and leaves the rest of the stack as it was. |
| `JsonSerdeReader.Reader.OnNullableBegin` | extension/json/json_deserializer.cpp:123-141 | The look ahead says whether a value is there and consumes nothing. |
| `JsonSerdeReader.Reader.GetNextValue` | extension/json/json_deserializer.cpp:27-53 | The search through the members, or one step of the array iterator: the first member with the current tag without moving, or the next element and one place further; nothing for a missing tag or at the end. |
| `JsonSerdeReader.SaveAndLoad` | extension/json/json_deserializer.cpp:98-144 | Writer and reader together return the value written if and only if in every list the nulls come last. |

## Left out

- The JSON parser behind the scan: a unit is recorded as its trimmed text; the carry-over scan takes an arbitrary predicate that says which texts are valid.
- Scan options and formats: reading with insitu padding tricks, `ignore_errors`, format detection, several files at once, projection and error line numbers.
- `JsonText.PreviousNewline`: what stands in front of a buffer without a newline is not modelled; the search says that it has left the buffer, and the step system makes that an error.
- Order of memory accesses: a step of the two protocols is one locked section or one access; weaker orders of atomic counters are not modelled. Condition variables are modelled by the conditions they wait for, so a wake-up lost by `notify_one` is not covered.
- HTTP transport, retries, request signing and the completion response; a fetch gives the bytes asked for, an upload succeeds or fails.
- S3 handles with several writers, writes after `FileSync` or `Close`, and more than 65535 parts.
- Predicate transfer for joins other than inner equi-joins, null keys, the choice between filters and hash tables, and the statistics that estimate cardinalities.
- `RobustTransfer.ReduceQuery`: that nothing but result rows is left is stated for exact filters; Bloom filters may leave others, and how many is a question of probability.
- `CyclicQuery.ForestSufficesIff`: takes the conditions between two tables to be those of the attributes they share, as they are once equalities have been closed under transitivity.
- `JoinOrder.FindEdge`: which of several equally good edges is taken depends on the order of a hash set in the source; here it may be any of them.
- Bloom filters: generation of the masks, the variants for vector instructions, 16-bit partition ranges (batches have at most 32768 rows), and inserts by several threads beyond their independence of order.
- `TimeBucket.MicrosBucket`: does not model the overflow errors of 64-bit timestamps, because they only end the computation.
- Time zones, daylight saving time and months, which live in the calendar library; days are days of UTC.
- `JsonSerde.RoundTrip`: blobs, floating-point numbers as text, strings with a NUL character and the options that skip empty lists and objects are not modelled.
- The pattern language inside one key segment is a parameter of `KeyMatch.Match`.
- List and table ranges of timestamps, URL encoding and decoding, and IP addresses.
- Everything else in the repository: SQL front end, planner, storage, Parquet, full-text search, autocomplete and the build scripts.
