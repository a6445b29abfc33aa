# An online FTRL learner on a parameter server: models and proofs

The repository trains click models online. A parser turns log lines into samples and hands
them in batches to learners; a learner pulls weights from a sharded parameter server, predicts,
and pushes gradients; the servers run FTRL-Proximal. This project models the parts of that
program whose correctness is not obvious from reading them, and proves what they are for.

* **CRC-32C** (`Words`, `Crc32c`, `Slicing`, `ByteTables`, `Crc32cSw`, `Gf2`, `Crc32cHw`,
  `Crc32cCheck`, `Crc64`, `Crc64Poly`, `Crc64Check`). The meaning is one bit at a time (CRC32C,
  section 12.1 of RFC 3720), fixed by the example values of that standard. The generated tables,
  slicing-by-8, the GF(2) matrices built by repeated squaring and the three-way split are each
  proved equal to the layer below, for every buffer, length and alignment. The two CPU
  instructions are defined as one and eight byte steps. crc64 is polynomial division for tables
  generated from any 64-bit polynomial.
* **Key-value store** (`KvData`, `Slicer`, `SlicerMeaning`, `PullMerge`, `MergeChecks`, `KvWire`,
  `KvStore`, `KvProtocol`, `Arrangement`, `KvInvariant`, `KvSteps`, `KvRuns`, `KvDelivery`,
  `KvRefinement`, `KvUnwaited`, `KvNode`). A worker, n servers and an unordered bag of messages
  form a step system. An invariant holds in every reachable state with any number of requests
  outstanding. When each request is waited for, the n servers are one map; when not, every key
  still gets every push exactly once, and every pull reads what the pushes served before it left.
* **FTRL** (`FtrlCell`, `FtrlServer`, `FtrlSharded`). Incremental updates of W, Z and N give the
  exact minimiser of the cumulative regularised objective (Algorithm 1 of McMahan et al., Ad Click
  Prediction, KDD 2013), and so is every weight pulled from n servers.
* **Batching** (`Batching`, `Delivery`, `ParserBuffers`, `MessageText`, `FeatureText`,
  `MessageParse`, `MessageFields`, `LearnerMath`, `LearnerUpdate`, `Handoff`, `Fleet`,
  `Pipeline`). Texts become messages, messages fill the parser's buffers, the parser's thread
  hands them to all learners' threads under every interleaving, and each learner updates;
  together, no accepted sample is lost or used twice, and every flush becomes the right push.
* **Shared arrays and text** (`SharedArray`, `StringUtil`, `Decimal`, `Checkpoint`, `Ini`,
  `IniBuffer`, `IniErrors`, `IniRoundTrip`, `IniLines`). SArray as a sequence with shared memory,
  the string helpers, the model file written and read back, and the INI parser on its line buffer.

Where the source changes state in place the model is a method or a class over arrays, maps and
sequences, and its contract ties it to a function; the lemmas are about those functions.

Assumptions: the response counter of a request is raised after `Process` returns (it is
compared with `num_servers() - 1`), server ranges are contiguous and begin at or below every
key, and keys lie below the last range end. `float` is modelled as real, `std::sqrt` as any
function with non-negative square roots, `sigmoid`, `atoi`, `atof`, `lexical_cast` and printf's
rounding as parameters with their defining properties.

What turned out different from what one might expect:

* `DefaultSlicer` drops keys below the first range without a failed CHECK (`Conservation`), and
  with per-key lengths then cuts the values from the wrong place, unless those keys have none
  (`MisalignedBelowFirstRange`, `CutRightIff`, `SliceRightIff`).
* `append` and `CopyFrom` read their source after `resize` has cleared memory that the source may
  lie in, so they are right exactly if nothing they read was cleared (`AppendRightIff`,
  `CopyRightIff`; not so in `AppendTail` and `CopyMiddle`). An array appended to itself copies twice
  its length and can leave its memory (`SArray.Append`, `AppendSix`).
* A segment that shrinks and grows again before it moves overwrites its parent, and no other use
  of it does (`ParentKeptIff`, `ShrinkThenGrow`).
* `parse_sample_0` and `parse_sample_1` read the mark, and the latter two sections, without
  checking that they are there (`ImpressionMark`, `ReadBehaviour`, `MarkMissing`,
  `ImpressionMissing`), and copy a sample's features without checking that they fit
  (`ParserBuffers.Parser.Process`).
* `caculate_gradient` puts a key through an `int`: all keys from 2^31 on are misplaced, but for
  the top 2^31 ones (`PositionRightIff`, `LargeKeyMisplaced`); `extract_feature` never produces
  such keys.
* `LoadModel` takes the first line for the bias whatever its key, so a dump comes back intact
  exactly if it holds key 0 or nothing (`DumpThenLoad`).
* The INI parser counts the pieces that fgets delivers, so the number of an error is that of its
  line exactly if all lines in front of it are shorter than 4096 characters, line end included
  (`ErrorIsLineNumberIff`, `ChunksAreFileLines`, `LongCommentIsAnError`), and it cuts the name that
  continuation lines are filed under (`ContinuedUnderOwnKey`).
* The INI parser takes a comment behind an empty value for the value (`IniLines.PairLaidOut`).
* A worker does not compare the lengths in an answer with its keys when it takes the answer, as a
  server does with a request (`KvWire.ServerRoundTrip`, `WorkerRoundTrip`).
* The slicing recurrence alone does not make a CRC table right (`RecurrenceAloneFails`).
* The reset branches compare the text of `"%H:$M"` or `"$M"` with digits and never run,
  because that text keeps its dollar sign.
* `count` returns the number of pieces, one more than there are delimiters, so the parser's
  test for fewer than one line is never true.

## Model

| member | source | states |
|---|---|---|
| Crc32c.BitStepXor | deps/librdkafka-master/src/crc32c.c:69-76 | one bit step of the register is linear over xor |
| Crc32c.StateConcat | deps/librdkafka-master/src/crc32c.c:97-134 | running over A and then B is one run over A followed by B |
| Crc32c.Combine | deps/librdkafka-master/src/crc32c.c:290-291 | state(A followed by B) is state(A) pushed through as many zero bytes as B has, xor the state of B alone: the fact that the three-way split rests on |
| Crc32c.Chaining | deps/librdkafka-master/src/crc32c.c:94-134 | checksumming a buffer in two calls, the first result passed to the second, gives the checksum of the whole buffer |
| Crc32cCheck.ZeroByte | deps/librdkafka-master/src/crc32c.c:63-92 | the CRC-32C of one zero byte is 0x527d5351: this fixes the polynomial and the inversions |
| Crc32cCheck.IncreasingBytes | deps/librdkafka-master/src/crc32c.c:94-134 | the CRC-32C of the bytes 0 to 31 is 0x46dd794e, the example of section B.4 of RFC 3720 |
| Crc32cSw.InitSw | deps/librdkafka-master/src/crc32c.c:69-92 | after both passes every entry [k][b] of the 8x256 table is byte b pushed through itself and k zero bytes |
| Crc32cSw.RowMeaning | deps/librdkafka-master/src/crc32c.c:85-91 | row k of the table is the bitwise register after the byte and k zero bytes |
| Slicing.SliceWordIsRun | deps/librdkafka-master/src/crc32c.c:107-128 | eight lookups on a loaded quadword are eight single byte steps, for any linear table |
| Slicing.SliceWordUnrolled | deps/librdkafka-master/src/crc32c.c:118-126 | the same sum in the order the source writes its eight lookups |
| Slicing.RunConcat | deps/librdkafka-master/src/crc32c.c:97-134 | the 64-bit register runs over concatenated data piece by piece |
| Crc32cSw.WidenedRun | deps/librdkafka-master/src/crc32c.c:97-134 | the 64-bit register of the table loop holds the bitwise 32-bit register, zero-extended |
| Crc32cSw.CrcSw | deps/librdkafka-master/src/crc32c.c:97-134 | slicing-by-8 returns the bit-at-a-time CRC-32C for every start value, buffer, length and address |
| Gf2.TimesIsOperator | deps/librdkafka-master/src/crc32c.c:144-156 | multiplying by a matrix whose rows are the images of the unit words applies the linear operator they come from |
| Gf2.MatrixTimes | deps/librdkafka-master/src/crc32c.c:144-156 | the loop computes that product, for every 32-row matrix and vector |
| Gf2.AppendsTimes | deps/librdkafka-master/src/crc32c.c:144-156 | for a matrix that appends n zero bits the product is n bit steps of the register |
| Gf2.SquareDoubles | deps/librdkafka-master/src/crc32c.c:158-166 | the square of a matrix that appends n zero bits appends 2n |
| Gf2.MatrixSquare | deps/librdkafka-master/src/crc32c.c:160-166 | the loop leaves the square of any matrix in its target, row by row |
| Gf2.OneZeroBit | deps/librdkafka-master/src/crc32c.c:173-185 | the initial matrix (polynomial, then shifted unit rows) appends one zero bit |
| Gf2.FloorPow2Bounds | deps/librdkafka-master/src/crc32c.c:190-207 | the number of bytes reached by doubling is the largest power of two not above len |
| Gf2.ZerosOp | deps/librdkafka-master/src/crc32c.c:168-208 | repeated squaring terminates and leaves, in `even`, the operator that appends that many zero bytes (one byte for len 0) |
| Crc32cHw.Zeros4 | deps/librdkafka-master/src/crc32c.c:210-224 | four byte tables of that operator |
| Crc32cHw.Shift | deps/librdkafka-master/src/crc32c.c:226-231 | four lookups apply the operator to every 32-bit value |
| Crc32cHw.InitHw | deps/librdkafka-master/src/crc32c.c:233-252 | the tables for LONG and SHORT append exactly 8192 and 256 zero bytes |
| Crc32cHw.Streams | deps/librdkafka-master/src/crc32c.c:279-289 | three registers run in one loop each hold the state of their own third |
| Crc32cHw.Recombine | deps/librdkafka-master/src/crc32c.c:290-291 | three states, shifted and xored as in the source, are the state of the three blocks in a row |
| Crc32cHw.ThreeBlocks | deps/librdkafka-master/src/crc32c.c:278-315 | one three-way step equals running over the three blocks one after the other |
| Crc32cHw.CrcHw | deps/librdkafka-master/src/crc32c.c:254-338 | LONG blocks, SHORT blocks, words and bytes together return the bit-at-a-time CRC-32C, for every start value, buffer, length and alignment; hence the same as `CrcSw` |
| Crc64.RowIsExtended | src/io/parser.cpp:27-49 | in any tables with the slicing recurrence row k looks a byte up and pushes it through k zero bytes; nothing else is asked of them |
| Crc64.Compute | src/io/parser.cpp:27-49 | the quadword loop equals the byte-at-a-time loop, for any linear table with that recurrence |
| Crc64.RecurrenceAloneFails | src/io/parser.cpp:33-42 | the recurrence alone is not enough: a table that has it without being linear gives different results for eight zero bytes |
| Crc64Poly.GeneratedIsLinear | src/io/parser.cpp:27-49 | tables generated from any 64-bit polynomial, eight bit steps for row 0 and the recurrence for the others, are what crc64 needs |
| Crc64Poly.RunIsDivision | src/io/parser.cpp:44-46 | over such tables the byte loop is polynomial division one bit at a time |
| Crc64Poly.ComputeFrom | src/io/parser.cpp:27-49 | so crc64 returns the remainder of that division, for every polynomial and buffer |
| Crc64Poly.PolynomialAt128 | src/utils/util.cpp:8 | a generated table holds its polynomial at entry 128 of row 0 |
| Crc64Check.TableEntries | src/utils/util.cpp:8 | tables generated from the polynomial at entry 128 have the program's own words at entry 1 of rows 0 and 1 |
| Crc64Check.NineBytes | src/io/parser.cpp:27-49 | with that polynomial the bytes of "123456789" give the check value 0xe9c6d914c4b8d9ca |
| Slicer.DefaultSlicer | deps/include/ps/kv_app.h:410-465 | no CHECK fails exactly when the ranges are contiguous, no key lies at or above the last end and the value sizes fit; then slice i is cut between the positions of range i |
| Slicer.FindPositions | deps/include/ps/kv_app.h:415-433 | the running lower_bound finds the position of every range end |
| Slicer.CutLoop | deps/include/ps/kv_app.h:445-464 | the running value cursor gives every slice its own values |
| SlicerMeaning.SliceIsFilter | deps/include/ps/kv_app.h:410-465 | server i is sent exactly the keys of its range with their values, in order, and is skipped exactly if there are none; with per-key lengths provided that the keys below the first range have no values |
| SlicerMeaning.CutRightIff | deps/include/ps/kv_app.h:452-460 | with per-key lengths the value cursor stands where the keys' values are if and only if the keys below the first range have none |
| SlicerMeaning.SliceRightIff | deps/include/ps/kv_app.h:452-460 | for distinct values, a slice that carries values is right under exactly that condition |
| SlicerMeaning.Conservation | deps/include/ps/kv_app.h:410-465 | for any list whose sizes fit, with or without lengths, the slices together are the whole list if and only if no key lies below the first range |
| SlicerMeaning.OneServer | deps/include/ps/kv_app.h:410-433 | every covered key has exactly one server |
| SlicerMeaning.MisalignedBelowFirstRange | deps/include/ps/kv_app.h:452-460 | with per-key lengths and a key below the first range no CHECK fails, yet a key is sent another key's value |
| PullMerge.FindRangeOfSegment | deps/include/ps/sarray.h:281-287 | the size check with back()+1 succeeds exactly when the last key is not the largest 64-bit value |
| PullMerge.SortSorts | deps/include/ps/kv_app.h:569-572 | sorting by first key sorts and permutes |
| PullMerge.Merge | deps/include/ps/kv_app.h:553-604 | the callback body fails exactly when one of its CHECKs does, and otherwise delivers values and lengths of the sorted replies, joined |
| PullMerge.MergeRebuilds | deps/include/ps/kv_app.h:553-604 | for replies that cover the requested keys, in any order, no CHECK fails and sorting restores the order of the keys |
| MergeChecks.ChecksMean | deps/include/ps/kv_app.h:553-604 | replies that list requested keys in order, none twice, pass the CHECKs if and only if together they answer every requested key, have a length per key if lengths are wanted, and the caller's buffers have the right sizes |
| Arrangement.CompleteByCount | deps/include/ps/kv_app.h:472-480 | distinct answering servers are all of them exactly when, with the skipped ones, they number n |
| Arrangement.PullCompletes | deps/include/ps/kv_app.h:553-604 | once every server that takes part has answered, in any order, the caller gets the values in key order |
| Arrangement.PullDeliversAnyWidth | deps/include/ps/kv_app.h:553-604 | also for values of any width, with or without lengths and with the caller's own buffers: every key's values and their number, in key order |
| KvWire.ServerRoundTrip | deps/include/ps/kv_app.h:363-388 | KVServer::Process reads a list as it was sent if and only if its lengths, if any, match its keys and a list without keys has nothing else; its CHECK fails exactly for lengths that do not match |
| KvWire.WorkerRoundTrip | deps/include/ps/kv_app.h:391-526 | KVWorker::Process reads every answer as it was sent, whatever its lengths, and stores nothing for an empty one |
| KvWire.BlocksChecked | deps/include/ps/kv_app.h:363-526 | which numbers of data blocks fail a CHECK on either side |
| KvWire.Send | deps/include/ps/kv_app.h:467-504 | for any list with unique increasing keys Send fails exactly if the slicer does, and otherwise sends every non-empty slice to its server and counts the others |
| KvWire.EverythingArrives | deps/include/ps/kv_app.h:363-504 | sliced, sent and read, a list has reached the servers pair by pair if and only if no key lies below the first range |
| KvDelivery.SendIsOutgoing | deps/include/ps/kv_app.h:467-504 | what the protocol puts in flight for a request is what the servers read from the messages that Send makes of its list, and the servers it counts as skipped are those without a message |
| KvDelivery.QuestionsArrive | deps/include/ps/kv_app.h:363-388 | in every reachable state each question in flight is read by its server as it was sent |
| KvDelivery.AnswersArrive | deps/include/ps/kv_app.h:507-531 | and each answer to a pull in flight is kept by the worker as it was sent |
| KvDelivery.ProcessIsProcessWire | deps/include/ps/kv_app.h:507-531 | processing the message of an answer is the protocol's processing of the answer, and no CHECK on its shape fails |
| KvStore.PushAllAt | deps/include/ps/kv_app.h:336-358 | a push with distinct keys changes each pushed key once and no other |
| KvStore.PullAllAt | deps/include/ps/kv_app.h:336-358 | a pull creates its keys and changes no value |
| KvStore.PushShard | deps/include/ps/kv_app.h:336-358 | pushing a range's part on the range's part of a store gives the range's part of the whole result |
| KvNode.KVServerDefaultHandle.Call | deps/include/ps/kv_app.h:336-358 | the in-place loop is that push or pull on the store; it fails exactly when a push has not one value per key |
| KvNode.KVWorker.Issue | deps/include/ps/kv_app.h:467-504 | registering, slicing, counting skipped servers and sending, tied to the protocol's Send step |
| KvNode.KVWorker.Process | deps/include/ps/kv_app.h:507-531 | storing an answer and running the callback with the last one, tied to the protocol's Receive step |
| KvNode.KVWorker.RunCallback | deps/include/ps/kv_app.h:532-546 | the callback runs once and is erased; a pull's callback delivers and drops what was received |
| KvInvariant.CallbackRuns | deps/include/ps/kv_app.h:532-609 | running the callback of a complete request passes all CHECKs, delivers what was read and leaves nothing behind |
| KvSteps.StepKeepsInv | deps/include/ps/kv_app.h:467-609 | every step of worker, servers and network keeps the protocol invariant, for any number of outstanding requests |
| KvRuns.RunKeepsInv | deps/include/ps/kv_app.h:467-609 | the invariant holds in every reachable state |
| KvRuns.NoCheckFails | deps/include/ps/kv_app.h:511-609 | no CHECK of the worker fails in any run |
| KvRuns.CallbackOnce | deps/include/ps/kv_app.h:471-546 | a callback runs at most once, and has run exactly when skipped servers plus distinct processed answers number n (also when all servers are skipped) |
| KvRuns.LastAnswerCompletes | deps/include/ps/kv_app.h:515-530 | when the last answer of a pull is processed, the received list holds the slice of every server that takes part exactly once |
| KvRuns.PullDelivers | deps/include/ps/kv_app.h:548-609 | a pull has a result exactly when it is finished, and it is what the servers read |
| KvRuns.SomeStepEnabled | deps/include/ps/kv_app.h:467-531 | while a request is unfinished some server or the worker can take a step |
| KvRuns.StepTakesWork | deps/include/ps/kv_app.h:467-531 | every such step takes one off a finite amount of work, so every request finishes |
| KvRuns.CanFinish | deps/include/ps/kv_app.h:467-531 | from every reachable state all requests issued so far can be finished, in exactly the remaining work, without new requests |
| KvRuns.FinishedIffQuiet | deps/include/ps/kv_app.h:467-531 | all requests are finished exactly when nothing is in flight |
| KvRefinement.PartApplied | deps/include/ps/kv_app.h:336-358 | a server that is sent its part ends with its part of the whole request's effect |
| KvRefinement.PartSkipped | deps/include/ps/kv_app.h:476-480 | a server that is sent nothing had nothing to change |
| KvRefinement.WaitedRunsAgree | deps/include/ps/kv_app.h:155-166 | in every run where each request is waited for, each server holds its part of one store, before or after the last request |
| KvRefinement.ShardedPullIsOnePull | deps/include/ps/kv_app.h:336-609 | each finished pull of such a run has returned exactly what one unsharded server returns |
| KvRefinement.ServersHoldOneStore | deps/include/ps/kv_app.h:336-609 | when nothing is outstanding each server holds exactly its range of the one store |
| KvRefinement.EveryKeyHasItsServer | deps/include/ps/kv_app.h:336-609 | and each key of the one store is at exactly the server of its range |
| KvRefinement.DefaultAdds | deps/include/ps/kv_app.h:350-351 | the default handle adds up what is pushed, also for repeated keys |
| KvRefinement.PullReturnsSums | deps/include/ps/kv_app.h:336-609 | with the default handle a pull returns, for each key, the sum of all values pushed to it before |
| KvUnwaited.CellsFollowServing | deps/include/ps/kv_app.h:336-388 | also if requests are not waited for, in every reachable state each cell is the result of exactly the pushes to its key that its server has served, each once, in the order of the run's serve steps |
| KvUnwaited.QuietCells | deps/include/ps/kv_app.h:336-388 | so once nothing is in flight every cell is the result of all pushes to its key, each exactly once, in the order of the serve steps |
| KvUnwaited.QuietServersHoldSums | deps/include/ps/kv_app.h:350-351 | with the default handle the servers then hold, for every key, the sum of all values pushed to it, whatever the order |
| KvUnwaited.DeliveredReads | deps/include/ps/kv_app.h:336-609 | and each value a finished pull delivers, waited for or not, is what the pushes left that the key's server had served, in that order, at the step at which it served the pull |
| SharedArray.SArray.Resize | deps/include/ps/sarray.h:173-189 | the elements are cut or extended by the fill value; in place only the entries behind the old elements are written, otherwise the old memory is untouched |
| SharedArray.SArray.Reserve | deps/include/ps/sarray.h:194-199 | room for n elements, the same elements, and the old memory untouched |
| SharedArray.SArray.PushBack | deps/include/ps/sarray.h:226-229 | appends one element, writing at most one old entry |
| SharedArray.SArray.Append | deps/include/ps/sarray.h:233-238 | for any other array, sharing memory or not, and for the array itself: what is appended is what memcpy finds after resize has cleared the entries behind the old elements; appending an array to itself copies twice its length and stays in the memory exactly if that has room |
| SharedArray.SArray.AppendRightIff | deps/include/ps/sarray.h:233-238 | another array's own elements are appended if and only if no non-zero one of them lies where resize clears, in place |
| SharedArray.AppendTail | deps/include/ps/sarray.h:233-238 | an append that does not meet this: [1,2,3,4] shrunk to two elements and appended its own former tail becomes [1,2,0,0] |
| SharedArray.AppendSix | deps/include/ps/sarray.h:233-238 | six elements appended to themselves are copied beyond the memory |
| SharedArray.SArray.CopyFromPointer | deps/include/ps/sarray.h:98-101 | copying from a pointer, also into the same memory: what is copied is what resize has left there |
| SharedArray.SArray.CopyFrom | deps/include/ps/sarray.h:108-111 | the same from another array; from the array itself nothing happens |
| SharedArray.SArray.CopyRightIff | deps/include/ps/sarray.h:98-101 | the copy is right if and only if resize clears none of its non-zero elements |
| SharedArray.CopyMiddle | deps/include/ps/sarray.h:98-101 | a copy that does not meet this: elements [2,3] of the array's own memory arrive as [0,3] |
| SharedArray.SArray.Segment | deps/include/ps/sarray.h:248-255 | the same memory between two bounds, with capacity equal to its length; refused exactly for bad bounds |
| SharedArray.UseSegment | deps/include/ps/sarray.h:173-255 | whatever is pushed, popped, resized, reserved or appended on a fresh segment: its elements, and its parent's elements afterwards, as a function of the operations |
| SharedArray.ParentKeptIff | deps/include/ps/sarray.h:173-255 | every parent keeps its elements if and only if no operation grows the segment in place, after a shrink and before its first move |
| SharedArray.ShrinkThenGrow | deps/include/ps/sarray.h:173-189 | the shortest use that does not: shrinking a segment to nothing and growing it again zeroes the parent's element |
| FtrlCell.CurvatureSign | src/optimizer/ftrl.cpp:41-43 | the divisor is never zero when the code divides |
| FtrlCell.Totals | src/optimizer/ftrl.cpp:34-37 | N is the sum of the squared gradients, and the learning-rate terms add up to sqrt(N)/alpha, for any history of gradients and set_weight calls |
| FtrlCell.LossIsQuadratic | src/optimizer/ftrl.cpp:34-37 | the cumulative loss is z x + (sqrt(N)/alpha) x^2 / 2 plus a constant: Z and N hold all of it |
| FtrlCell.WeightGap | src/optimizer/ftrl.cpp:38-46 | beyond the computed weight the regularised quadratic grows at least like a parabola |
| FtrlCell.UpdateMinimises | src/optimizer/ftrl.cpp:27-48 | right after each update W minimises the cumulative regularised objective over the whole history |
| FtrlCell.UpdateUnique | src/optimizer/ftrl.cpp:27-48 | it is the only minimiser, except exactly when all gradients were zero and beta, lamda1 and lamda2 are zero |
| FtrlCell.SetAndCounted | src/optimizer/ftrl.cpp:27-73 | W is the value set last until the next gradient, and acc counts the gradients from 0, or from 1000000 behind the last set_weight |
| FtrlServer.Ftrl.NewWeight | src/optimizer/ftrl.cpp:38-46 | the branch on |Z| computes the weight of the cell |
| FtrlServer.Ftrl.UpdateKey | src/optimizer/ftrl.cpp:27-48 | one pass updates the cell of its key in the four maps and nothing else |
| FtrlServer.Ftrl.Update | src/optimizer/ftrl.cpp:16-49 | the loop is a push on the store of cells |
| FtrlServer.Ftrl.SetWeight | src/optimizer/ftrl.cpp:62-73 | sets weights and counters of the listed keys, keeps Z and N, raises the flag |
| FtrlServer.SetAllAt | src/optimizer/ftrl.cpp:62-73 | per key, set_weight is one event of the key's history with the last value listed, also for repeated keys |
| FtrlServer.SetThenPull | src/optimizer/ftrl.cpp:62-114 | a plain pull after set_weight reads the last value listed for each listed key and what it read before for every other; Z and N stay, and the counters of listed keys are 1000000 |
| FtrlServer.Ftrl.HandleRequest | src/optimizer/ftrl.cpp:75-114 | dispatch on push and command: fails exactly on a size mismatch; a plain push is a push on the store of cells, a plain pull reads it whatever the parameters are; a missing element is read exactly in an empty pull with command 1 and a push of under four values with command 2 |
| FtrlSharded.DisjointPushesCommute | src/optimizer/ftrl.cpp:27-48 | pushes to disjoint key sets can be served in either order |
| FtrlSharded.DisjointPushAndPullCommute | src/optimizer/ftrl.cpp:75-114 | a push and a pull of other keys leave the same store in either order, and the pull reads the same |
| FtrlSharded.DisjointRequestsCommute | src/optimizer/ftrl.cpp:75-114 | so any two requests with disjoint keys commute, in what they store and what they read |
| FtrlSharded.OneStoreReplays | src/optimizer/ftrl.cpp:27-48 | a key's cell is the replay of the gradients pushed for it |
| FtrlSharded.PullReturnsReplay | src/optimizer/ftrl.cpp:75-114 | n FTRL servers return the weight of the key's whole history |
| FtrlSharded.PulledWeightsMinimise | src/optimizer/ftrl.cpp:27-114 | every weight a worker pulls from n servers minimises the objective over exactly the gradients pushed for its key; zero if there were none |
| FtrlSharded.QuietWeightsMinimise | src/optimizer/ftrl.cpp:27-114 | waited for or not, once nothing is in flight every stored weight minimises the objective over all gradients pushed for its key, each once, in the order of the run's serve steps |
| FtrlSharded.DeliveredWeightsMinimise | src/optimizer/ftrl.cpp:27-114 | and each weight any pull delivers minimises the objective over the gradients its server had served for the key, in that order, when it served the pull |
| Batching.ProcessBounds | src/io/parser.cpp:276-361 | from at most 99 and 2000 waiting samples a call leads to at most 99 and 2000 again, and a flush has 100 to 2100 |
| Batching.RunBounds | src/io/parser.cpp:276-361 | so between any two calls, and for every flush of a run |
| Batching.NoImpressionDropped | src/io/parser.cpp:290-293 | the branch that drops impressions at 10000 is never taken |
| Batching.ParsedOnce | src/io/parser.cpp:151-157 | a line passes the duplicate filter exactly when no earlier line of its kind had its hash |
| Batching.EverythingDelivered | src/io/parser.cpp:295-359 | accepted samples, each kind in arrival order, are exactly those flushed plus those waiting; only behaviours beyond 2000 are dropped |
| Batching.NothingLostOrDuplicated | src/io/parser.cpp:295-359 | per learner, what was stored plus what waits is what was accepted with a label other than -1, with multiplicity |
| Delivery.DeliveredFrom | src/io/parser.cpp:276-361 | what was flushed and what waits are, per kind and in order, the samples of exactly the messages that are usable, the first with their hash and find room, each with all its features, its labels, and its rate raised to 0.00001 |
| Delivery.KeptIs | src/core/learner.cpp:168-183 | a learner keeps each sample whose own label is not -1, where it stands |
| Delivery.KeptFrom | src/core/learner.cpp:168-183 | what is kept for a learner comes, in order, from exactly those messages that have a label for it, with that label |
| Delivery.WaitingBounds | src/io/parser.cpp:290-325 | between calls at most 99 impressions and 2000 behaviours wait |
| Delivery.FlushesAtHundred | src/io/parser.cpp:337-360 | a call flushes exactly if it takes an impression and 100 samples wait with it; the flush is all of them, 100 to 2100 |
| ParserBuffers.Parser.IsNew | src/io/parser.cpp:151-157 | the hash map counts every line and reports the first |
| ParserBuffers.Parser.Put | src/io/parser.cpp:295-306 | stores a sample and one label per learner behind the buffered ones |
| ParserBuffers.Parser.Process | src/io/parser.cpp:276-361 | the two buffers, label tables and counters take exactly the step of the batching model and hand over its batch; a copy leaves its memory exactly if a taken sample has more than 1000 features |
| ParserBuffers.Parser.Drain | src/io/parser.cpp:340-357 | behaviours are appended to impressions, and every learner gets its own labels in the same order |
| FeatureText.ExtractFeature | src/io/parser.cpp:51-83 | the positive numbers behind the first field, in order; the first field is the rate |
| FeatureText.FeaturesAreSmall | src/io/parser.cpp:76-81 | features are at least 1 and below 2^31 |
| MessageFields.FeaturesAre | src/io/parser.cpp:51-83 | from a name, a colon and numbers joined by commas: the rate is the first number, the features come from the others |
| MessageFields.PositiveIs | src/io/parser.cpp:76-81 | each number that is at least 1 becomes a feature, where it stands, and no other does |
| LearnerUpdate.Learner.GetData | src/core/learner.cpp:168-183 | the stored batch is the order-preserving filter of the samples whose own label is not -1 |
| LearnerMath.SortUniqueIs | src/core/learner.cpp:217-219 | the key set is strictly increasing and has exactly the listed keys |
| LearnerMath.BatchKeysAre | src/core/learner.cpp:211-219 | the pushed and pulled keys are strictly increasing, begin with 0, and are 0 and the features |
| LearnerUpdate.Learner.CollectFeatures | src/core/learner.cpp:211-216 | the flat buffer holds 0 and all features in order |
| LearnerUpdate.Learner.PredictAll | src/core/learner.cpp:255-265 | each prediction is the sigmoid of the pulled weights of its features plus the bias |
| LearnerMath.PredictionMoves | src/core/learner.cpp:255-265 | the argument of sigmoid is 0 when all weights are, and moving the weight of one key by d moves it by d times the key's share: its occurrences, plus one for key 0 |
| LearnerUpdate.Learner.AddGradients | src/core/learner.cpp:267-278 | the loop computes the dense gradient |
| LearnerUpdate.Learner.Update | src/core/learner.cpp:207-253 | whatever W and P held before, the push is the sorted keys with the gradient of predictions made from this batch's pulled weights; an empty batch does nothing |
| LearnerMath.GradientEntries | src/core/learner.cpp:267-278 | grad[k] is the sum, over the samples, of pctr - label times the share that key k has in the sample's prediction |
| LearnerMath.GradientSign | src/core/learner.cpp:267-278 | if every sample that a key has a share in was predicted too low, its entry is not positive; if too high, not negative |
| LearnerMath.GradientTotal | src/core/learner.cpp:267-278 | the entries add up to the sum of (length + 1)(pctr - label) |
| LearnerMath.PositionRight | src/core/learner.cpp:224-227 | a key that survives the int finds its own position whatever stale positions there were |
| LearnerMath.PositionRightIff | src/core/learner.cpp:270-271 | from an empty position map a key finds its position if and only if it is below 2^31 or among the top 2^31 keys |
| LearnerMath.LargeKeyMisplaced | src/core/learner.cpp:270-271 | key 2^31 is added to the bias instead |
| LearnerMath.FlushFits | src/core/learner.cpp:67-68 | a flush needs at most 2100001 of 10000000 slots and its positions are below 2^24, exact in a float |
| LearnerMath.FullBufferSize | src/core/learner.cpp:67-68 | 10000 full samples would need 10000001 slots |
| Handoff.StepKeepsInv | src/core/learner.cpp:168-198 | every step of either thread keeps the hand-over invariant |
| Handoff.NeverBoth | src/core/learner.cpp:168-198 | sem_done + sem_ready + filling + updating is always 1, so the batch is never read while written |
| Handoff.ProcessedInOrder | src/core/learner.cpp:168-198 | in every interleaving the processed batches are a prefix of the delivered ones, filtered, at most one behind |
| Handoff.SomeStepEnabled | src/core/learner.cpp:168-198 | while the exit flag is clear, a step is enabled exactly until every batch is processed |
| Handoff.StepTakesWork | src/core/learner.cpp:168-198 | and every step takes one off a finite amount of work |
| Pipeline.BatchIsGoodRequest | src/core/learner.cpp:217-243 | a learner's pull and push are requests the key-value store promises to serve: distinct increasing covered keys, one value per key |
| Pipeline.ProcessText | src/io/parser.cpp:106-361 | one text through the parser object is the batching step of its message, unless a missing element is read or a taken sample has more features than memory |
| Pipeline.ParsedAreSmall | src/io/parser.cpp:76-81 | messages parsed from texts are what the results on flushes ask for if and only if none has more than 1000 features |
| Pipeline.EveryFlushFits | src/core/learner.cpp:207-219 | for any lines with at most 1000 features below 2^31, every flush of the run fits every learner's flat buffer, with exact positions and keys that survive the int |
| Pipeline.EveryFlushIsGoodRequest | src/core/learner.cpp:217-243 | and what a learner pulls and pushes for it is such a request |
| Pipeline.LearnFlush | src/core/learner.cpp:168-253 | from lines to a push: GetData and update on any flush of any run push the sorted keys of the samples with this learner's label and the gradient of their predictions; nothing exactly if there are none |
| Pipeline.LearnerSeesEverything | src/core/learner.cpp:168-198 | from any log lines and any interleaving, once the threads come to rest the learner has updated on exactly the accepted samples with its label, each once, except those waiting in the parser |
| Fleet.FlushesInTurn | src/io/parser.cpp:351-357 | in every interleaving of the parser with all learners, a flush reaches the learners one after the other, none more than one flush ahead, and only the one whose turn it is is filled |
| Fleet.EachInOrder | src/io/parser.cpp:351-357 | each learner's batch is never read while written, and its processed batches are a prefix of its flushes, filtered, at most one behind |
| Fleet.SomeMove | src/io/parser.cpp:351-357 | while the exit flag is clear some thread can go on exactly as long as some learner has a flush to process: the parser's waiting at one learner never blocks them all |
| Fleet.MoveTakesWork | src/io/parser.cpp:351-357 | every step takes one off a finite amount of work of all learners together |
| Pipeline.EveryLearnerSeesEverything | src/io/parser.cpp:351-357 | so behind the one parser thread every learner has seen everything once no thread can go on |
| Pipeline.EveryLearnerGetsItsMessages | src/io/parser.cpp:276-361 | what every learner has processed at rest, with what waits, is one sample for each message that arrives and has a label for it: all its features, its rate and that label |
| StringUtil.Trim | src/utils/string_util.h:12-30 | removes the blanks around a string |
| StringUtil.TrimmedIs | src/utils/string_util.h:12-30 | trimming removes blanks only, leaves none around, and changes nothing exactly if there were none |
| StringUtil.Count | src/utils/string_util.h:31-45 | count returns the number of pieces split returns |
| StringUtil.SplitLoop | src/utils/string_util.h:56-76 | the loop returns the trimmed pieces between delimiters |
| StringUtil.PieceCount | src/utils/string_util.h:31-76 | one piece more than there are delimiters, also for the empty string |
| StringUtil.JoinSplit | src/utils/string_util.h:56-76 | joining the pieces gives the string back if and only if no piece has blanks around it |
| StringUtil.SplitJoin | src/utils/string_util.h:56-76 | splitting joined pieces gives the pieces back if and only if none holds the delimiter or has blanks around it |
| StringUtil.LastState | src/utils/string_util.h:46-55 | returns what follows the last tab |
| MessageText.ImpressionMark | src/io/parser.cpp:106-151 | parse_sample_0 up to its mark, psid[4]: rejected exactly if a check fails, and read out of bounds exactly if the checks pass and the second section has fewer than four tabs |
| MessageText.ImpressionAd | src/io/parser.cpp:166-181 | behind the duplicate filter no read is out of bounds: every one is checked |
| MessageText.ReadBehaviour | src/io/parser.cpp:188-251 | parse_sample_1 checks the behaviour's line but not the impression's: imp[1], imp[3] or mk[4] is read out of bounds exactly if the checks pass and that line has fewer than four sections, or fewer than five fields in the second |
| MessageText.MarkMissing | src/io/parser.cpp:149-151 | a message with an empty second section passes every check and has no mark |
| MessageText.ImpressionMissing | src/io/parser.cpp:188-223 | a message whose second line is one letter passes every check of the behaviour and has no impression to read |
| MessageFields.ImpressionMessage | src/io/parser.cpp:106-186 | for an impression assembled from any lines, sections and fields: when it is counted, when a missing mark is read, and the message it becomes, field by field |
| MessageFields.BehaviourMessage | src/io/parser.cpp:188-251 | the same for a behaviour: its mark is the impression's mark, the code and the filter, joined by dashes; its features are the impression's |
| MessageFields.HashIs | src/io/parser.cpp:27-49 | with the program's polynomial the hash of the mark "123456789" is its CRC-64 |
| MessageParse.ParseMessage | src/io/parser.cpp:106-251 | parse_sample_0 and parse_sample_1 as a whole, with crc64 of the mark and extract_feature of the advertisement: the text's message for the batching model, or a read out of bounds |
| MessageParse.ParsedFeaturesAreSmall | src/io/parser.cpp:76-81 | whatever the text, every feature of its message is at least 1 and below 2^31 |
| Decimal.ReadsWhatIsPrinted | src/core/ps_server.cpp:65-67 | a number printed with eight decimals is read back exactly |
| Checkpoint.RoundedIsNear | src/core/ps_server.cpp:65 | the weight that comes back is within half a unit of the eighth decimal |
| Checkpoint.Dump | src/core/ps_server.cpp:52-73 | the loop writes the rows of the sorted keys, at most 10000001 of them |
| Checkpoint.RowText | src/core/ps_server.cpp:60-67 | a row is the key, a comma, a minus sign for a negative weight, the whole part without leading zeros, a point and eight digits, together the rounded magnitude |
| Checkpoint.LoadModel | src/core/learner.cpp:114-143 | the loop reads the file's lines one by one, whatever forms of numbers lexical_cast accepts |
| Checkpoint.LineLoads | src/core/learner.cpp:125-142 | what a line does, by its fields: fewer than two are skipped, the first line sets the bias (0 if it is no number), other lines count if they are two numbers |
| Checkpoint.DecimalReadsPrinted | src/core/ps_server.cpp:65-67 | plain decimal reading is one reader that reads back every key and weight a dump prints |
| Checkpoint.RowSplits | src/core/learner.cpp:126-139 | a dumped row comes apart into its key and its weight |
| Checkpoint.LinesOfText | src/core/learner.cpp:125 | the lines read are the rows written |
| Checkpoint.DumpThenLoad | src/core/learner.cpp:125-142 | reading a dump gives back the first 10000001 keys with rounded weights if and only if the map is empty or has key 0 |
| Checkpoint.AppendedFile | src/core/ps_server.cpp:57 | a file with a second dump written behind it is read as the first one overridden by the second |
| IniBuffer.RstripAt | src/utils/ini.cc:24-30 | strips trailing white space by writing NULs, touching nothing else |
| IniBuffer.LskipAt | src/utils/ini.cc:33-38 | finds the first character that is not white space |
| IniBuffer.FindAt | src/utils/ini.cc:43-51 | finds the character, a comment or the end |
| IniBuffer.IniFile.TakeHeader | src/utils/ini.cc:115-127 | the section branch, on the buffer |
| IniBuffer.IniFile.TakePair | src/utils/ini.cc:128-152 | the name and value branch, on the buffer |
| IniBuffer.IniFile.TakeLine | src/utils/ini.cc:91-152 | the loop body on the buffer is one step of the line model |
| IniBuffer.IniFile.ParseFile | src/utils/ini.cc:62-165 | the whole parse is the line model run over the file's lines |
| IniBuffer.IniFile.ValueHandler | src/utils/INIReader.cpp:68-77 | appends to the value of the case-folded key |
| IniErrors.ChunksAreFileLines | src/utils/ini.cc:91 | fgets delivers exactly the lines of the file if and only if every line, with its line end, is shorter than INI_MAX_LINE |
| IniErrors.ErrorIsFirstBadLine | src/utils/ini.cc:123-164 | for a file with short lines the result is 0 if no line is malformed, otherwise the number of the first malformed line |
| IniErrors.ErrorIsFirstBadPiece | src/utils/ini.cc:91-164 | for any file it is the number of the first malformed piece that fgets delivers |
| IniErrors.ErrorIsLineNumberIff | src/utils/ini.cc:91-164 | and that is the number of the line the piece begins if and only if every line in front of it, with its line end, is shorter than INI_MAX_LINE |
| IniErrors.LongCommentIsAnError | src/utils/ini.cc:91-92 | a file whose only line is a long comment gives error 2, because its tail is parsed as a line of its own |
| IniErrors.MalformedLinesAreEmpty | src/utils/ini.cc:123-151 | the values are those of the file with every malformed line blanked |
| IniErrors.ErrorsDoNotStop | src/utils/ini.cc:91-158 | later lines are handled as if there had been no error |
| IniLines.LineKinds | src/utils/ini.cc:101-152 | a line is judged by what is left of it without white space: skipped if empty or a comment, a continuation if indented behind a name, otherwise a section or a pair |
| IniLines.MarkSkipped | src/utils/ini.cc:94-101 | a byte order mark in front of the first line makes no difference |
| IniLines.HeaderMeans | src/utils/ini.cc:115-127 | a section line is malformed exactly if no closing bracket stands outside a comment |
| IniLines.PairMeans | src/utils/ini.cc:128-151 | a pair is malformed exactly if no separator stands outside a comment; the first equals sign outside comments separates, or without one the first colon |
| IniLines.PairLaidOut | src/utils/ini.cc:128-147 | with any white space, either separator and any comment behind it, the name comes back, and the value does if and only if it is not empty or no comment follows |
| IniLines.HeaderTaken | src/utils/ini.cc:115-122 | a section line sets the section, cut to 49 characters, and forgets the last name |
| IniLines.KeyIs | src/utils/INIReader.cpp:60-66 | keys are section, dot and name in lower case |
| Ini.HandledValues | src/utils/INIReader.cpp:60-77 | the map holds exactly the case-folded keys handed over, each with its values put together in order |
| IniRoundTrip.HeaderRead | src/utils/ini.cc:115-122 | a printed section line is read as that section |
| IniRoundTrip.PairRead | src/utils/ini.cc:128-147 | a printed name=value line is read as that name and value |
| IniRoundTrip.MoreRead | src/utils/ini.cc:108-113 | a printed continuation line is read as a continuation, comment signs inside it included |
| IniRoundTrip.EntryRead | src/utils/ini.cc:108-152 | what a printed entry is parsed to, however long its name: the continuation lines go to the key of the name cut to 49 characters |
| IniRoundTrip.ChunksAreLines | src/utils/ini.cc:91 | fgets delivers the printed lines |
| IniRoundTrip.PrintThenParse | src/utils/ini.cc:62-165 | printing a well-formed configuration and parsing it succeeds and gives back the same case-folded map, multi-line values included |
| IniRoundTrip.PrintThenGet | src/utils/INIReader.cpp:22-26 | looking up an entry with a unique key returns its value, whatever the case of the names asked for |
| IniRoundTrip.ContinuedUnderOwnKey | src/utils/ini.cc:108-144 | a printed entry with continuation lines is parsed to its own value if and only if its name has fewer than 50 characters |

## Left out

- Kafka and Redis access, logging, statistics in `validate`, option parsing and `main`: input, output and plumbing.
- `Customer`, `Postoffice` and `Van`: only the assumption on the response counter stated above is used.
- Locks in `KVWorker`: each Send, Process and callback is one step.
- KvNode.KVWorker.Issue: takes unique increasing covered keys with one value per key, as both server handles require. Lists with k values per key or per-key lengths are covered by KvWire.Send, the slicer and the merge, not by the protocol's runs.
- KvWire: blocks are typed by their position; their bytes, the meta data of a message and simple_app messages are not modelled.
- KvUnwaited: one worker issues the requests.
- KvNode.KVWorker.RunCallback: what the user's own callback does is not modelled, only that it runs.
- PullMerge.SortByFront: keeps arrival order among replies with equal first keys, where std::sort leaves it open; replies to one request never have equal first keys.
- Slicer.DefaultSlicer: per-key lengths are natural numbers; negative lengths are not modelled.
- FtrlServer.Ftrl.HandleRequest: a plain push requires parameters with alpha > 0 and the others not negative, as division by zero and roots of negative numbers are floating-point values that reals do not have; what is read out of bounds is not modelled; command 2 (setting parameters) and command 1 pushes are outside the sharding results, and the counters do not wrap at 2^64.
- FtrlServer.Ftrl.Update: floating-point rounding is not modelled.
- Push replies of the FTRL handle carry the keys of the request; the worker ignores the data of push replies, and the model leaves it out.
- MessageText: the statistics, `find_kv` and the fields that are only logged; a message has no NUL character.
- ParserBuffers.Parser.Process: one call is one step, so the data race between the two consumer threads is not modelled, nor are buffer entries beyond a sample's length; after a copy beyond a sample's memory nothing is stated.
- MessageParse.ParseMessage: atoi, atof, the words of the crc64 tables and the learners' labels are parameters; after a read out of bounds nothing is stated.
- Batching.Process: label tables of the learners (`CheckLabel`, `CheckImp`) are given labels of -1, 0 or 1.
- LearnerUpdate.Learner.Update: requires keys below 2^31, which `extract_feature` guarantees (what happens otherwise is stated by PositionRightIff), and a batch that fits the flat buffer, which Pipeline.EveryFlushFits shows for every flush of a run.
- LearnerUpdate.Learner: P stores positions as float; they are natural numbers here, which EveryFlushFits shows to be exact.
- Handoff and Fleet: one parser thread fills all batches; the join after the exit flag and the waiting in `Wait` are left out.
- Checkpoint.DumpThenLoad: the map does not change while it is dumped, and weights are reals; of lexical_cast only that it reads back what a dump prints is used.
- Crc32cHw: the detection of SSE 4.2 and the choice between the two versions.
- Crc64: the 2048 literal constants but those of TableEntries and PolynomialAt128; the results hold for any tables with the stated properties.
- SharedArray.SArray.Append: where memcpy's source and target overlap it is taken to read its source first, which the C standard leaves open; after a copy beyond the memory nothing is stated.
- SharedArray.UseSegment: the arrays that are appended share no memory with the segment.
- SharedArray: elements are integers; reference counts, deleters, casts between element types and CopyFrom over iterators.
- Ini: files with NUL characters, the stop-on-first-error and heap variants, and the typed getters of INIReader.
- `ftrl_fm.cpp`: it includes `FtrlFM_fm.h`, which is not part of the repository, and repeats the update of `ftrl.cpp` for latent factors. `tools/`: earlier copies of the modelled files.
