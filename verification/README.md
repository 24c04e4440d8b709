# Message routing and auctions, proved

PeerLanding is an auction exchange in Java whose notifications travel over a vendored
ZeroMQ 3.2.2. This project models the parts of both that are hard to get right and proves
what they are for. Code that changes state in place is a class with methods here; each
method is proved to do to its fields what a specification function does to a value, and the
main results are lemmas about those functions over every input, every run or every
interleaving.

- **Subscription trie** (`Tries`, `Windows`, `Mtries`). `mtrie_t` as heap nodes with a sliding
  window of children. Every operation refines the same operation on a map from topic prefixes
  to sets of pipes, and a node's shape is determined by that map alone.
- **Pipes** (`YPipes`, `PipeEnds`, `Pipes`, `PipePairs`, `PipeAnswers`). Two ends, two queues and two command
  channels; any interleaving of calls and deliveries is a run. No assertion fails, no command
  reaches an end that is gone, flow control neither overruns nor deadlocks, and a graceful
  close loses nothing.
- **Ownership tree** (`OwnObjects`, `Owns`, `OwnTrees`). Any number of objects, with commands in
  any order that is FIFO between two objects. Shutdown is exact, reaches everything and never
  deallocates too early. One assumption written down in the code turns out wrong: a child's
  request to be terminated can be lost.
- **Framing** (`Frames`, `Encoders`, `Decoders`, `Streams`). The encoder and decoder as resumable
  machines over chunks of any size and sinks that refuse messages, with an independent parser
  between them.
- **Mailbox** (`MailboxRaces`, `Mailboxes`). Many senders and one receiver, interleaved at single
  accesses to shared memory.
- **Fan-out and fair queueing** (`Arrays`, `DistStates`, `Dists`, `Messages`, `Xpubs`, `FqStates`,
  `Fqs`). Partitioned arrays that are reordered while they are walked, message contents with
  shared counts, and round-robin fairness.
- **Auctions** (`Auctions`, `BooksAndCopies`, `Exchanges`, `Directories`). The allocation of bids
  with Java's int arithmetic, and the directory as a replica of the exchange.

`Basics` holds what several modules share.

Where code and documentation disagree, the model follows the code:

- `mtrie_t::rm` for a prefix is declared to return true for an actual removal. It also returns
  true for a prefix nobody is subscribed to that is the root or an inner node
  (`Tries.RmResultAgainstPromise`, `Tries.RmResultCounterexample`).
- `compute_lwm` says that the low watermark has to be less than the high one; with a high watermark
  of one they are equal (`PipeEnds.ComputeLwm`). Flow control holds all the same.
- `own_t::process_term_req` assumes that a child it does not find has already been told to
  terminate. The request may instead have overtaken the command that introduces the child, and is
  then lost (`OwnTrees.RequestHonoured`, `OwnTrees.RequestLost`).
- `Leilao.getInvestimentoTotal` wraps around, so an auction that is covered may close without
  success (`BooksAndCopies.VerdictExactly`, `BooksAndCopies.MissedSuccess`).
- `Leilao.getTaxaLicitacaoMaxima` starts from `Float.MIN_VALUE`, which is positive
  (`Auctions.TaxaMaximaIsHighest`, `Auctions.TaxaMaximaCounterexample`).

## Model

| member | source | states |
|---|---|---|
| `Tries.AddMeaning` | PeerLanding/dependencies/erlzmq2/deps/zeromq3/src/mtrie.cpp:69-148 | after an add the map from prefixes to subscribers has the pipe at that prefix in addition and is otherwise the same |
| `Tries.RmMeaning` | PeerLanding/dependencies/erlzmq2/deps/zeromq3/src/mtrie.cpp:286-380 | after removing one subscription the map lacks the pipe at that prefix and is otherwise the same |
| `Tries.RmPipeMeaning` | PeerLanding/dependencies/erlzmq2/deps/zeromq3/src/mtrie.cpp:161-279 | after removing a pipe it is subscribed to no prefix, and every other subscription is as before |
| `Tries.AddKeepsPruned` | PeerLanding/dependencies/erlzmq2/deps/zeromq3/src/mtrie.cpp:132-148 | an add creates no node without subscribers and children, and never leaves the trie empty |
| `Tries.RmKeepsPruned` | PeerLanding/dependencies/erlzmq2/deps/zeromq3/src/mtrie.cpp:313-378 | removing a subscription leaves no redundant node below the root |
| `Tries.RmPipeKeepsPruned` | PeerLanding/dependencies/erlzmq2/deps/zeromq3/src/mtrie.cpp:193-236 | removing a pipe leaves no redundant node below the root |
| `Tries.HasIffSubscribedBelow` | PeerLanding/dependencies/erlzmq2/deps/zeromq3/src/mtrie.cpp:425-428 | a node exists for a prefix other than the root exactly when some subscription starts with it |
| `Tries.Canonical` | PeerLanding/dependencies/erlzmq2/deps/zeromq3/src/mtrie.cpp:69-380 | two pruned tries that mean the same map are the same trie: history leaves no trace |
| `Tries.AddThenRm` | PeerLanding/dependencies/erlzmq2/deps/zeromq3/src/mtrie.cpp:69-148 | adding a fresh subscription and removing it restores the identical trie |
| `Tries.RmResultAgainstPromise` | PeerLanding/dependencies/erlzmq2/deps/zeromq3/src/mtrie.cpp:286-311 | the value returned is the promised one (a removal that left no subscriber) if and only if it is not the case that nobody is subscribed to the prefix and it is the root or a proper prefix of some subscription |
| `Tries.RmResultCounterexample` | PeerLanding/dependencies/erlzmq2/deps/zeromq3/src/mtrie.cpp:289-298 | a subscription to "AB" only: removing "A" returns true although nothing is removed |
| `Tries.OrphansAreSoleSubscriptions` | PeerLanding/dependencies/erlzmq2/deps/zeromq3/src/mtrie.cpp:161-279 | the prefixes reported while a pipe is removed are exactly those whose only subscriber it was, each once and spelled in full |
| `Tries.SignalsCountSubscriptions` | PeerLanding/dependencies/erlzmq2/deps/zeromq3/src/mtrie.cpp:382-423 | a match signals each pipe exactly as often as it has subscriptions that are prefixes of the data |
| `Tries.SignalsAreMatchingPipes` | PeerLanding/dependencies/erlzmq2/deps/zeromq3/src/mtrie.cpp:382-423 | a match signals exactly the pipes subscribed to some prefix of the data |
| `Windows.Extend` | PeerLanding/dependencies/erlzmq2/deps/zeromq3/src/mtrie.cpp:84-130 | the window grows to the narrowest one that also covers the character, in either direction and from nothing, a pointer or a table, with every child where it was |
| `Windows.Clear` | PeerLanding/dependencies/erlzmq2/deps/zeromq3/src/mtrie.cpp:313-376 | dropping a child leaves every other one in place, the count exact and both ends of the window occupied |
| `Windows.Compact` | PeerLanding/dependencies/erlzmq2/deps/zeromq3/src/mtrie.cpp:238-278 | after several children are gone the window is tight again and holds the same children |
| `Windows.SameWindow` | PeerLanding/dependencies/erlzmq2/deps/zeromq3/src/mtrie.cpp:84-130 | tight windows over the same characters have the same min, count and live_nodes |
| `Mtries.Mtrie.Add` | PeerLanding/dependencies/erlzmq2/deps/zeromq3/src/mtrie.cpp:69-148 | refines the abstract add on heap nodes, keeps the structure sound, touches only its own nodes and says whether the prefix had no subscriber before |
| `Mtries.Mtrie.AddOwn` | PeerLanding/dependencies/erlzmq2/deps/zeromq3/src/mtrie.cpp:73-81 | the subscription of the node itself, with the set created on demand |
| `Mtries.Mtrie.Rm` | PeerLanding/dependencies/erlzmq2/deps/zeromq3/src/mtrie.cpp:286-380 | refines the abstract removal of a subscription, pruning on the way up, and returns true exactly when the node exists and ends up without subscribers |
| `Mtries.Mtrie.RmPipeEverywhere` | PeerLanding/dependencies/erlzmq2/deps/zeromq3/src/mtrie.cpp:152-159 | refines the abstract removal of a pipe and calls back for exactly the orphaned prefixes, in trie order |
| `Mtries.Mtrie.RmAll` | PeerLanding/dependencies/erlzmq2/deps/zeromq3/src/mtrie.cpp:161-279 | the same below any node, with the growing buffer spelling the prefix at every call and restored on return |
| `Mtries.Mtrie.RmSlot` | PeerLanding/dependencies/erlzmq2/deps/zeromq3/src/mtrie.cpp:208-236 | one turn of the loop over the table: one child is cleaned, kept or freed, and the new ends are tracked |
| `Mtries.Mtrie.Match` | PeerLanding/dependencies/erlzmq2/deps/zeromq3/src/mtrie.cpp:382-423 | the pipes called are, as a multiset, one call for each prefix of the data and each of its subscribers |
| `Mtries.SameTrieSameShape` | PeerLanding/dependencies/erlzmq2/deps/zeromq3/src/mtrie.cpp:69-380 | nodes that stand for the same trie agree in pipes, live_nodes, count, min and, recursively, in their children |
| `Mtries.SameSubscriptionsSameShape` | PeerLanding/dependencies/erlzmq2/deps/zeromq3/src/mtrie.cpp:69-380 | nodes with the same subscriptions have the same shape whatever the order of operations that led to them |
| `YPipes.YPipe.Write` | PeerLanding/dependencies/erlzmq2/deps/zeromq3/src/ypipe.hpp:74-83 | an item joins the back of the queue; it becomes ready to flush only with the last part of its message |
| `YPipes.YPipe.Unwrite` | PeerLanding/dependencies/erlzmq2/deps/zeromq3/src/ypipe.hpp:91-98 | takes back the last item exactly when it is not part of a complete message |
| `YPipes.YPipe.Flush` | PeerLanding/dependencies/erlzmq2/deps/zeromq3/src/ypipe.hpp:103-126 | makes all complete messages readable and returns false exactly when there were new ones and the reader was asleep |
| `YPipes.YPipe.CheckRead` | PeerLanding/dependencies/erlzmq2/deps/zeromq3/src/ypipe.hpp:129-150 | true exactly when something flushed is left; otherwise the queue is marked asleep |
| `YPipes.YPipe.Read` | PeerLanding/dependencies/erlzmq2/deps/zeromq3/src/ypipe.hpp:154-165 | takes the oldest flushed item, or nothing exactly when none is flushed |
| `YPipes.YPipe.Probe` | PeerLanding/dependencies/erlzmq2/deps/zeromq3/src/ypipe.hpp:170-176 | looks at the oldest flushed item and changes nothing |
| `PipeEnds.ComputeLwm` | PeerLanding/dependencies/erlzmq2/deps/zeromq3/src/pipe.cpp:383-409 | the low watermark is positive exactly when there is a limit, then no further than max_wm_delta below it, and below it, as the comment asks, exactly when the limit is above one |
| `Pipes.Pipe.CheckRead` | PeerLanding/dependencies/erlzmq2/deps/zeromq3/src/pipe.cpp:100-122 | changes the end, its queue and its commands exactly as the specification of check_read says, swallowing a delimiter |
| `Pipes.Pipe.Read` | PeerLanding/dependencies/erlzmq2/deps/zeromq3/src/pipe.cpp:124-147 | takes the first flushed part and hands it out, counts it if it is a last one and reports the count at every multiple of the low watermark, as specified; PipePairs.ReadMeans and PipeAnswers.ReadGets say which part it is |
| `Pipes.Pipe.CheckWrite` | PeerLanding/dependencies/erlzmq2/deps/zeromq3/src/pipe.cpp:149-162 | refuses when full by the wrapping 64-bit difference, as specified |
| `Pipes.Pipe.Write` | PeerLanding/dependencies/erlzmq2/deps/zeromq3/src/pipe.cpp:164-175 | queues a part and counts it if it is a last one, or refuses, as specified |
| `Pipes.Pipe.Unwrite` | PeerLanding/dependencies/erlzmq2/deps/zeromq3/src/pipe.cpp:177-188 | the loop takes back exactly the unfinished message, and the assertion fails exactly if a finished part is met |
| `Pipes.Pipe.Rollback` | PeerLanding/dependencies/erlzmq2/deps/zeromq3/src/pipe.cpp:177-188 | agrees with its specification whether or not the queue is still there |
| `Pipes.Pipe.Flush` | PeerLanding/dependencies/erlzmq2/deps/zeromq3/src/pipe.cpp:190-198 | agrees with its specification: nothing once terminating, and a wake-up exactly when the reader slept |
| `Pipes.Pipe.Delimit` | PeerLanding/dependencies/erlzmq2/deps/zeromq3/src/pipe.cpp:411-427 | agrees with its specification, failed assertion included |
| `Pipes.Pipe.ProcessActivateRead` | PeerLanding/dependencies/erlzmq2/deps/zeromq3/src/pipe.cpp:200-206 | agrees with its specification |
| `Pipes.Pipe.ProcessActivateWrite` | PeerLanding/dependencies/erlzmq2/deps/zeromq3/src/pipe.cpp:208-217 | agrees with its specification |
| `Pipes.Pipe.ProcessPipeTerm` | PeerLanding/dependencies/erlzmq2/deps/zeromq3/src/pipe.cpp:242-281 | agrees with its specification in all six states |
| `Pipes.Pipe.ProcessPipeTermAck` | PeerLanding/dependencies/erlzmq2/deps/zeromq3/src/pipe.cpp:283-314 | agrees with its specification; everything readable is drained |
| `Pipes.Pipe.Terminate` | PeerLanding/dependencies/erlzmq2/deps/zeromq3/src/pipe.cpp:316-376 | agrees with its specification in all six states, including rollback, delimiter and flush at the end |
| `PipePairs.StepKeepsHandshake` | PeerLanding/dependencies/erlzmq2/deps/zeromq3/src/pipe.cpp:242-376 | any step keeps the two state machines in line with what has been sent and processed: at most one pipe_term, and nothing after an acknowledgement |
| `PipePairs.ReadMeans` | PeerLanding/dependencies/erlzmq2/deps/zeromq3/src/pipe.cpp:124-147 | a reading end with something flushed takes the first item and returns it unless it is the delimiter; otherwise nothing is taken or returned |
| `PipePairs.CheckReadMeans` | PeerLanding/dependencies/erlzmq2/deps/zeromq3/src/pipe.cpp:100-122 | true exactly when a part is first among what is flushed for a reading end, and a delimiter there is swallowed |
| `PipePairs.TermReplies` | PeerLanding/dependencies/erlzmq2/deps/zeromq3/src/pipe.cpp:242-314 | delivering pipe_term or pipe_term_ack never fails an assertion, and which state and reply follow |
| `PipePairs.StepKeepsInv` | PeerLanding/dependencies/erlzmq2/deps/zeromq3/src/pipe.cpp:100-427 | every call and delivery gets through without a failed assertion and keeps the whole invariant, for both ends |
| `PipePairs.RunsAreSound` | PeerLanding/dependencies/erlzmq2/deps/zeromq3/src/pipe.cpp:29-51 | the same for every run from a fresh pair with any watermarks and delays |
| `PipePairs.AcknowledgedOnce` | PeerLanding/dependencies/erlzmq2/deps/zeromq3/src/pipe.cpp:242-314 | one acknowledgement each way, after everything else; an end that is gone has no command on its way to it |
| `PipePairs.FlowControl` | PeerLanding/dependencies/erlzmq2/deps/zeromq3/src/pipe.cpp:124-175 | peers_msgs_read <= the reader's count <= msgs_written, never more than hwm complete messages unread, and the wrapping test for a full pipe is exact |
| `PipePairs.CreditComesBack` | PeerLanding/dependencies/erlzmq2/deps/zeromq3/src/pipe.cpp:140-162 | a writer that is asleep or full with no command pending has a reader that is more than hwm - lwm messages behind |
| `PipePairs.ReadersFreeWriters` | PeerLanding/dependencies/erlzmq2/deps/zeromq3/src/pipe.cpp:208-217 | once the reader has read every complete message and no command is pending, an active writer is awake and not full |
| `PipePairs.NoLostWakeUp` | PeerLanding/dependencies/erlzmq2/deps/zeromq3/src/pipe.cpp:106-109 | a reader that sleeps with no activate_read on its way has nothing flushed left to read |
| `PipePairs.AnswersInOrder` | PeerLanding/dependencies/erlzmq2/deps/zeromq3/src/pipe.cpp:124-147 | what calls of read have returned is a prefix of what the peer has written, without delimiters, and as many last parts as are counted |
| `PipePairs.NothingLost` | PeerLanding/dependencies/erlzmq2/deps/zeromq3/src/pipe.cpp:242-267 | what read has returned is always a prefix of what was written; by the time it acknowledges, an end that delays and never terminates itself has returned all complete messages and no part of an unfinished one |
| `PipePairs.PendingCanRead` | PeerLanding/dependencies/erlzmq2/deps/zeromq3/src/pipe.cpp:249-259 | an end waiting for the delimiter always has something to read once no command is pending |
| `PipePairs.HandshakeProgresses` | PeerLanding/dependencies/erlzmq2/deps/zeromq3/src/pipe.cpp:242-376 | with no command pending, both ends are active, both are gone, or an end that waits for the delimiter can read: the handshake is never stuck |
| `PipePairs.EveryRun` | PeerLanding/dependencies/erlzmq2/deps/zeromq3/src/pipe.cpp:29-427 | all of this in every reachable state: no assertion fails, order, bound, credit, wake-up and graceful close |
| `PipeAnswers.ReadGets` | PeerLanding/dependencies/erlzmq2/deps/zeromq3/src/pipe.cpp:124-147 | in every reachable state, read returns the first flushed part if the end reads and there is one, takes only that, and otherwise returns nothing and loses no part |
| `PipeAnswers.CheckReadForetells` | PeerLanding/dependencies/erlzmq2/deps/zeromq3/src/pipe.cpp:100-122 | check_read is true exactly when read would return a part, and then changes nothing |
| `PipeAnswers.CheckWriteMeans` | PeerLanding/dependencies/erlzmq2/deps/zeromq3/src/pipe.cpp:149-162 | in every reachable state true exactly when the end is active and below its limit |
| `PipeAnswers.WriteAccepted` | PeerLanding/dependencies/erlzmq2/deps/zeromq3/src/pipe.cpp:164-175 | a part is accepted exactly when the end is active and below its limit; then it is last in the peer's queue, complete and counted if a last part |
| `PipeAnswers.FlushDelivers` | PeerLanding/dependencies/erlzmq2/deps/zeromq3/src/pipe.cpp:190-198 | after a flush everything complete can be read, and activate_read goes out exactly if the reader slept and there is something new |
| `PipeAnswers.RollbackTakesBack` | PeerLanding/dependencies/erlzmq2/deps/zeromq3/src/pipe.cpp:177-188 | exactly the parts of the unfinished message are gone from the queue |
| `PipeAnswers.TerminateAsks` | PeerLanding/dependencies/erlzmq2/deps/zeromq3/src/pipe.cpp:316-376 | at an end that has not begun, pipe_term goes out and the delimiter closes the whole messages written, readable at once |
| `PipeAnswers.TerminateAnswers` | PeerLanding/dependencies/erlzmq2/deps/zeromq3/src/pipe.cpp:336-376 | at an end that was asked already, the acknowledgement goes out at once exactly without delay |
| `PipeAnswers.TerminateIgnored` | PeerLanding/dependencies/erlzmq2/deps/zeromq3/src/pipe.cpp:321-329 | with the handshake under way only the delay is noted |
| `PipeAnswers.TermProcessed` | PeerLanding/dependencies/erlzmq2/deps/zeromq3/src/pipe.cpp:242-259 | an active end that is asked acknowledges at once exactly without delay and waits for the delimiter otherwise |
| `PipeAnswers.DeliverTakes` | PeerLanding/dependencies/erlzmq2/deps/zeromq3/src/pipe.cpp:200-217 | a delivery takes the command off its channel; activations wake up an end that still reads or writes, and an acknowledgement ends it |
| `Owns.Own.LaunchChild` | PeerLanding/dependencies/erlzmq2/deps/zeromq3/src/own.cpp:71-81 | the child gets its owner and a counted plug, and this object a counted own command to itself |
| `Owns.Own.ProcessTermReq` | PeerLanding/dependencies/erlzmq2/deps/zeromq3/src/own.cpp:88-109 | agrees with its specification |
| `Owns.Own.ProcessOwn` | PeerLanding/dependencies/erlzmq2/deps/zeromq3/src/own.cpp:111-123 | agrees with its specification |
| `Owns.Own.Terminate` | PeerLanding/dependencies/erlzmq2/deps/zeromq3/src/own.cpp:125-141 | agrees with its specification, whose three cases OwnTrees.TerminateStarts states |
| `Owns.Own.ProcessTerm` | PeerLanding/dependencies/erlzmq2/deps/zeromq3/src/own.cpp:148-163 | every owned child is told once, in order, before the set is emptied and the acknowledgements are registered |
| `Owns.Own.UnregisterTermAck` | PeerLanding/dependencies/erlzmq2/deps/zeromq3/src/own.cpp:170-177 | agrees with its specification, failed assertion included |
| `Owns.Own.CheckTermAcks` | PeerLanding/dependencies/erlzmq2/deps/zeromq3/src/own.cpp:184-200 | agrees with its specification: acknowledge and go exactly when nothing is awaited |
| `Owns.Own.ProcessSeqnum` | PeerLanding/dependencies/erlzmq2/deps/zeromq3/src/own.cpp:62-69 | agrees with its specification |
| `OwnTrees.StepKeepsInv` | PeerLanding/dependencies/erlzmq2/deps/zeromq3/src/own.cpp:50-206 | every call, announcement, event and delivery, in any order, fails no assertion, reaches only live objects and keeps the invariant |
| `OwnTrees.TermAtMostOnce` | PeerLanding/dependencies/erlzmq2/deps/zeromq3/src/own.cpp:104-122 | an object is told to terminate at most once, and only by its owner |
| `OwnTrees.TermAcksExactly` | PeerLanding/dependencies/erlzmq2/deps/zeromq3/src/own.cpp:148-182 | term_acks equals the children told and not yet heard of plus the events awaited |
| `OwnTrees.DestinationAlive` | PeerLanding/dependencies/erlzmq2/deps/zeromq3/src/own.cpp:184-200 | whatever is in flight has a live destination |
| `OwnTrees.DeliverTakes` | PeerLanding/dependencies/erlzmq2/deps/zeromq3/src/object.cpp:59-130 | a delivery takes the command off its way, changes only its destination and adds only what that object sends |
| `OwnTrees.GoneLast` | PeerLanding/dependencies/erlzmq2/deps/zeromq3/src/own.cpp:184-200 | an object goes only after all its descendants and all commands counted for it, and nothing is on its way to it any more |
| `OwnTrees.ShutdownCompletes` | PeerLanding/dependencies/erlzmq2/deps/zeromq3/src/own.cpp:148-200 | once an object has started to terminate, a state with nothing in flight, promised or awaited in its tree has nothing of that tree left |
| `OwnTrees.TerminateStarts` | PeerLanding/dependencies/erlzmq2/deps/zeromq3/src/own.cpp:125-163 | terminating a live object: without owner it starts to terminate and a term is in flight to each child it owned; with one a term_req to it is; under way nothing changes |
| `OwnTrees.TermChildTells` | PeerLanding/dependencies/erlzmq2/deps/zeromq3/src/own.cpp:83-109 | a child that is owned gets a term, and otherwise nothing changes |
| `OwnTrees.ShutdownFromCall` | PeerLanding/dependencies/erlzmq2/deps/zeromq3/src/own.cpp:125-200 | after a call of terminate on a root and any further run, a state with nothing in flight, promised or awaited has nothing of its tree left |
| `OwnTrees.RequestHonoured` | PeerLanding/dependencies/erlzmq2/deps/zeromq3/src/own.cpp:88-109 | a delivered request leads to the child being told if and only if the owner is terminating or the own command for the child is no longer in flight; otherwise it changes nothing at all |
| `OwnTrees.RequestLost` | PeerLanding/dependencies/erlzmq2/deps/zeromq3/src/own.cpp:98-101 | a run of six steps after which nothing is in flight and the child that has asked to terminate lives on |
| `OwnTrees.EveryRun` | PeerLanding/dependencies/erlzmq2/deps/zeromq3/src/own.cpp:50-206 | every run from the empty system gets through with the invariant and all destinations alive |
| `Frames.GetPut64` | PeerLanding/dependencies/erlzmq2/deps/zeromq3/src/wire.hpp:72-95 | reading eight bytes gives back what was written; PutDigits and GetWeighs say in which order |
| `Frames.PutDigits` | PeerLanding/dependencies/erlzmq2/deps/zeromq3/src/wire.hpp:72-82 | byte i of a number is its digit of weight 256 to the power of the bytes that follow: most significant first |
| `Frames.GetWeighs` | PeerLanding/dependencies/erlzmq2/deps/zeromq3/src/wire.hpp:84-95 | what is read is the sum of the bytes with those weights |
| `Frames.HeaderBytes` | PeerLanding/dependencies/erlzmq2/deps/zeromq3/src/encoder.cpp:84-100 | the header by position: size and flags below 255, else the escape, the size from its most significant byte on and the flags, which are one or zero |
| `Frames.HeaderOf300` | PeerLanding/dependencies/erlzmq2/deps/zeromq3/src/encoder.cpp:84-100 | the ten bytes in front of a message of 300 |
| `Frames.MalformedExactly` | PeerLanding/dependencies/erlzmq2/deps/zeromq3/src/decoder.cpp:60-138 | a stream is malformed exactly when the size it announces is zero or beyond the limit, as soon as that size is there, and incomplete exactly while too few bytes of an acceptable size are there |
| `Frames.ParsedMeans` | PeerLanding/dependencies/erlzmq2/deps/zeromq3/src/decoder.cpp:140-149 | a parsed message is the announced bytes after the flags, whose low bit is MORE |
| `Frames.ParseFrame` | PeerLanding/dependencies/erlzmq2/deps/zeromq3/src/encoder.cpp:84-100 | a frame followed by anything parses to its message and its exact length, in the short and the long form |
| `Frames.DecodeFrames` | PeerLanding/dependencies/erlzmq2/deps/zeromq3/src/decoder.cpp:60-166 | decoding the frames of messages within the limit gives exactly those messages and no rest |
| `Frames.DecodeConcat` | PeerLanding/dependencies/erlzmq2/deps/zeromq3/src/decoder.hpp:97-144 | decoding a stream in two pieces gives the same messages as in one |
| `Frames.DecodePrefix` | PeerLanding/dependencies/erlzmq2/deps/zeromq3/src/decoder.cpp:60-166 | any part of a valid stream that has arrived decodes to a prefix of the messages and is never malformed |
| `Encoders.Encoder.NextStep` | PeerLanding/dependencies/erlzmq2/deps/zeromq3/src/encoder.cpp:50-102 | a step hands out the next chunk and leaves what is still to be written the same; it fails exactly when there is no source or no message |
| `Encoders.Encoder.GetData` | PeerLanding/dependencies/erlzmq2/deps/zeromq3/src/encoder.hpp:73-127 | the batch is the next piece of what is to be written, shorter than asked only when nothing is left, and the offset is the first place in it where a multipart message can start |
| `Encoders.JoinAt` | PeerLanding/dependencies/erlzmq2/deps/zeromq3/src/encoder.hpp:90-97 | that first place is the least one right after a last part, and whole messages follow it |
| `Decoders.Decoder.OneByteSize` | PeerLanding/dependencies/erlzmq2/deps/zeromq3/src/decoder.cpp:60-96 | goes on to the escape or the flags, or dies exactly on a size of zero or above the limit |
| `Decoders.Decoder.EightByteSize` | PeerLanding/dependencies/erlzmq2/deps/zeromq3/src/decoder.cpp:98-138 | goes on to the flags, or dies exactly on a size of zero or above a limit |
| `Decoders.Decoder.PushMessage` | PeerLanding/dependencies/erlzmq2/deps/zeromq3/src/decoder.cpp:151-166 | the sink gets the complete message exactly if it accepts; a refusal keeps it and a failure ends decoding |
| `Decoders.Decoder.GetBuffer` | PeerLanding/dependencies/erlzmq2/deps/zeromq3/src/decoder.hpp:73-91 | offers the message itself exactly when at least a buffer of it is missing |
| `Decoders.Decoder.ProcessBuffer` | PeerLanding/dependencies/erlzmq2/deps/zeromq3/src/decoder.hpp:97-144 | what is reported as used is consumed, in order and once; less than everything only when the sink has just refused a message, and an error exactly when the stream is malformed or the sink failed |
| `Decoders.Decoder.Stalled` | PeerLanding/dependencies/erlzmq2/deps/zeromq3/src/decoder.hpp:149-164 | true exactly when a complete message still waits after the sink has been asked again |
| `Decoders.Decoder.StreamDecoded` | PeerLanding/dependencies/erlzmq2/deps/zeromq3/src/decoder.hpp:97-144 | what has been pushed, with the message that waits, is what the consumed bytes decode to |
| `Decoders.Decoder.Delivers` | PeerLanding/dependencies/erlzmq2/deps/zeromq3/src/decoder.hpp:97-144 | on a stream of messages within the limit decoding never gives up and hands over exactly those messages, whatever the chunks and refusals |
| `Streams.Sender.OutEvent` | PeerLanding/dependencies/erlzmq2/deps/zeromq3/src/stream_engine.cpp:241-287 | what has been written, buffered and not yet encoded is always the frames of all messages supplied; progress whenever the socket takes something, and nothing left when it reports none |
| `Streams.Receiver.InEvent` | PeerLanding/dependencies/erlzmq2/deps/zeromq3/src/stream_engine.cpp:179-239 | what was received is what the decoder consumed and what is buffered; bytes stay buffered only while a message is blocked, and polling stops then |
| `Streams.EndToEnd` | PeerLanding/dependencies/erlzmq2/deps/zeromq3/src/stream_engine.cpp:179-287 | messages pushed, with the one that waits, are a prefix of those supplied, and all of them when all bytes are through |
| `Streams.JoinMidStream` | PeerLanding/dependencies/erlzmq2/deps/zeromq3/src/pgm_receiver.cpp:208-237 | an offset of -1 means that no multipart message starts in the batch, nor at its end if it did not fill the buffer; otherwise a fresh decoder from there on gets exactly the messages from a multipart boundary on |
| `MailboxRaces.SenderStep` | PeerLanding/dependencies/erlzmq2/deps/zeromq3/src/mailbox.cpp:45-53 | each access of a sender keeps lock, pointers, signal balance and phases |
| `MailboxRaces.ReceiverStep` | PeerLanding/dependencies/erlzmq2/deps/zeromq3/src/mailbox.cpp:55-81 | each access of the receiver gets through and keeps them too: the read after a wait always succeeds |
| `MailboxRaces.SignalThereToTake` | PeerLanding/dependencies/erlzmq2/deps/zeromq3/src/mailbox.cpp:63-65 | a receiver whose read has failed finds its signal still there, and the signaler's assertion holds |
| `MailboxRaces.NoLostWakeUp` | PeerLanding/dependencies/erlzmq2/deps/zeromq3/src/mailbox.cpp:45-81 | while a receiver that is not reading has a flushed command, a signal is present or being put back or some sender owes one |
| `MailboxRaces.UnflushedHasSender` | PeerLanding/dependencies/erlzmq2/deps/zeromq3/src/mailbox.cpp:45-53 | a command not yet flushed has its sender in the middle of send |
| `MailboxRaces.RecvTakes` | PeerLanding/dependencies/erlzmq2/deps/zeromq3/src/mailbox.cpp:58-66 | a receiver that reads takes the oldest command if one is flushed, and goes passive exactly if none is |
| `MailboxRaces.WaitTakes` | PeerLanding/dependencies/erlzmq2/deps/zeromq3/src/mailbox.cpp:73-81 | after a successful wait the oldest command is taken |
| `MailboxRaces.SendEnds` | PeerLanding/dependencies/erlzmq2/deps/zeromq3/src/mailbox.cpp:45-53 | no step of a sender is idle: with the lock it is done after at most five more, and moves nobody else |
| `MailboxRaces.RecvEnds` | PeerLanding/dependencies/erlzmq2/deps/zeromq3/src/mailbox.cpp:61-81 | no step of the receiver is idle either: it gives a second signal back, waits, and with a signal there goes on to read |
| `MailboxRaces.EveryRun` | PeerLanding/dependencies/erlzmq2/deps/zeromq3/src/mailbox.cpp:25-81 | every interleaving from the constructor on: no assertion fails, signals present and owed equal those needed, at most two exist, no wake-up is lost, and the commands received, queued and in hand are those passed to send, in the order in which the lock was taken |
| `Mailboxes.Signaler.Recv` | PeerLanding/dependencies/erlzmq2/deps/zeromq3/src/signaler.cpp:192-222 | takes one signal of one or two |
| `Mailboxes.Mailbox.Send` | PeerLanding/dependencies/erlzmq2/deps/zeromq3/src/mailbox.cpp:45-53 | the command joins the back of the contents |
| `Mailboxes.Mailbox.Recv` | PeerLanding/dependencies/erlzmq2/deps/zeromq3/src/mailbox.cpp:55-81 | gives the oldest command, or none exactly when there is none or the wait was cut short |
| `Arrays.Array.PushBack` | PeerLanding/dependencies/erlzmq2/deps/zeromq3/src/array.hpp:106-111 | the item is last and knows its place; every stored index stays right |
| `Arrays.Array.EraseAt` | PeerLanding/dependencies/erlzmq2/deps/zeromq3/src/array.hpp:117-122 | the last item fills the hole; every stored index stays right |
| `Arrays.Array.Erase` | PeerLanding/dependencies/erlzmq2/deps/zeromq3/src/array.hpp:113-115 | the same by the index the item stores |
| `Arrays.Array.Swap` | PeerLanding/dependencies/erlzmq2/deps/zeromq3/src/array.hpp:124-131 | two items trade places and stored indices |
| `Arrays.Array.Index` | PeerLanding/dependencies/erlzmq2/deps/zeromq3/src/array.hpp:138-141 | an item's stored index is where it is |
| `Arrays.SwappedDistinct` | PeerLanding/dependencies/erlzmq2/deps/zeromq3/src/array.hpp:124-131 | a swap keeps the members and that each occurs once |
| `Arrays.ErasedDistinct` | PeerLanding/dependencies/erlzmq2/deps/zeromq3/src/array.hpp:117-122 | an erase removes exactly that member |
| `DistStates.AttachedRegions` | PeerLanding/dependencies/erlzmq2/deps/zeromq3/src/dist.cpp:41-57 | a new pipe becomes eligible, and active only between messages; matching is untouched |
| `DistStates.MatchedRegions` | PeerLanding/dependencies/erlzmq2/deps/zeromq3/src/dist.cpp:59-72 | a mark adds the pipe to the matching ones exactly if it is eligible |
| `DistStates.TerminatedRegions` | PeerLanding/dependencies/erlzmq2/deps/zeromq3/src/dist.cpp:79-90 | the regions stay nested and only that pipe is gone |
| `DistStates.ActivatedRegions` | PeerLanding/dependencies/erlzmq2/deps/zeromq3/src/dist.cpp:92-104 | a pipe with room again becomes eligible, and active only between messages |
| `DistStates.DemotedRegions` | PeerLanding/dependencies/erlzmq2/deps/zeromq3/src/dist.cpp:181-188 | three swaps take a refusing pipe out of all three regions and leave the rest of each, and all before it, as they were |
| `DistStates.NoPartWithoutEarlierOnes` | PeerLanding/dependencies/erlzmq2/deps/zeromq3/src/dist.cpp:106-127 | over every run of joins and sends to all, whoever gets a later part of a message has got every earlier one |
| `DistStates.PublishedInOrder` | PeerLanding/dependencies/erlzmq2/deps/zeromq3/src/xpub.cpp:118-141 | the same over every run of joins and sends to matching pipes |
| `Dists.AllTriedHands` | PeerLanding/dependencies/erlzmq2/deps/zeromq3/src/dist.cpp:129-193 | field by field: a pipe that accepts has the part last and is flushed exactly after a last part; refusing pipes keep both, others everything |
| `Dists.UnflushedAfter` | PeerLanding/dependencies/erlzmq2/deps/zeromq3/src/dist.cpp:179-193 | after a last part exactly those who accepted it have nothing unflushed any more; after another part they have |
| `Dists.AllFlushed` | PeerLanding/dependencies/erlzmq2/deps/zeromq3/src/dist.cpp:106-127 | with pipes that take whole messages, between messages everything accepted is flushed |
| `Dists.Dist.Attach` | PeerLanding/dependencies/erlzmq2/deps/zeromq3/src/dist.cpp:41-57 | the object changes its regions as specified and keeps them nested |
| `Dists.Dist.Match` | PeerLanding/dependencies/erlzmq2/deps/zeromq3/src/dist.cpp:59-72 | marking again changes nothing, and marks only eligible pipes |
| `Dists.Dist.Unmatch` | PeerLanding/dependencies/erlzmq2/deps/zeromq3/src/dist.cpp:74-77 | nothing matches afterwards |
| `Dists.Dist.Terminate` | PeerLanding/dependencies/erlzmq2/deps/zeromq3/src/dist.cpp:79-90 | the pipe is gone and the regions stay nested |
| `Dists.Dist.Activate` | PeerLanding/dependencies/erlzmq2/deps/zeromq3/src/dist.cpp:92-104 | the object changes its regions as specified |
| `Dists.Dist.Write` | PeerLanding/dependencies/erlzmq2/deps/zeromq3/src/dist.cpp:179-193 | one attempt on that pipe only: a pipe that accepts has the part last and everything flushed exactly after a last part; a refusal leaves its parts alone and demotes it |
| `Dists.Dist.WriteAll` | PeerLanding/dependencies/erlzmq2/deps/zeromq3/src/dist.cpp:145-172 | every matching pipe is tried exactly once although refusals reorder the array, and those that accept are the ones that still match |
| `Dists.Dist.Distribute` | PeerLanding/dependencies/erlzmq2/deps/zeromq3/src/dist.cpp:129-172 | the fan-out, after which the content has one holder more for each pipe that accepted, less one, and is freed exactly when nobody has it |
| `Dists.Dist.SendToMatching` | PeerLanding/dependencies/erlzmq2/deps/zeromq3/src/dist.cpp:112-127 | refusers leave the regions and after the last part all eligible pipes are active; each matching pipe that accepts has the part last, flushed exactly if a last part, and the other pipes are untouched |
| `Dists.Dist.SendToAll` | PeerLanding/dependencies/erlzmq2/deps/zeromq3/src/dist.cpp:106-110 | the same with all active pipes matching |
| `Messages.Message.InitData` | PeerLanding/dependencies/erlzmq2/deps/zeromq3/src/msg.cpp:51-75 | up to max_vsm_size bytes inside the message, more in a content of its own |
| `Messages.Message.Close` | PeerLanding/dependencies/erlzmq2/deps/zeromq3/src/msg.cpp:104-135 | lets go of the content, which is freed exactly by the last holder; false on a closed message |
| `Messages.Message.Move` | PeerLanding/dependencies/erlzmq2/deps/zeromq3/src/msg.cpp:137-156 | takes over what the source held and empties it, letting go of what was there, also when both shared one content |
| `Messages.Message.Copy` | PeerLanding/dependencies/erlzmq2/deps/zeromq3/src/msg.cpp:158-186 | both hold the content afterwards and it counts them; a destination that shared it already leaves the count the same |
| `Messages.Message.AddRefs` | PeerLanding/dependencies/erlzmq2/deps/zeromq3/src/msg.cpp:250-268 | the count is that of the holders with the promised copies |
| `Messages.Message.RmRefs` | PeerLanding/dependencies/erlzmq2/deps/zeromq3/src/msg.cpp:270-298 | takes promised copies back and frees the content exactly when none is left |
| `Xpubs.MarkAll` | PeerLanding/dependencies/erlzmq2/deps/zeromq3/src/xpub.cpp:112-116 | marking all reported pipes, repeats included, marks each eligible one once |
| `Xpubs.Choose` | PeerLanding/dependencies/erlzmq2/deps/zeromq3/src/xpub.cpp:122-125 | the matching pipes are the eligible ones subscribed to some prefix of the data |
| `Xpubs.Xsend` | PeerLanding/dependencies/erlzmq2/deps/zeromq3/src/xpub.cpp:118-141 | a first part is tried exactly once on each eligible pipe subscribed to a prefix and on no other; a later part on those that took all before; what each then has, and which have unflushed parts |
| `FqStates.AttachedValid` | PeerLanding/dependencies/erlzmq2/deps/zeromq3/src/fq.cpp:40-45 | the pipe is the last active one; the active ones, and whose turn it is, are as before |
| `FqStates.TerminatedValid` | PeerLanding/dependencies/erlzmq2/deps/zeromq3/src/fq.cpp:47-60 | only that pipe is gone and the shape is kept, between messages |
| `FqStates.ActivatedValid` | PeerLanding/dependencies/erlzmq2/deps/zeromq3/src/fq.cpp:62-67 | the pipe is the last active one; the active ones, and whose turn it is, are as before |
| `FqStates.SkipValid` | PeerLanding/dependencies/erlzmq2/deps/zeromq3/src/fq.cpp:81-110 | passing over empty pipes keeps shape and members, and ends at one with something to read if any is left |
| `FqStates.DeliveredValid` | PeerLanding/dependencies/erlzmq2/deps/zeromq3/src/fq.cpp:83-103 | delivering a part keeps the shape, current included |
| `FqStates.RecvMeans` | PeerLanding/dependencies/erlzmq2/deps/zeromq3/src/fq.cpp:74-116 | a part returned is the head of its pipe's input and nothing else is taken; within a message the pipe is that of its first part; nothing is returned exactly if no active pipe has anything |
| `FqStates.TurnHeld` | PeerLanding/dependencies/erlzmq2/deps/zeromq3/src/fq.cpp:87-97 | until a message is complete no other call changes whose turn it is |
| `FqStates.ReturnedInOrder` | PeerLanding/dependencies/erlzmq2/deps/zeromq3/src/fq.cpp:74-116 | over any run, what was returned from a pipe and what is left there is what it had and what arrived, in order |
| `FqStates.TurnsPass` | PeerLanding/dependencies/erlzmq2/deps/zeromq3/src/fq.cpp:74-116 | while a readable pipe is not served, the messages completed are at most the turns it was away |
| `FqStates.Fair` | PeerLanding/dependencies/erlzmq2/deps/zeromq3/src/fq.cpp:74-140 | an active pipe with something to read is served before others have completed as many messages as there are pipes, whatever arrives and however pipes go passive and come back, and until then every call returns a part |
| `Fqs.Fq.Attach` | PeerLanding/dependencies/erlzmq2/deps/zeromq3/src/fq.cpp:40-45 | the object does what the specification says |
| `Fqs.Fq.Terminate` | PeerLanding/dependencies/erlzmq2/deps/zeromq3/src/fq.cpp:47-60 | the object does what the specification says |
| `Fqs.Fq.Activate` | PeerLanding/dependencies/erlzmq2/deps/zeromq3/src/fq.cpp:62-67 | the object does what the specification says |
| `Fqs.Fq.Recv` | PeerLanding/dependencies/erlzmq2/deps/zeromq3/src/fq.cpp:74-116 | the loop over the active pipes ends in the specified state with the part or none that FqStates.RecvMeans describes |
| `Fqs.Fq.HasIn` | PeerLanding/dependencies/erlzmq2/deps/zeromq3/src/fq.cpp:118-140 | true exactly when some pipe is left active, and then the current one has something to read |
| `Auctions.TotalIsSum` | PeerLanding/java_src/Exchange/Leilao.java:92-94 | the total is the amount bid if and only if that fits an int |
| `Auctions.VerdictAlwaysRight` | PeerLanding/java_src/Exchange/TerminaLeilao.java:47 | comparing with the total is right for every amount wanted if and only if the amount bid fits an int or wraps around to the greatest one |
| `Auctions.AllocationKeeps` | PeerLanding/java_src/Exchange/Leilao.java:70-90 | with or without overflow the bids kept are some of those made, all if none is dropped, and their total reaches the amount wanted if that of all does |
| `Auctions.SortedSorts` | PeerLanding/java_src/Exchange/Leilao.java:72-74 | sorting gives the same bids with rates ascending |
| `Auctions.SortedStable` | PeerLanding/java_src/Exchange/Leilao.java:72-74 | bids at the same rate keep their order |
| `Auctions.AllocationFair` | PeerLanding/java_src/Exchange/Leilao.java:70-90 | of bids that cover the amount wanted, those kept cover it, none dropped is cheaper than one kept, and without the last one kept they would fall short if any were dropped |
| `Auctions.TaxaMaximaIsHighest` | PeerLanding/java_src/Exchange/Leilao.java:66-68 | no rate bid is above the value, and it is a rate bid if and only if some bid is at Float.MIN_VALUE or above |
| `Auctions.TaxaMaximaCounterexample` | PeerLanding/java_src/Exchange/Leilao.java:66-68 | without bids, or with one at rate zero, the value is not a rate bid |
| `Auctions.Leilao.AlocaInvestidores` | PeerLanding/java_src/Exchange/Leilao.java:70-90 | the loop keeps exactly the allocation and says whether any bid was dropped |
| `Auctions.Leilao.GetInvestimentoTotal` | PeerLanding/java_src/Exchange/Leilao.java:92-94 | the wrapped sum of the bids |
| `Auctions.Leilao.GetTaxaLicitacaoMaxima` | PeerLanding/java_src/Exchange/Leilao.java:66-68 | the maximum of the rates bid and Float.MIN_VALUE |
| `BooksAndCopies.VerdictExactly` | PeerLanding/java_src/Exchange/TerminaLeilao.java:46-59 | for given bids the success flag is right for every auction if and only if the amount bid fits an int or wraps around to the greatest one |
| `BooksAndCopies.MissedSuccess` | PeerLanding/java_src/Exchange/TerminaLeilao.java:46-59 | an auction covered four times over that closes without success |
| `BooksAndCopies.ClosedFairly` | PeerLanding/java_src/Exchange/TerminaLeilao.java:45-66 | when the amount bid fits an int, success exactly if covered; without it nothing changes; with it, and no overflow in the loop, a fair allocation, sent along exactly if bids were dropped |
| `BooksAndCopies.LeilaoMeans` | PeerLanding/java_src/Exchange/Exchange.java:91-105 | an auction opens exactly if none is open and the amount is a multiple of 1000, without bids, under the number of those before it, and the request says so |
| `BooksAndCopies.LicitarMeans` | PeerLanding/java_src/Exchange/Exchange.java:40-53 | a bid is taken exactly if an auction is open, its rate below the highest and its amount a multiple of 100; it becomes the last bid and the request carries it |
| `BooksAndCopies.TerminaMeans` | PeerLanding/java_src/Exchange/TerminaLeilao.java:37-67 | a closing moves the open auction to the end of the history; its flag is right about the wrapped sum, and about the sum when that fits; a fair selection of its bids is kept, and sent along exactly if some were dropped |
| `BooksAndCopies.HistoryMeans` | PeerLanding/java_src/Exchange/Exchange.java:40-105 | over every run, each auction in a history has bids below its highest rate in multiples of 100, and unless those kept add up beyond an int its flag says whether they cover the amount |
| `BooksAndCopies.LeilaoMirrors` | PeerLanding/java_src/Exchange/Exchange.java:91-105 | opening an auction and the request it sends keep the directory a replica |
| `BooksAndCopies.LicitarMirrors` | PeerLanding/java_src/Exchange/Exchange.java:40-53 | a bid and the request it sends keep the directory a replica |
| `BooksAndCopies.TerminaMirrors` | PeerLanding/java_src/Exchange/TerminaLeilao.java:37-67 | a closing and the request it sends keep the directory a replica |
| `BooksAndCopies.StepMirrors` | PeerLanding/java_src/Directory/Resources/Directory.java:172-206 | whatever the exchange does, the directory carries out every request without missing and is a replica again |
| `BooksAndCopies.EveryRun` | PeerLanding/java_src/Directory/Resources/Directory.java:172-206 | over every run the directory's list for each company is its history and then the open auction, id and index agreeing, with the same bids and success flags |
| `Exchanges.Exchange.Licitar` | PeerLanding/java_src/Exchange/Exchange.java:40-53 | on shared auction objects: answer, request and new books as specified, other companies untouched |
| `Exchanges.Exchange.Leilao` | PeerLanding/java_src/Exchange/Exchange.java:91-105 | the same for opening an auction |
| `Exchanges.Exchange.Termina` | PeerLanding/java_src/Exchange/TerminaLeilao.java:37-67 | the same for a closing: out of the map, changed, into the history, as BooksAndCopies.TerminaMeans describes |
| `Exchanges.Close` | PeerLanding/java_src/Exchange/TerminaLeilao.java:45-59 | the auction object becomes the closed auction, and the list to send is the one specified |
| `Directories.Directory.PostLeilao` | PeerLanding/java_src/Directory/Resources/Directory.java:172-181 | adds the auction the request describes, its rate left at zero |
| `Directories.Directory.PostLeilaoLicitacao` | PeerLanding/java_src/Directory/Resources/Directory.java:183-192 | adds the bid to that auction only, or misses exactly on an index out of bounds |
| `Directories.Directory.PutLeilaoSucesso` | PeerLanding/java_src/Directory/Resources/Directory.java:194-206 | changes flags and, if a list is sent, the bids of that auction only, or misses exactly on an index out of bounds |

## Left out

- Dists.Dist.Terminate: says nothing about which pipes are in which region afterwards, because erasing moves the last pipe of the array into the hole; only nesting and membership in the array are kept.
- Dists.Dist.Match: only between messages, as xpub.cpp calls it.
- Fqs.Fq.Terminate: not while a multipart message of any pipe is open; the code would then mix parts of two messages.
- Mtries.Mtrie.Rm: asks, as the assertion at mtrie.cpp:292 does, that the pipe is subscribed or nobody is.
- BooksAndCopies.ClosedFairly: what is kept is stated for loops whose partial sums fit an int; with overflow only the success flag is characterised.
- Messages.Message.Move: a message moved or copied onto itself is not part of the model.
- Streams.Receiver.InEvent: the handshake, and what happens after a disconnection, are not part of the model.
- `hiccup` and `process_hiccup`: they drop messages without adjusting the counters, so runs are without them.
- The counters of messages, sequence numbers and references are unbounded; only the subtraction in `check_write` wraps. Atomic operations are single steps.
- Memory is not released: nodes, queues and contents are dropped or marked as freed. Allocation never fails.
- The child table of a trie node is a sequence stored in a field, and pointers in it are non-null exactly where a child is.
- Sets of pipes and of owned objects are walked in some fixed order; nothing depends on which.
- Object ids of the ownership tree are not used again, and `inc_seqnum` is called on live objects only; what `plug`, `attach` and `bind` do beyond being counted is left out, and so are linger values.
- Zero-copy buffers: bytes appear in the message either way, so aliasing between buffer and message is not modelled. Flags other than MORE are not read.
- `lb_t`, which repeats `fq_t` for writing; sockets, pollers, the PGM transport, listeners, clocks and options.
- Fixed-rate emissions: nothing stops a second one while one is open, so there is no replica to keep.
- The directory's `taxaMaxima` is zero for every auction, because `postLeilao` stores `getJuro`, which the request leaves unset; bid ids are lost when a list is replaced. Neither is part of the replica.
- Unknown company names, races between Java threads, failed HTTP requests and the GET handlers: each request and each closing is one atomic step for a known company.
- Rates are reals: rounding and NaN are left out. The moment an auction starts is left out.
