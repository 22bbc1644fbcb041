# A verified model of memsniff

memsniff listens to memcached traffic, rebuilds the conversations it sees, and reports which keys
cause the most traffic. This project models its core in Dafny and proves what that core promises.

    dafny verify dfyconfig.toml

## The parts

**Streams with lost regions** (`Streams`, `Buffer`, `Reader`). `Streams` is the specification: one
direction of a connection is a sequence of cells, each a byte or a lost position, with a debt of
positions still to be skipped. The class `Buffers.Buffer` keeps the program's representation, bytes
end to end with a list of (gap, dataLen) blocks, a cached length and the debt, and every method is
proved to do to the cells what the specification says, including what is left after a loss.
`Readers.Reader` adds the closed, eof and error flags. `Text` holds the byte-string operations.

**The text-protocol parser** (`TextMachine`, `Segmentation`, `Runs`, `Consumer`). `TextMachine` is
the parser as a function from machine to machine; a run makes steps until one of them waits or fails.
The class `Consumers.Consumer` is the program's form: states as methods over two readers, the loop of
`run`, the event buffer and the readers' way back to the pool. It is proved to compute exactly the
machine's run. A consumer carries the run it is held to as a function value, so that proofs about
fields and readers do not unfold the parser.

**Conversations** (`Wire`, `Requests`, `Replies`, `ParserTheorems`, `Commands`, `Lifetime`, `Counted`). `Wire` says what
well-formed exchanges look like as bytes, after the sections "Storage commands" and "Retrieval
command" of memcached's `doc/protocol.txt`, and what the parser keeps or owes of them at each position.
The theorems say what is reported for any conversation, any cutting into segments, any interleaving of
the two sides in which the response follows the command line, and any loss inside values and data
blocks, also when the lost end of a data block only shows as a gap in front of the next request; and
what happens at any other loss in a response. `Commands` is about single commands and what is not
understood, `Counted` follows a conversation to the items that are counted for it.

**Readers and connections** (`ReaderPool`, `Connections`, `Pairing`, `FlowHash`). Any number of
consumers share a pool of readers; each reader is held by one slot or lies in the pool once, reset.
`Pairing` joins the two directions of a connection, `FlowHash` is the 64-bit hash behind the choice
of a worker.

**Hand-off of packets** (`HandOff`, `HandOffTheorems`, `HandOffReturns`, `HandOffRouting`). Capture
thread, decode workers and assembly workers as a machine whose steps are channel operations, for any
numbers of workers and any interleaving. `HandOffReturns` says exactly when the pool's `Run` returns,
`HandOffRouting` that a connection stays with one assembly worker.

**Analysis** (`AnalysisPool`, `AnalysisTheorems`, `AnalysisHistory`, `AnalysisLimits`, `AnalysisReturns`,
`AnalysisWorker`, `HotList`, `Report`). The hash-partitioned counters as a machine, what its runs keep,
count, drop and finish, top lists, and the merged report.

**Capture replay** (`PacketBuffer`, `Replay`). The compact packet buffer over arrays and the paced
cursor over it. `Grouping` and `Sums` are shared lemmas.

## Findings

- A recognised command whose line has no arguments is not acted on when it arrives: the parser waits
  for arguments, so a bare `quit` is noticed only with the client's next bytes
  (`Commands.ActedOnIffArguments`, an equivalence).
- Between exchanges a server segment is harmless exactly if it fits an empty buffer; one of more than
  32 KiB leaves an error in the reader (`ParserTheorems.IdleIgnoresServer`, an equivalence). No server
  segment removes it; the next retrieval runs into it, is resynchronised and not reported
  (`ParserTheorems.OversizeLosesNext`).
- A loss in a response is harmless exactly inside values; anywhere else the response is given up
  (`Replies.FailsIffHarmful`, an equivalence) and everything after it is reported again
  (`ParserTheorems.LossRecovered`).
- The index compaction of `handleEvents` counts exactly the hits exactly if no other event comes before
  a hit; otherwise blank items are counted too (`AnalysisWorker.ExactIffHitsFirst`, an equivalence, and
  `AnalysisWorker.MissBeforeHit`, an input that fails).
- No assembly queue can refuse a batch exactly if there are at most 128 decode workers
  (`HandOffTheorems.RefusalsExactly`, an equivalence for every number of assembly workers).
- A refused batch is counted as sent, so its sender waits for a signal that never comes, and the decode
  pool never returns (`HandOffReturns.RefusalHangs`).
- A source error other than a timeout or end of file leaves its worker out for good. After the end of the
  input the decode pool returns exactly if no worker was left out and no batch refused
  (`HandOffReturns.ReturnsExactly`, an equivalence over all schedules); `HandOffReturns.LeftOutReachable`
  is a run that leaves a worker out.
- No analysis queue can drop an event exactly if at most 1024 events have been passed in
  (`AnalysisLimits.DropsExactly`, an equivalence for every number of workers).
- A command line that is not understood is skipped with one line of response only if it has no arguments
  (`Commands.UnknownSkipped`); with anything but letters in its first word the parser resynchronises
  (`Commands.DesyncIffNotWord`, an equivalence).
- Both directions of a connection meet in one consumer exactly if one of the two ports is a memcache
  port (`Pairing.DirectionsMeet`).
- `received` counts a packet that was looked at and put off to a later call, once per call
  (`Replay.Replayer.CollectPackets` states the exact number).
- A negative declared size does not break the buffer or termination: it puts a gap in front of what is
  buffered (`Buffers.Buffer.Discard`, `TextMachine.StepProgress`).

## Model

| member | source | states |
|---|---|---|
| Buffers.Buffer.constructor | assembly/reader/buffer.go:18-22 | A new buffer stands for the empty stream. |
| Buffers.Buffer.Reset | assembly/reader/buffer.go:24-29 | Whatever was buffered or owed, the stream is empty afterwards. |
| Buffers.Buffer.Write | assembly/reader/buffer.go:31-61 | A segment that fits is pushed onto the stream, debt first; one that does not fit is refused and changes nothing. |
| Buffers.Buffer.ReadN | assembly/reader/buffer.go:67-80 | The next n bytes and the stream without them; a short read changes nothing; a loss is passed and reported with the gap of the first block as its size. |
| Buffers.Buffer.PeekN | assembly/reader/buffer.go:82-93 | What ReadN would return, without changing anything. |
| Buffers.Buffer.IndexAny | assembly/reader/buffer.go:95-110 | The first delimiter before any loss, or which of loss and shortage is the reason there is none, a loss with the gap of the first block as its size. |
| Buffers.Buffer.ReadLine | assembly/reader/buffer.go:112-130 | The bytes of the next line without its end and the stream behind it, or the loss before it with the gap of the first block as its size and the stream behind that. |
| Buffers.Buffer.Discard | assembly/reader/buffer.go:132-147 | Skips n positions, buffered or still to come, for every n. |
| Buffers.Buffer.DiscardUpTo | assembly/reader/buffer.go:134-140 | Dropping the partial block's bytes before the earlier blocks' bytes still leaves the right stream. |
| Buffers.Buffer.ContiguousAvailable | assembly/reader/buffer.go:149-157 | The readable bytes are those before the first lost position, and the gap is the first block's, or none. |
| Buffers.Buffer.DropBlocks | assembly/reader/buffer.go:172-181 | The first n blocks go together with as many bytes and positions as they cover. |
| Buffers.Buffer.DiscardFromBlock | assembly/reader/buffer.go:203-220 | One block loses its first n positions, gap before bytes. |
| Buffers.Totals | assembly/reader/buffer.go:159-170 | Buffered bytes are the sum of dataLen and the length is the sum of gap and dataLen, in every coherent buffer. |
| Streams.WriteSplit | assembly/reader/buffer.go:31-61 | Writing a segment in two parts is writing it whole. |
| Streams.DiscardWriteCommute | assembly/reader/buffer.go:31-61 | Discarding before or after a write gives the same stream. |
| Streams.DiscardKeepsFit | assembly/reader/buffer.go:49-51 | Discarding first never turns a segment that fits into one that does not. |
| Streams.LossInsideDebt | assembly/reader/buffer.go:36-47 | A gap that lies within the debt has the same effect as any bytes in its place. |
| Streams.ReadThroughStable | assembly/reader/buffer.go:95-130 | A delimiter or a loss once found stays found when more of the stream arrives. |
| Streams.SmallSegmentFits | assembly/reader/buffer.go:49-51 | Bytes buffered and bytes arriving within the capacity always fit. |
| Readers.Reader.Reassembled | assembly/reader/reader.go:27-38 | Segments are taken in order until one does not fit; a closed or failed reader takes none. |
| Readers.Reader.ReassemblyComplete | assembly/reader/reader.go:40-42 | The end of the stream is noted and nothing else changes. |
| Readers.Reader.Reset | assembly/reader/reader.go:44-49 | The reader is as new. |
| Readers.Reader.Truncate | assembly/reader/reader.go:51-53 | Buffered bytes and debt go, flags and error stay. |
| Readers.Reader.Discard | assembly/reader/reader.go:55-61 | Skips n positions unless an earlier error is sticking. |
| Readers.Reader.ReadN | assembly/reader/reader.go:75-84 | The buffer's outcome, the size of a loss included, with a shortage at the end of the stream told as an unexpected end. |
| Readers.Reader.IndexAny | assembly/reader/reader.go:86-95 | The position of the delimiter, or the reason there is none, the size of a loss included. |
| Readers.Reader.PeekN | assembly/reader/reader.go:97-106 | The same as ReadN without reading. |
| Readers.Reader.ReadLine | assembly/reader/reader.go:108-117 | The next line, or the reason there is none, the size of a loss included, and the source behind the loss. |
| Readers.Reader.Close | assembly/reader/reader.go:119-123 | Nothing buffered, and nothing will be taken any more. |
| Readers.ReadWord | protocol/mctext/consumer.go:85-93 | After IndexAny has succeeded, ReadN of one byte more never fails and returns the bytes up to the delimiter. |
| Readers.DiscardSource | protocol/model/dummy.go:15-17 | Discarding from the source that stands for a given-up reader succeeds and changes nothing. |
| TextMachine.StepProgress | protocol/mctext/consumer.go:41-58 | A nil-returning state consumes a server byte or a client byte or leaves the initial state for good, for every content. |
| Consumers.Consumer.constructor | protocol/model/consumer.go:110-121 | A new consumer is the initial machine on two readers that nobody else and not the pool has. |
| Consumers.Consumer.AddEvent | protocol/model/consumer.go:123-131 | The event is delivered or buffered behind all earlier ones, and fewer than 8 stay buffered. |
| Consumers.Consumer.FlushEvents | protocol/model/consumer.go:133-136 | Everything buffered is delivered, in order. |
| Consumers.Consumer.Close | protocol/model/consumer.go:138-150 | Both readers are given back reset, once, and the run is switched off. |
| Consumers.Consumer.PeekState | protocol/mctext/consumer.go:60-79 | One call is one step of the machine's run. |
| Consumers.Consumer.CommandStep | protocol/mctext/consumer.go:81-108 | One call is one step of the machine's run. |
| Consumers.Consumer.ArgsStep | protocol/mctext/consumer.go:124-142 | One call is one step of the machine's run. |
| Consumers.Consumer.GetState | protocol/mctext/consumer.go:144-180 | One call is a stretch of the machine's run, however many reply lines are there. |
| Consumers.Consumer.SetState | protocol/mctext/consumer.go:182-197 | One call is one step of the machine's run. |
| Consumers.Consumer.QuitState | protocol/mctext/consumer.go:199-206 | One call is one step of the machine's run. |
| Consumers.Consumer.OneLineState | protocol/mctext/consumer.go:208-222 | One call is one step of the machine's run. |
| Consumers.Consumer.Loop | protocol/mctext/consumer.go:41-48 | States are called until the machine's run waits or fails. |
| Consumers.Consumer.RunProtocol | protocol/mctext/consumer.go:41-58 | The class computes exactly the machine's run with its resynchronisation, and gives back both readers or none. |
| Consumers.Consumer.ClientReassembled | protocol/model/consumer.go:169-175 | The machine after all client segments, each followed by a run. |
| Consumers.Consumer.ServerReassembled | protocol/model/consumer.go:190-196 | The machine after all server segments, each followed by a run. |
| Consumers.Consumer.ClientComplete | protocol/model/consumer.go:177-185 | All events are delivered, the client's reader is given back reset, and nothing else changes. |
| Consumers.Consumer.ServerComplete | protocol/model/consumer.go:198-206 | All events are delivered, the server's reader is given back reset, and nothing else changes. |
| Lifetime.EventsStay | protocol/model/consumer.go:123-136 | Whatever happens on either stream, reported events stay reported, in order. |
| Lifetime.OverForGood | protocol/model/consumer.go:166-206 | Once a connection is over no input ever adds an event. |
| Lifetime.QuitIsOver | protocol/mctext/consumer.go:199-206 | After quit no event is ever added. |
| Lifetime.BinaryIsOver | protocol/mctext/consumer.go:71-76 | After the binary protocol's magic byte no event is ever added. |
| Lifetime.OnlyBinaryStops | protocol/mctext/consumer.go:71-76 | A first byte switches the consumer off if and only if it is 0x80. |
| Lifetime.ServerEndIsOver | protocol/model/consumer.go:198-206 | After the end of the server's stream no event is ever added. |
| ReaderPools.ReaderPool.Get | protocol/model/consumer.go:110-114 | A reset reader that is new or leaves the pool. |
| Connections.Connections.Open | protocol/model/consumer.go:110-121 | Another connection in its initial state; no reader is shared. |
| Connections.Connections.ClientReassembled | protocol/model/consumer.go:169-175 | One connection moves on as specified, all others are untouched, and every reader keeps exactly one owner. |
| Connections.Connections.ServerReassembled | protocol/model/consumer.go:190-196 | The same for the server's segments. |
| Connections.Connections.ClientComplete | protocol/model/consumer.go:177-185 | The same when the client's stream ends, in any order with the other events. |
| Connections.Connections.ServerComplete | protocol/model/consumer.go:198-206 | The same when the server's stream ends. |
| Segmentation.SettleToClient | protocol/mctext/consumer.go:41-142 | Running and then receiving more client data is the same as having had it from the start, for every machine that is not before its first command with a lost position in front of it; if the run fails, it fails with the data too. |
| Segmentation.SettleToServer | protocol/mctext/consumer.go:41-58 | The same for server data while the client has sent no further command. |
| Segmentation.CutClientSegment | protocol/mctext/consumer.go:41-142 | A client segment may be cut in two where its first part neither resynchronises nor stops at a gap before the first command, and nothing overruns the buffer. |
| Segmentation.CutServerSegment | protocol/mctext/consumer.go:144-222 | A server segment may be cut in two where its first part does not resynchronise, no client bytes are waiting, and nothing overruns the buffer. |
| Segmentation.FeedKeepsOk | protocol/mctext/consumer.go:41-58 | What the segmentation results assume holds of a new machine and is kept by every segment. |
| Runs.SettleQuiet | protocol/mctext/consumer.go:144-180 | Without a reply nothing is reported. |
| Runs.EmptySegmentIgnored | protocol/model/consumer.go:169-196 | An empty segment changes nothing about a machine at a standstill that does not owe a negative number of bytes. |
| Wire.ParseHeader | protocol/mctext/consumer.go:155-166 | A printed VALUE header is read as exactly its key and the length of its value. |
| Wire.ReplyEnds | protocol/mctext/consumer.go:155-178 | A reply line ends the reply if and only if it is not VALUE with at least three more fields. |
| Wire.PrintedValue | protocol/mctext/consumer.go:158 | A value whose length is printed in decimal is well formed, whatever its bytes. |
| Wire.PrintedStorage | protocol/mctext/consumer.go:186 | A storage command whose length is printed in decimal is well formed, whatever its bytes. |
| Text.SplitExactly | protocol/mctext/consumer.go:155 | The fields joined by single spaces are the line again, none of them holds a space, and there is one more of them than spaces. |
| Text.TrimEolExactly | assembly/reader/buffer.go:112-130 | A line loses its newline and one carriage return before it, and nothing else. |
| Text.AtoiSigned | protocol/mctext/consumer.go:158 | A printed number, with a sign or without, is read as itself exactly if it fits 64 bits. |
| Text.AtoiRefuses | protocol/mctext/consumer.go:158 | A text without digits, or with anything else behind its sign, is not a number. |
| Requests.ClientSegment | protocol/mctext/consumer.go:81-142 | Each client segment that fits the reader when it arrives, with any harmless loss, takes the machine of the position before it to the machine of the position after it, for requests of any length and what was owed before them. |
| Replies.GetWalk | protocol/mctext/consumer.go:144-180 | After any prefix of a reply the hits with complete headers are reported and the rest is kept or owed. |
| Replies.AnyHeaderStep | protocol/mctext/consumer.go:155-174 | A header with any number in its size field reports a hit of that size and skips size + 2 positions, forwards or backwards; with no number the response is given up. |
| Replies.ServerSegment | protocol/mctext/consumer.go:144-222 | Each server segment that fits the reader when it arrives, with any loss inside values, takes the machine of the position before it to the machine of the position after it. |
| Replies.BlockArrives | protocol/mctext/consumer.go:182-197 | What is missing of a data block may arrive or be lost while the response is under way, and only lowers what is owed. |
| Replies.FailsIffHarmful | protocol/mctext/consumer.go:148-153 | At any point of a response a server segment makes the run fail if and only if it loses a byte outside the values. |
| ParserTheorems.SegmentsInvisible | protocol/mctext/consumer.go:41-222 | Every cutting of an exchange, every interleaving of its two sides and every harmless loss lead to the same machine. |
| ParserTheorems.ExchangeReported | protocol/mctext/consumer.go:144-197 | At every point of an exchange, however cut and interleaved, exactly the hits with complete VALUE headers are reported; afterwards the machine is back at the next command. |
| ParserTheorems.ConversationReported | protocol/mctext/consumer.go:41-222 | Any number of exchanges is reported completely and exactly, with the lost end of a data block known only at the next request. |
| ParserTheorems.ConnectionReported | protocol/mctext/consumer.go:32-39 | The same from the start of a connection to any point within an exchange. |
| Counted.ConversationCounted | analysis/worker.go:56-65 | However the events of a conversation are handed over in batches, what is counted for it is exactly the values the server returned, each under its key and with its length. |
| ParserTheorems.Recovery | protocol/mctext/consumer.go:49-55 | After a server segment that makes the run fail the rest of the response is ignored and all later exchanges are reported exactly. |
| ParserTheorems.LossRecovered | protocol/mctext/consumer.go:49-55 | Any loss outside the values gives up the response: the hits reported so far stay, the rest of it is ignored, and all later exchanges are reported exactly. |
| ParserTheorems.IdleIgnoresServer | protocol/mctext/consumer.go:81-83 | Between exchanges a server segment changes nothing if and only if it fits an empty buffer. |
| ParserTheorems.OversizeLosesNext | assembly/reader/reader.go:27-36 | After a server segment between exchanges that is too large, no further server segment is taken; the next retrieval is not reported, and the exchanges after it are. |
| Commands.ActedOnIffArguments | protocol/mctext/consumer.go:97-108 | A recognised command line is acted on at once if and only if it has arguments. |
| Commands.BareCommandWaits | protocol/mctext/consumer.go:101-103 | A recognised command without arguments leaves the parser waiting for arguments. |
| Commands.QuitLineIsOver | protocol/mctext/consumer.go:199-206 | From the bytes of a quit line with anything behind the word, if only a space: nothing is ever reported again. |
| Commands.DesyncIffNotWord | protocol/mctext/consumer.go:94-99 | A first word makes the parser resynchronise if and only if, without the blanks behind it, it is empty or holds anything but A-Z and a-z. |
| Commands.UnknownSkipped | protocol/mctext/consumer.go:106-107 | Any other word, sent without arguments, is skipped together with its one-line response, and the parser is ready again. |
| Pairing.StreamFactory.New | assembly/streamfactory.go:72-99 | A key is half open exactly after an odd number of calls, two calls share a consumer exactly if they are the two of one pair, and the stream is the server's exactly if the source port is a memcache port. |
| Pairing.DirectionsMeet | assembly/streamfactory.go:77-80 | The two directions have one key if and only if exactly one port is a memcache port, or they are the same flow. |
| Pairing.SidesOfOneConsumer | assembly/streamfactory.go:72-99 | With one memcache port, what is sent from it is the server's stream and what is sent to it the client's stream of one consumer, exactly if the two calls are one pair. |
| Pairing.KeyHasOneWorker | assembly/pool.go:56-58 | With symmetric flow hashes all packets under one key go to one worker. |
| Pairing.PartnersShare | assembly/streamfactory.go:84-89 | Consecutive calls for a key share a consumer exactly if the first of them opened the pair, whatever comes in between. |
| Pairing.AtMostTwo | assembly/streamfactory.go:84-89 | No three calls share a consumer. |
| FlowHash.Shift47 | decode/decode.go:144 | Shifting a word right by 47 bits is dividing it by 2^47. |
| FlowHash.BijectiveInFirst | decode/decode.go:139-151 | For each second word, hashing is a bijection of the first, with a given inverse. |
| FlowHash.BijectiveInSecond | decode/decode.go:139-151 | For each first word, hashing is a bijection of the second, with a given inverse. |
| FlowHash.LowBit | decode/decode.go:139-151 | The lowest bit of the hash, for all words: bit 47 of the product is folded into it. |
| FlowHash.HighBitsReachLowBits | decode/decode.go:144 | Two second words that agree in their low 47 bits hash to different low bits, with every first word. |
| FlowHash.ZeroSecond | decode/decode.go:147-150 | With a zero second word the hash is the last multiplication and addition. |
| Grouping.PartitionBatch | assembly/pool.go:47-54 | The loop computes, for each worker, the elements of its slot in order. |
| Grouping.PartitionKeeps | analysis/pool.go:84-91 | Partitioning keeps every element exactly as often as it was there. |
| HandOffTheorems.PartitionPackets | assembly/pool.go:47-54 | Every packet of a batch goes to exactly one group, the one its flow hash names. |
| HandOffRouting.PacketsRouted | assembly/pool.go:47-58 | In every run a packet is only ever queued or in progress at the worker its flow hash names. |
| HandOffRouting.ConnectionHasOneWorker | assembly/pool.go:47-58 | Packets of flows with one connection key are never at two assembly workers, at any two moments. |
| HandOffTheorems.NoBatchRefused | assembly/worker.go:40 | In every run with at most 128 decode workers no queue refuses a batch. |
| HandOffTheorems.RefusalPossible | assembly/worker.go:50-57 | With more than 128 decode workers some run refuses a batch. |
| HandOffTheorems.RefusalsExactly | assembly/worker.go:40-57 | No run refuses a batch if and only if there are at most 128 decode workers, for every number of assembly workers. |
| HandOffTheorems.BufferOwnership | decode/worker.go:33-41 | While the capture thread fills a worker's buffer nobody refers to a packet of that worker. |
| HandOffTheorems.SignalsArrive | assembly/pool.go:41-43 | Every call still waiting has its done signals there or coming, except for refused batches, and no worker ever blocks sending. |
| HandOffTheorems.Shutdown | decode/pool.go:61-68 | When Run returns every worker has been closed once, exactly the packets read from the source have been handled, and no batch refused, for any number of workers. |
| HandOffTheorems.NoDeadlock | decode/pool.go:56-85 | Unless a source error has left a worker out or a batch was refused, some step is possible until Run has returned. |
| HandOffTheorems.StuckNeverReturns | decode/pool.go:106-109 | With a worker left out by a source error, or waiting for a refused batch, Run never returns, whatever happens later. |
| HandOffReturns.ReturnsExactly | decode/pool.go:56-85 | After the end of the input every schedule is finite, and one that cannot go on has made Run return if and only if no worker was left out and no batch refused. |
| HandOffReturns.CanReturn | decode/pool.go:61-68 | From every such state without a stuck worker there is a schedule with which Run returns. |
| HandOffReturns.RefusalHangs | assembly/pool.go:36-43 | A refused batch is counted as sent, so its sender waits for ever and Run never returns. |
| HandOffReturns.LeftOutReachable | decode/pool.go:106-109 | With two or more workers, a run in which a source error leaves one out and the input then ends. |
| HotList.PerfectHotlist.Reset | hotlist/perfect.go:21-25 | Nothing is counted any more. |
| HotList.PerfectHotlist.Top | hotlist/perfect.go:27-29 | A top-k list of what was counted. |
| HotList.OrderedTop | hotlist/hotlist.go:48-65 | The k heaviest items, each once, heaviest first; nothing left out weighs more than anything listed. |
| HotList.TopWeightsUnique | hotlist/hotlist.go:42-46 | However ties are broken, the weights of a top list are determined by what was counted. |
| Report.MakeReport | analysis/report.go:68-92 | All entries of all workers' top lists, reordered; descending, no (name, size) twice, and the first reportSize entries are a top list of all workers together. |
| Report.MergedTop | analysis/report.go:68-90 | Merging per-worker top-k lists gives the global top k. |
| AnalysisPool.TallyAdd | hotlist/perfect.go:13-19 | Adding an item to the hotlist's map is adding it to the multiset of counted items. |
| AnalysisTheorems.EventsConserved | analysis/pool.go:70-82 | In every reachable state the events passed in by the run's calls are handled, dropped or in a call's hands, and the handled ones are counted, queued, taken or cleared, up to those a call is about to add. |
| AnalysisTheorems.GlobalCounter | analysis/pool.go:124-130 | In every reachable state all of a key's events passed in were refused, are in a call's hands, or are with the key's own worker; the hotlists together are one global counter. |
| AnalysisTheorems.RepliesMatched | analysis/worker.go:76-79 | At most one caller awaits a worker's reply, exactly while it is replying, and gets the top of that worker's hotlist for its own k. |
| AnalysisTheorems.AnswerGoesToAsker | analysis/worker.go:105-106 | Whoever receives a reply is the caller it was computed for. |
| AnalysisTheorems.HotlistsDisjoint | analysis/pool.go:84-91 | In every run no key is in two hotlists. |
| AnalysisTheorems.PolledReport | analysis/report.go:68-76 | Though workers answer at different moments, the first k merged entries are the k heaviest of all they answered from. |
| AnalysisHistory.HotlistSinceReset | analysis/worker.go:97-109 | In every run a worker's hotlist is exactly what it has counted since its last reset. |
| AnalysisHistory.ResetClears | analysis/worker.go:108-109 | An accepted reset is of the worker the caller asked for: its hotlist is empty afterwards, exactly what it held is cleared, and no other worker is touched. |
| AnalysisHistory.AnswerIsCurrent | analysis/worker.go:105-106 | An answer is the top of what the asked worker has counted since its last reset, for the number asked for. |
| AnalysisLimits.QueueBounded | analysis/worker.go:43 | In no run does a queue hold more than 1024 batches, or an empty one. |
| AnalysisLimits.NothingDropped | analysis/worker.go:66-71 | With up to 1024 events passed in, none is refused or dropped, in any run. |
| AnalysisLimits.DropsExactly | analysis/worker.go:66-71 | No run with that many events drops any if and only if they are at most 1024, for any number of workers. |
| AnalysisReturns.NoDeadlock | analysis/worker.go:94-111 | In every reachable state with anything under way something can go on without a new call. |
| AnalysisReturns.CallsReturn | analysis/pool.go:70-82 | Without new calls every schedule is finite, and then every call has returned and each key is refused, counted by its own worker, or cleared. |
| AnalysisReturns.TopServed | analysis/worker.go:76-79 | When nothing is under way a caller can ask any worker for a top list, and gets that of its hotlist. |
| AnalysisReturns.ResetServed | analysis/worker.go:84-86 | When nothing is under way a caller can reset any worker, whose hotlist is then empty. |
| AnalysisWorker.HandleEvents | analysis/worker.go:56-65 | The items sent are those of the specification, position by position. |
| AnalysisWorker.ExactIffHitsFirst | analysis/worker.go:60-65 | The items sent are exactly the hits if and only if no other event comes before a hit. |
| AnalysisWorker.MissBeforeHit | analysis/worker.go:60-65 | A miss before a hit makes a blank item counted. |
| PacketBuffers.BlockBuffer.Block | capture/packetbuffer.go:40-47 | Block n is the n-th block appended, byte for byte. |
| PacketBuffers.BlockBuffer.Append | capture/packetbuffer.go:63-82 | Appends one block behind the unchanged others, or says why not and changes nothing. |
| PacketBuffers.PacketBuffer.Packet | capture/packetbuffer.go:123-128 | Packet n is the n-th packet appended, data and information. |
| PacketBuffers.PacketBuffer.Append | capture/packetbuffer.go:101-108 | Appends one packet behind the unchanged others, or says why not and changes nothing. |
| PacketBuffers.PacketBuffer.Clear | capture/packetbuffer.go:130-133 | No packets, and all the room there is. |
| Replay.Replayer.Fill | capture/replay.go:117-127 | The next batch replaces the used-up one; the first timestamp is kept for good; the source's failure or end of file is returned as it is. |
| Replay.Replayer.DropExpired | capture/replay.go:78-87 | Exactly the leading late packets are dropped and counted, and the next one is not late. |
| Replay.Replayer.Deliver | capture/replay.go:58-75 | Due packets are delivered unchanged and in order; delivery stops only at the end of the batch, at a packet not yet due, for lack of room, or at a packet that does not fit, and it is a timeout exactly if the very first packet is not due. |
| Replay.Replayer.CollectPackets | capture/replay.go:42-76 | Every source packet is delivered once unchanged, dropped once, discarded once or pending, in order; delivered ones lie in the time window; an end of file means the script is used up and nothing is left, a failure is the one reached in the script. |
| Replay.Replayer.DiscardPacket | capture/replay.go:89-108 | One due packet is discarded and counted, or nothing is; a timeout means that the packet at the cursor is more than 10 ms ahead, and the source's answers are returned as they are. |

## Left out

- Consumers.Consumer.RunProtocol: after a failing state the readers' contents are not compared before the resynchronisation, which empties them.
- Consumers.Consumer.FlushEvents: the handler is the sequence of all events given to it; how they are grouped into batches, and that batches share one backing array, is not modelled.
- ParserTheorems.SegmentsInvisible: segments are not empty (`Runs.EmptySegmentIgnored` covers empty ones at a standstill), and each fits the reader when it arrives.
- ParserTheorems.LossRecovered: only losses in responses; a loss in a command line, or one that reaches beyond a data block, is not characterised, and the exchanges after the recovery start with no data block pending.
- ParserTheorems.ConversationReported: retrievals with at least one key and storage commands with a reply, without pipelining; unknown commands with arguments leave them unread, and noreply has no response.
- Replay.Replayer.CollectPackets: the time since the start is a parameter, and sleeping is not modelled.
- AnalysisTheorems.GlobalCounter: the filter is applied before; its regular expression is a library call.
- Bytes are characters, so the results hold for more than byte strings; the high bytes of the binary protocol's magic byte are the same character code.
- The fixed width of counters and of `size+2` is not modelled, except in the flow hash; sizes that parse are 64-bit.
- `sort.Sort` is modelled by insertion sort; only sortedness and the elements are used, and ties may be broken in any way.
- `sync.Pool` is a pool that gives any reader it has or a new one.
- Decoding of packet layers, TCP reassembly and libpcap are foreign code: segments, packets and flow hashes are inputs.
- FNV-1a is any function of the key; FastHash is any function of the flow that ignores direction.
- Discarding packets while no decode worker is ready does not touch the workers and is not a step of the hand-off machine.
- The presentation, logging, flags and wiring have no property of this kind.
