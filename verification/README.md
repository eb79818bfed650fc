# A verified model of the MPC node's core algorithms

This project models four parts of the repository in Dafny and proves what they are for. Nothing here runs the
original program. Check everything with `dafny verify dfyconfig.toml`.

**RLP** (`Rlp*.dfy`, `BigEndian.dfy`, `FixedHash.dfy`). `RLPStream` writes nested lists without recursion: one flat
buffer, a stack of lists still owed items, and headers patched in by shifting the tail when a list closes. The
stream is proved against a forest of finished and open lists whose bytes the buffer holds at all times; writing a tree
gives its recursive encoding (Appendix B of the Ethereum Yellow Paper). The strict reader is proved to be its
inverse in both directions, with the one exception of payloads in the last 257 lengths below 2^64, which can be
written but not read. The iterator, the item count and the cached `operator[]` are proved against one way of cutting a
payload into items, `operator[]` on malformed payloads too.

**The macro-expansion compiler of MIRACL** (`Mex*.dfy`). The emitting loops of `mex.c` produce a sequence of macros,
and a machine says what each macro does. The texts of the macros are not part of this model: `MexMachine` states what
they are relied on to do (a product added to an accumulator, a word stored and the accumulator shifted, a quotient
digit chosen, a load into a slot that must be empty), and a program fails as soon as an index, a slot or the
accumulator breaks that contract. The emitted programs are proved not to fail and to compute product, low product,
square and Montgomery reduction, for every size, every word base above 1, scheduled or not, and for the block forms.

**Starting a task and the message channel** (`Handshake.dfy`, `Dispatcher.dfy`, `Pipeline.dfy`, `Message.dfy`,
`PipelineProgress.dfy`, `Stream.dfy`, `StreamProgress.dfy`, `StreamLeftovers.dfy`, `Receiver.dfy`). State machines over
the critical sections of the threads of two nodes, with theorems about every interleaving, and classes for the objects
whose methods take those steps. In the pipeline of one node every task carries the handshake of its two nodes with it. A
method that waits on a condition variable either reports that it has to wait or takes as a parameter what other threads
do meanwhile.

**Hash framing** (`Rotation.dfy`, `RoundConstants.dfy`, `Keccak.dfy`, `Sponge.dfy`, `Ripemd.dfy`). In-place loops and
tables against the specifications: the step mappings and the sponge of FIPS 202, the padding of RFC 1320.

Where code and documentation part, the model follows the code:

- `operator[]` is documented to give the null node for anything but a list; a byte string is indexed as if its contents
  were items (`RlpIndex.PromiseIsKept` says exactly when the comment holds). After an exception on a malformed list the
  item in front of the unreadable part is refused too (`RlpIndex.RLP.Index`, `RlpIndex.AskedInOrder`).
- A range-for over a list that is followed by other bytes in its buffer, which lax construction allows, never reaches
  `end()` (`RlpNode.IterationEndsWithoutTrailer`, `RlpNode.TrailerExample`).
- Without `FailIfTooBig`, `toInt` of too large an integer drops its highest bytes and `toHash` its lowest
  (`RlpInt.IntegersReadBack`, `RlpInt.IntegersAsHashes`).
- `sha3_224` to `sha3_512` stand under a heading that names FIPS 202 but pad as the original Keccak
  (`Sponge.DelimitersInUse`).
- RIPEMD-160 counts in 32 bits and hashes only the beginning of a message of 2^32 bytes or more
  (`Ripemd.FramedIfShort`).
- `main` falls back to plain code when PARAM is not a multiple of `hybrid` or `hybrid_b`, but not for `hybrid_r`; the
  emitted REDC then keeps to the words of the modulus exactly if PARAM happens to be a multiple
  (`MexHybrid.RedcRunsOnMultiples`, `MexHybrid.RedcOfThreeWords`).
- Writing the task state, reading it and looking the task up are separate critical sections, so a task can be pushed
  twice (`Handshake.PushedOnceOrTwice` says exactly when), and a handler can find its task gone
  (`Handshake.WorkingTaskIsMissed` says exactly when). A task pushed twice is run twice, and its processor may then wait
  in `removeRequest` until the next task is admitted (`PipelineProgress.WaitsForSlotIf`,
  `PipelineProgress.WaitsForAdmission`, `PipelineProgress.AdmissionReleases`).
- Parking a buffer is two critical sections and the reader looks for parked buffers once per call, so a message can be
  lost, come back, or be overlooked; the bytes delivered are still right, but the reader may wait for ever
  (`StreamProgress.ConsumesIf` and `StreamProgress.NeverWaitsIf` say exactly when).
- A processor keeps the buffers an earlier task has left in its queue. Any of them can be taken for a message of the next
  task (`StreamLeftovers.NextIs` says exactly when, `StreamLeftovers.RightIf`).

Numbers are unbounded except where the source's width matters: sizes are below 2^64, the byte count of an integer
below 2^32, state bits, hash lanes and words are bit vectors, and the 32-bit lengths of RIPEMD-160 are written out
modulo 2^32.

## Model

| member | source | states |
|---|---|---|
| `BigEndian.ValueOfCompact` | third-code/eth-simplest/libdevcore/CommonData.h:152-163 | the compact form of a value denotes that value and has no leading zero byte |
| `BigEndian.CompactOfValue` | third-code/eth-simplest/libdevcore/CommonData.h:134-163 | every byte string without a leading zero is the compact form of the value it denotes |
| `BigEndian.CompactLength` | third-code/eth-simplest/libdevcore/CommonData.h:211-219 | a value needs at most n bytes exactly when it is below 256^n |
| `BigEndian.BytesRequired` | third-code/eth-simplest/libdevcore/CommonData.h:211-219 | the count is the length of the compact form |
| `BigEndian.FromBigEndian` | third-code/eth-simplest/libdevcore/CommonData.h:134-144 | the result is the number the bytes denote, whatever their leading zeros |
| `BigEndian.ToBigEndian` | third-code/eth-simplest/libdevcore/CommonData.h:118-132 | the fixed-size output holds the low bytes of the value, zeros above |
| `BigEndian.ToCompactBigEndian` | third-code/eth-simplest/libdevcore/CommonData.h:154-163 | as many bytes as the value or the minimum needs, denoting the value |
| `RlpStream.DriveAddsTheTree` | third-code/eth-simplest/libdevcore/RLP.cpp:229-307 | for every tree and every stack of open lists, announcing each list and appending its children adds exactly one item, and fails exactly when some list on the way has no encoding |
| `RlpStream.Settle` | third-code/eth-simplest/libdevcore/RLP.cpp:236-240 | items that do not complete the innermost list leave buffer and stack representing the lists with those items added |
| `RlpStream.Close` | third-code/eth-simplest/libdevcore/RLP.cpp:241-264 | a completed list, with its header patched in front of its bytes, is one item still to be counted by the list around it |
| `RlpStream.RLPStream.NoteAppended` | third-code/eth-simplest/libdevcore/RLP.cpp:229-266 | the cascade of closing lists keeps buffer and stack equal to the bytes of the forest of finished and open lists, with the two exceptions exactly where specified |
| `RlpStream.RLPStream.InsertHeader` | third-code/eth-simplest/libdevcore/RLP.cpp:245-262 | shifting the tail and patching the header leaves the front untouched and turns the rest into one encoded list, or fails when it has no encoding |
| `RlpStream.RLPStream.PutBackwards` | third-code/eth-simplest/libdevcore/RLP.cpp:257-259 | the backward loop writes the compact big-endian form and nothing else |
| `RlpStream.RLPStream.PushInt` | third-code/eth-simplest/libdevcore/RLP.h:434-441 | appends the compact big-endian form |
| `RlpStream.RLPStream.PushCount` | third-code/eth-simplest/libdevcore/RLP.cpp:334-341 | appends the long-form header of every size_t count and never throws |
| `RlpStream.RLPStream.AppendRaw` | third-code/eth-simplest/libdevcore/RLP.cpp:222-227 | raw bytes of whole items count as those items; with a count of zero only the buffer grows |
| `RlpStream.RLPStream.AppendList` | third-code/eth-simplest/libdevcore/RLP.cpp:268-276 | opens a list of n items; an empty list is written at once |
| `RlpStream.RLPStream.AppendEncodedList` | third-code/eth-simplest/libdevcore/RLP.cpp:278-286 | already encoded items become one list |
| `RlpStream.RLPStream.AppendData` | third-code/eth-simplest/libdevcore/RLP.cpp:288-307 | a byte string becomes its Yellow Paper encoding, without its leading zeros in compact mode |
| `RlpStream.RLPStream.AppendInt` | third-code/eth-simplest/libdevcore/RLP.cpp:309-332 | an integer becomes the encoding of its compact bytes |
| `RlpStream.RLPStream.AppendItem` | third-code/eth-simplest/libdevcore/RLP.h:394-400 | a nested collection becomes one item of the innermost open list, at any nesting depth |
| `RlpStream.RLPStream.Out` | third-code/eth-simplest/libdevcore/RLP.h:418-419 | the bytes are handed out exactly when no list is open |
| `RlpStream.Rlp` | third-code/eth-simplest/libdevcore/RLP.h:449-462 | the non-recursive writer refines the recursive encoder: same bytes for every tree, and failure exactly when there is no encoding |
| `RlpSpec.EncodedString` | third-code/eth-simplest/libdevcore/RLP.cpp:288-341 | Appendix B of the Yellow Paper in numbers: a byte below 128 stands for itself, up to 55 bytes stand behind 128 plus their number, more behind 183 plus the length of their number and that number, from 2^64 bytes on there is no encoding |
| `RlpSpec.EncodedList` | third-code/eth-simplest/libdevcore/RLP.cpp:241-286 | the same for the items of a list, behind 192 and 247 |
| `RlpStream.StrippedIs` | third-code/eth-simplest/libdevcore/RLP.cpp:288-293 | compact mode takes off all leading zeros and nothing else |
| `RlpParse.ShortEncodingsAreRead` | third-code/eth-simplest/libdevcore/RLP.cpp:36-53 | every tree whose encoding is shorter than 2^64 - 257 bytes is read back |
| `RlpParse.LengthIs` | third-code/eth-simplest/libdevcore/RLP.cpp:151-207 | a length is read exactly from a canonical header that announces less than 2^64 - 257 bytes; one that announces more is refused for its size, and every other prefix as malformed |
| `RlpParse.CheckIs` | third-code/eth-simplest/libdevcore/RLP.cpp:36-53 | the constructor calls data too short or too long exactly when it has fewer or more bytes than its header announces |
| `RlpParse.DecodeInvertsEncode` | third-code/eth-simplest/libdevcore/RLP.cpp:36-53 | strict reading of b gives tree t if and only if b is the encoding of t and every payload of t is below the reader's limit of 2^64 - 257 bytes |
| `RlpParse.UnreadableExactlyAtTheLimit` | third-code/eth-simplest/libdevcore/RLP.cpp:202-206 | a written tree can be read back exactly when all its payloads are below the limit |
| `RlpParse.PrefixFree` | third-code/eth-simplest/libdevcore/RLP.cpp:100-109 | no encoding is a proper prefix of another |
| `RlpParse.OneTreePerEncoding` | third-code/eth-simplest/libdevcore/RLP.cpp:151-207 | no two trees share an encoding |
| `RlpParse.ReadHeader` | third-code/eth-simplest/libdevcore/RLP.cpp:151-207 | the header written for a length is read back as that length and offset, whatever follows |
| `RlpParse.WriteHeader` | third-code/eth-simplest/libdevcore/RLP.cpp:111-207 | every prefix the strict reader accepts is the one canonical header of its length |
| `RlpNode.ReadLength` | third-code/eth-simplest/libdevcore/RLP.cpp:151-207 | the byte-wise length loop with its checks computes the length of the specification, errors included |
| `RlpNode.SlicesPartition` | third-code/eth-simplest/libdevcore/RLP.cpp:209-220 | the item slices are not empty, follow one another and cover the payload exactly |
| `RlpNode.DecodeSlices` | third-code/eth-simplest/libdevcore/RLP.cpp:209-220 | a payload read strictly to its end is cut into one slice per item, each the encoding of its item |
| `RlpNode.CountItems` | third-code/eth-simplest/libdevcore/RLP.cpp:209-220 | items() is the number of slices, and every step strictly shrinks the rest |
| `RlpNode.AdvanceIsNext` | third-code/eth-simplest/libdevcore/RLP.cpp:55-66 | from item k of a divided payload operator++ leads to item k + 1, and from the last item and from the end to the end, without an error |
| `RlpNode.Iterator.Increment` | third-code/eth-simplest/libdevcore/RLP.cpp:55-66 | in place, for every division of a payload into items: a view on item k moves to item k + 1 or to the end |
| `RlpNode.Children` | third-code/eth-simplest/libdevcore/RLP.cpp:55-81 | iterating a strict list terminates and visits exactly its items, in order |
| `RlpNode.IterationEndsWithoutTrailer` | third-code/eth-simplest/libdevcore/RLP.cpp:68-81 | stepping from begin() ever reaches end() if and only if nothing follows the list in its buffer |
| `RlpNode.TrailerExample` | third-code/eth-simplest/libdevcore/RLP.cpp:68-81 | the bytes c1 80 00, a list of one empty string and a byte behind it, for which it never does |
| `RlpIndex.ReadAt` | third-code/eth-simplest/libdevcore/RLP.cpp:83-98 | the items read from any payload follow one another from its front to its end or to the first place that cannot be read |
| `RlpIndex.RLP.Index` | third-code/eth-simplest/libdevcore/RLP.cpp:83-98 | for every payload, readable or not, and every earlier history of the cache: item i, the null node behind the last item, or the error in front of item i; except that the largest index gives the null node on a fresh node, and that right after a call that has thrown behind an item the index of that item throws too |
| `RlpIndex.RLP.Forward` | third-code/eth-simplest/libdevcore/RLP.cpp:91-96 | the cache moves to the next item or, when that cannot be read, is left holding the unreadable rest under the old index |
| `RlpIndex.RLP.Restart` | third-code/eth-simplest/libdevcore/RLP.cpp:85-90 | the cache starts over at the first item, or throws and is left as it was |
| `RlpIndex.AskedInOrder` | third-code/eth-simplest/libdevcore/RLP.cpp:83-98 | on the bytes c2 01 b8 index 0 gives the item 01, index 1 throws, and then index 0 throws |
| `RlpIndex.StrictListsAreIndexed` | third-code/eth-simplest/libdevcore/RLP.cpp:83-98 | on every strictly read list index i gives the encoding of item i, and the null node behind the last item |
| `RlpIndex.PromiseIsKept` | third-code/eth-simplest/libdevcore/RLP.h:122-125 | the comment (item i of a list, the null node otherwise) holds for every index if and only if the node is a list whose payload divides into items, or no list and its payload is empty |
| `RlpIndex.StringIndexedExample` | third-code/eth-simplest/libdevcore/RLP.h:122-125 | index 0 of the string "abc" is the item "a", not the null node |
| `RlpInt.IntegersSurvive` | third-code/eth-simplest/libdevcore/RLP.h:256-278 | toInt gives v if and only if the bytes are what append(bigint) writes for v and v fits the type |
| `RlpInt.IntegersReadBack` | third-code/eth-simplest/libdevcore/RLP.h:256-278 | with any flags toInt of a written integer that fits the type is that integer; otherwise it is refused or, without FailIfTooBig, wrapped around |
| `RlpInt.LaxReadsAnyData` | third-code/eth-simplest/libdevcore/RLP.h:256-278 | with AllowNonCanon and without FailIfTooBig every strict data node is a number, leading zeros or not |
| `RlpInt.StringsAsHashes` | third-code/eth-simplest/libdevcore/RLP.h:288-305 | with any flags toHash of any written string, leading zeros or not and whatever follows it in its buffer, is the string, or its first N bytes, right-aligned in N bytes; it is refused by its size alone, in the two cases the flags name |
| `RlpInt.StringsAsIntegers` | third-code/eth-simplest/libdevcore/RLP.h:256-278 | with any flags toInt of any written string, whatever follows it, is its number modulo the type, refused exactly for leading zeros without AllowNonCanon and for its size with FailIfTooBig |
| `RlpInt.MalformedThrows` | third-code/eth-simplest/libdevcore/RLP.h:256-305 | without a good node both throw BadRLP, whatever the flags |
| `RlpInt.ListsAreRefused` | third-code/eth-simplest/libdevcore/RLP.h:256-305 | toInt and toHash refuse every list |
| `RlpInt.IntegersAsHashes` | third-code/eth-simplest/libdevcore/RLP.h:288-305 | with any flags a written integer below 256^N read by toHash is its N-byte big-endian form, unless it is shorter and FailIfTooSmall is set; from 256^N on it is refused or, without FailIfTooBig, divided by a power of 256 |
| `FixedHash.AlignRightKeepsValue` | third-code/eth-simplest/libdevcore/FixedHash.h:67-80 | right alignment keeps the number modulo 256^N |
| `FixedHash.AlignLeftShiftsValue` | third-code/eth-simplest/libdevcore/FixedHash.h:67-80 | left alignment multiplies or divides the number by a power of 256 |
| `FixedHash.Hash.Zero` | third-code/eth-simplest/libdevcore/FixedHash.h:65 | a new hash is all zeros |
| `FixedHash.Hash.FromBytes` | third-code/eth-simplest/libdevcore/FixedHash.h:67-80 | the copying loop aligns the bytes as asked |
| `FixedHash.Hash.Increment` | third-code/eth-simplest/libdevcore/FixedHash.h:111-112 | operator++ adds one modulo 256^N |
| `FixedHash.Hash.Less` | third-code/eth-simplest/libdevcore/FixedHash.h:97 | operator< is numeric order |
| `FixedHash.Hash.FirstBitSet` | third-code/eth-simplest/libdevcore/FixedHash.h:207-220 | the position found brackets the number between two powers of two; the number of bits for zero |
| `MexCode.EmitMultiply` | third-code/miracl/mex.c:407-500 | for every PARAM the loops emit the column program of PARAM / inc digits with block indices |
| `MexCode.EmitMultUp` | third-code/miracl/mex.c:501-567 | the same for the low half |
| `MexCode.EmitSquare` | third-code/miracl/mex.c:568-683 | the same for squaring, with SELF exactly on the columns that have a middle product |
| `MexCode.EmitRedc` | third-code/miracl/mex.c:684-792 | the same for reduction when PARAM is a multiple of the block size; otherwise the way up takes in one block too many |
| `MexCode.EmitRedcUp` | third-code/miracl/mex.c:706-744 | the way up covers every block that has a word below PARAM |
| `MexCode.EmitScheduled` | third-code/miracl/mex.c:220-243 | prologue, schedule and epilogue emit each product's load once and its addition once, alternating two slots |
| `MexPairs.EachPairOnce` | third-code/miracl/mex.c:407-500 | MULTIPLY multiplies every pair of digits exactly once, scheduled or not |
| `MexPairs.ColumnsOccur` | third-code/miracl/mex.c:416-493 | after n columns exactly the pairs of weight below n have been multiplied |
| `MexMachine.BrokenContracts` | third-code/miracl/mex.c:68-105 | what stops a program: a digit that is not there, a full slot loaded or an empty one added, an accumulator that overflows, a top word that does not fit |
| `MexMachine.SchedulingPreservesMeaning` | third-code/miracl/mex.c:220-293 | for every column the two-slot pipeline and the plain sequence end in the same state, with both slots empty |
| `MexMachine.RunPipeline` | third-code/miracl/mex.c:220-293 | at every point one product waits in its slot, the other slot is empty and all earlier products are in the accumulator |
| `MexMachine.RunScaled` | third-code/miracl/mex.c:407-792 | code over blocks does to the blocks what plain code does to digits |
| `MexProduct.CarryBound` | third-code/miracl/mex.c:407-500 | products and carry stay below PARAM * base^2, and the next carry is no larger than this one may be |
| `MexProduct.LastDigit` | third-code/miracl/mex.c:494-499 | what remains after the last column fits one word |
| `MexProduct.MultiplyIsProduct` | third-code/miracl/mex.c:407-500 | the emitted program leaves the exact product in 2 * PARAM digits, without overflow |
| `MexProduct.MultUpIsLowProduct` | third-code/miracl/mex.c:501-567 | MULTUP leaves the product modulo base^PARAM |
| `MexProduct.SquareIsProduct` | third-code/miracl/mex.c:568-683 | SQUARE leaves the number times itself |
| `MexProduct.SquareIsMultiply` | third-code/miracl/mex.c:568-683 | SQUARE and MULTIPLY of a number by itself leave the same words |
| `MexRedc.ReductionIsExact` | third-code/miracl/mex.c:684-792 | result * base^PARAM = number + quotient * modulus, with the division exact and the quotient below base^PARAM |
| `MexRedc.ReductionIsMontgomery` | third-code/miracl/mex.c:684-792 | the result is congruent to number * base^-PARAM and below twice the modulus, with a carry of at most one, whenever number < modulus * base^PARAM |
| `MexRedc.QuotientDigit` | third-code/miracl/mex.c:700-704 | the digit RFINU chooses makes its column divisible by the base |
| `MexRedc.OddHasInverse` | third-code/miracl/mex.c:684-704 | for an odd lowest word the constant REDC needs exists for every word size |
| `MexHybrid.HybridMultiply` | third-code/miracl/mex.c:407-500 | the hybrid program on word arrays leaves the exact product |
| `MexHybrid.HybridIsPlain` | third-code/miracl/mex.c:407-500 | the hybrid program leaves, word for word, what the plain one leaves |
| `MexHybrid.HybridMultUp` | third-code/miracl/mex.c:501-567 | the hybrid MULTUP leaves the product modulo base^PARAM of the word base |
| `MexHybrid.HybridSquare` | third-code/miracl/mex.c:568-683 | the hybrid SQUARE leaves the square |
| `MexHybrid.HybridRedc` | third-code/miracl/mex.c:684-792 | the hybrid REDC divides exactly by base^PARAM of the word base and stays below twice the modulus |
| `MexHybrid.RedcRunsOnMultiples` | third-code/miracl/mex.c:1015-1043 | on words read in blocks from the lowest one on, the emitted REDC keeps the contract of the macros if and only if PARAM is a multiple of hybrid_r, which main checks for hybrid and hybrid_b only; otherwise it uses a block of the modulus that is not there |
| `MexHybrid.RedcOfThreeWords` | third-code/miracl/mex.c:1015-1043 | the code emitted for three words in blocks of two cannot be run on the modulus 347 in decimal words, whose one whole block, the low one, has a unit digit |
| `Handshake.StepKeeps` | src/mpc-vm-service/task/mpc_p2p_task_ready_processor.cpp:347-401 | each critical section of the handlers, the callers and the removal keeps: the state holds exactly the bits whose writers have written until it is removed, the working entry is there between admission and removal, and pushes plus outstanding ones add up |
| `Handshake.PushedOnceOrTwice` | src/mpc-vm-service/task/mpc_p2p_task_ready_processor.cpp:386-401 | in every interleaving of the critical sections each node pushes the task once or twice: twice exactly when both updates of its state precede both finds, neither find comes after the removal of the state, and the lookup does not come after the removal of the working entry |
| `Handshake.PushedOnceWhenPaired` | src/mpc-vm-service/task/mpc_p2p_task_ready_processor.cpp:386-401 | with update and find as one step each node pushes exactly once, however the rest is interleaved |
| `Handshake.PushedTwice` | src/mpc-vm-service/task/mpc_task_dispatcher.cpp:159-185 | an interleaving in which Alice pushes the task twice |
| `Handshake.NeverTooEarly` | src/mpc-vm-service/server/mpc_node_channel_session_impl.cpp:39-94 | a node pushes only after both handlers have set their bits, the one at its peer has returned, and both nodes have taken the task |
| `Handshake.WorkingTaskIsThere` | src/mpc-vm-service/server/mpc_node_channel_session_impl.cpp:49-61 | a handler that has read 0x03 finds the working task if and only if it has not been removed yet |
| `Handshake.WorkingTaskIsMissed` | src/mpc-vm-service/server/mpc_node_channel_session_impl.cpp:49-61 | the branch that finds no working task is taken exactly when the working entry is removed before the lookup; then both updates preceded both finds, both finds the removal, and the node pushes once |
| `Handshake.LookedUpTooLate` | src/mpc-vm-service/task/mpc_task_processor.cpp:169-174 | an interleaving in which the caller pushes, the task is run and removed, and then the handler, which has read 0x03, finds no working task |
| `Handshake.RunTraces` | src/mpc-vm-service/task/mpc_task_dispatcher.cpp:159-185 | the order of the accesses at a node decides whether its updates crossed, a find came late and a lookup failed |
| `Dispatcher.TaskDispatcher.PutCommitTask` | src/mpc-vm-service/task/mpc_task_dispatcher.cpp:227-248 | accepted exactly when running and fewer than 4096 tasks wait; nothing changes otherwise |
| `Dispatcher.TaskDispatcher.PopCommitTask` | src/mpc-vm-service/task/mpc_task_dispatcher.cpp:250-272 | hands out the oldest task, or tells a stopped dispatcher from a timeout |
| `Dispatcher.TaskDispatcher.UpdateTaskState` | src/mpc-vm-service/task/mpc_task_dispatcher.cpp:177-185 | sets bits of one task and touches no other |
| `Dispatcher.TaskDispatcher.FindTaskState` | src/mpc-vm-service/task/mpc_task_dispatcher.cpp:159-168 | a missing entry is reported and leaves the caller's variable alone |
| `Dispatcher.TaskDispatcher.Init` | src/mpc-vm-service/task/mpc_task_dispatcher.cpp:77-95 | starts an idle dispatcher and changes none of its queues; a second call does nothing |
| `Dispatcher.TaskDispatcher.PutWorkingTask` | src/mpc-vm-service/task/mpc_task_dispatcher.cpp:468-471 | the task is found under its id from then on, in place of an older one |
| `Dispatcher.TaskDispatcher.GetWorkingTask` | src/mpc-vm-service/task/mpc_task_dispatcher.cpp:473-476 | hands out the working task of that id or reports that there is none |
| `Dispatcher.HandlerRuns` | src/mpc-vm-service/server/mpc_node_channel_session_impl.cpp:39-94 | what a handler does without interruption is the handler's steps of the handshake taken in a row, whatever the caller and the peer are at; nothing of other tasks changes |
| `Dispatcher.ReplyRuns` | src/mpc-vm-service/task/mpc_p2p_task_ready_processor.cpp:386-401 | the same for the caller with the peer's answer |
| `Dispatcher.TaskDispatcher.Notify2` | src/mpc-vm-service/server/mpc_node_channel_session_impl.cpp:39-67 | uninterrupted: sets 0x02, returns the state found, and pushes the working task exactly when that is 0x03: the handler's steps of the handshake in a row |
| `Dispatcher.TaskDispatcher.Invite2` | src/mpc-vm-service/server/mpc_node_channel_session_impl.cpp:69-94 | the same with 0x01 |
| `Dispatcher.HandlerCall.Advance` | src/mpc-vm-service/server/mpc_node_channel_session_impl.cpp:39-94 | each critical section of a handler that others may interrupt is the corresponding step of the handshake on what the dispatcher holds by then; it pushes the copy it has looked up |
| `Dispatcher.ReplyCall.Advance` | src/mpc-vm-service/task/mpc_p2p_task_ready_processor.cpp:386-401 | so is each critical section of the caller, who pushes its own copy |
| `Dispatcher.TaskDispatcher.HandleReply` | src/mpc-vm-service/task/mpc_p2p_task_ready_processor.cpp:386-401 | uninterrupted, the caller merges its bit and the answer into the state and pushes its copy exactly when it finds 0x03: the caller's steps in a row |
| `Dispatcher.TaskDispatcher.AddRequest` | src/mpc-vm-service/task/mpc_task_dispatcher.cpp:453-466 | waits while two slots are held, and never overwrites a held one |
| `Dispatcher.TaskDispatcher.PopPutTask` | src/mpc-vm-service/task/mpc_task_dispatcher.cpp:431-434 | hands out the oldest pushed task, waits for one |
| `Dispatcher.TaskDispatcher.PutReadyTask` | src/mpc-vm-service/task/mpc_task_dispatcher.cpp:274-390 | goes to the queue of the task's kind, waits while that queue is full |
| `Dispatcher.TaskDispatcher.PopReadyTask` | src/mpc-vm-service/task/mpc_task_dispatcher.cpp:286-422 | hands a processor the oldest task of its own kind |
| `Dispatcher.TaskDispatcher.Forget` | src/mpc-vm-service/task/mpc_task_processor.cpp:169-174 | removes state, slot and working entry of one task; waits in between as long as no slot is held at all |
| `Dispatcher.ForgottenIs` | src/mpc-vm-service/task/mpc_task_processor.cpp:169-174 | then no lookup of that task succeeds, every lookup of another one gives what it gave, and the queues are as they were |
| `Pipeline.StepPlaces` | src/mpc-vm-service/task/mpc_task_dispatcher.cpp:227-466 | every critical section of the node and every step of the peer keeps each task where its handshake says: each push has put one copy behind the handshake, and the slot is held from admission to the end of the first run |
| `Pipeline.InExactlyOnePlace` | src/mpc-vm-service/task/mpc_task_dispatcher.cpp:227-466 | over every run an accepted task is in exactly one place, one pushed twice in two or twice in one, and nothing else is anywhere; the copies behind the handshake and those done are its pushes in the handshake, at most two |
| `Pipeline.SlotsAndRoutes` | src/mpc-vm-service/task/mpc_task_dispatcher.cpp:299-466 | at most two slots are held, one for each task between admission and the removal after its first run; ready queues hold at most one task; invitor tasks reach only the invitor processor |
| `PipelineProgress.OnlyOthersBlock` | src/mpc-vm-service/task/mpc_p2p_task_ready_processor.cpp:280-401 | when no thread of the node can go on by itself, every task with a slot waits for the peer, is being run or stands in a queue behind a running one; a task is kept from being admitted only by two held slots, and one in the commit queue only by that or by a call the peer has not answered; and a processor that is not running its task waits in removeRequest while nobody holds a slot and nothing is there to start |
| `PipelineProgress.WaitsForSlotIf` | src/mpc-vm-service/task/mpc_task_dispatcher.cpp:436-451 | removeRequest has to wait if and only if every task past admission has given back its slot before |
| `PipelineProgress.WaitsForAdmission` | src/mpc-vm-service/task/mpc_task_dispatcher.cpp:436-451 | then it waits on through every continuation in which no task is admitted |
| `PipelineProgress.AdmissionReleases` | src/mpc-vm-service/task/mpc_task_dispatcher.cpp:453-466 | and the next addRequest lets it go on |
| `PipelineProgress.ProcessorWaits` | src/mpc-vm-service/task/mpc_task_processor.cpp:169-174 | a run in which a task pushed twice is run twice, after which the node stands still in removeRequest |
| `PipelineProgress.ProcessorReleased` | src/mpc-vm-service/task/mpc_task_processor.cpp:169-174 | a continuation in which the next task is admitted: the processor finishes, and that task keeps its slot |
| `Message.FrameIs` | src/mpc-vm-service/io/communicator_io_channel.cpp:47-100 | a message is the data and four bytes whose value, the low-order one first, is the number |
| `Message.FrameReads` | src/mpc-vm-service/server/mpc_node_channel_session_impl.cpp:96-108 | the receiver cuts a message into the data and the number the sender joined, for every data; numbers from 2^31 on come out negative |
| `Message.Sender.SendData` | src/mpc-vm-service/io/communicator_io_channel.cpp:47-100 | messages carry 1, 2, 3, ...; a failed call uses up its number |
| `Stream.ReturnsPrefix` | src/mpc-vm-service/task/mpc_task_processor.cpp:449-510 | in every interleaving, races while parking included, the bytes returned are a prefix of the bytes sent and messages are consumed as 1, 2, 3, ... |
| `StreamProgress.ConsumesIf` | src/mpc-vm-service/task/mpc_task_processor.cpp:462-510 | from any reachable state some continuation consumes a message if and only if nothing consumed is queued and the buffers the reader has taken or can still take over hold nothing consumed and, unless the next message is queued or still to arrive, hold it |
| `StreamProgress.HopelessForever` | src/mpc-vm-service/task/mpc_task_processor.cpp:487-508 | where that fails, no continuation changes what has been consumed |
| `StreamProgress.NeverWaitsIf` | src/mpc-vm-service/task/mpc_task_processor.cpp:462-510 | from any reachable state the reader takes the next message without waiting, whatever comes in between, if and only if the message has arrived and every map it may take over is free of consumed messages and, unless it is queued, holds it |
| `StreamProgress.RunOrderly` | src/mpc-vm-service/task/mpc_task_processor.cpp:449-510 | with parking as one step every message that has arrived and is not consumed is in exactly one map, and all keys exceed m_requestSeq |
| `StreamProgress.NextMessageIsTaken` | src/mpc-vm-service/task/mpc_task_processor.cpp:462-510 | parking having been one step so far, a next message that is queued or parked when consumeBuffer is called is delivered without waiting, whatever else arrives |
| `StreamProgress.WaitingReader` | src/mpc-vm-service/task/mpc_task_processor.cpp:484-494 | then a waiting reader can go on exactly if its next message has arrived and is not parked, and is stuck for ever exactly if it is parked |
| `StreamProgress.ParkedTooLate` | src/mpc-vm-service/task/mpc_task_dispatcher.cpp:105-123 | a run in which a message is parked behind the reader's back |
| `StreamProgress.ParkedTogether` | src/mpc-vm-service/task/mpc_task_dispatcher.cpp:148-157 | a run in which two threads park at once and a message is lost |
| `StreamProgress.ParkedAgain` | src/mpc-vm-service/task/mpc_task_dispatcher.cpp:138-157 | a run in which a consumed message is parked again and stops the reader, whose next message is parked beside it |
| `StreamLeftovers.NextIs` | src/mpc-vm-service/task/mpc_task_processor.cpp:462-510 | a task that starts with an earlier one's buffers still queued: the buffer consumed under a number is the leftover of that number unless its message has been delivered straight into the queue; then, and without a leftover, it is the message |
| `StreamLeftovers.RightIf` | src/mpc-vm-service/task/mpc_task_processor.cpp:140-147 | every run delivers the right bytes and messages if and only if nothing is left over |
| `StreamLeftovers.BlockedForever` | src/mpc-vm-service/task/mpc_task_processor.cpp:484-494 | once a buffer of a consumed number is queued, no continuation consumes anything |
| `StreamLeftovers.NumberUsedUp` | src/mpc-vm-service/io/communicator_io_channel.cpp:124-132 | a run in which a leftover of another task is dropped but uses up its number, and the message of that number then blocks the reader |
| `Receiver.FirstInputs.PutFirstInputBuffer` | src/mpc-vm-service/task/mpc_task_dispatcher.cpp:148-157 | parks one buffer under its task and number and touches no other task |
| `Receiver.FirstInputs.RemoveFirstInputBuffer` | src/mpc-vm-service/task/mpc_task_dispatcher.cpp:138-146 | takes all parked buffers of a task |
| `Receiver.Processor.StartTask` | src/mpc-vm-service/task/mpc_task_processor.cpp:140-147 | a new task resets the counters and leaves the queue as it is |
| `Receiver.Processor.InputBuffer` | src/mpc-vm-service/task/mpc_task_processor.cpp:449-460 | the buffer is queued under its number |
| `Receiver.Processor.ConsumeBuffer` | src/mpc-vm-service/task/mpc_task_processor.cpp:462-510 | returns at the first moment the smallest queued number is the next one, not before, and removes just that buffer; fails only when stopped |
| `Receiver.PutBuffer` | src/mpc-vm-service/task/mpc_task_dispatcher.cpp:97-126 | the first processor on the task gets the buffer, else it is parked; all others are unchanged |
| `Receiver.InputData` | src/mpc-vm-service/server/mpc_node_channel_session_impl.cpp:96-108 | a framed message arrives as the buffer that was sent |
| `Receiver.Channel.Receive` | src/mpc-vm-service/io/communicator_io_channel.cpp:110-140 | a message is received exactly if consumeBuffer is served; it adds its data, or nothing if it is for another task, and a failure adds nothing |
| `Receiver.Channel.RecvData` | src/mpc-vm-service/io/communicator_io_channel.cpp:102-148 | the next len bytes of the peer's stream, whatever arrived in which order: at once if they are at hand, otherwise after the least number of messages that brings them; it fails if and only if a call of consumeBuffer fails before there are enough |
| `Receiver.BytesAreData` | src/mpc-vm-service/io/communicator_io_channel.cpp:124-138 | if all messages are for the task, the stream is the concatenation of the data sent |
| `RoundConstants.RowsAreConstants` | third-code/eth-simplest/libdevcore/SHA3.cpp:74-80 | each row of the table of round constants is what the shift register of section 3.2.5 of FIPS 202 gives for its round |
| `Rotation.SameBits` | third-code/eth-simplest/libdevcore/SHA3.cpp:83 | a lane is determined by its 64 bits, so that the statements bit by bit fix the step mappings |
| `Keccak.RhoPiInPlace` | third-code/eth-simplest/libdevcore/SHA3.cpp:107-113 | one pass round the cycle with a single lane in hand equals the simultaneous rho and pi of sections 3.2.2 and 3.2.3 of FIPS 202 |
| `Keccak.RowsAreWalk` | third-code/eth-simplest/libdevcore/SHA3.cpp:63-73 | each row of the two tables is a step of the walk of section 3.2.2, with its offset, and its target is where pi sends the lane |
| `Keccak.EachWrittenOnce` | third-code/eth-simplest/libdevcore/SHA3.cpp:69-73 | the targets are one cycle through all lanes but the first |
| `Keccak.ThetaInPlace` | third-code/eth-simplest/libdevcore/SHA3.cpp:99-106 | the in-place loops equal the simultaneous theta of section 3.2.1 |
| `Keccak.ThetaBits` | third-code/eth-simplest/libdevcore/SHA3.cpp:99-106 | bit by bit as in section 3.2.1: each bit is xored with the parity of the column at x - 1 and of the column at x + 1 one place below |
| `Keccak.ChiBits` | third-code/eth-simplest/libdevcore/SHA3.cpp:114-120 | bit by bit as in section 3.2.4 |
| `Keccak.IotaBits` | third-code/eth-simplest/libdevcore/SHA3.cpp:121-122 | bit by bit as in section 3.2.5 |
| `Keccak.ChiInPlace` | third-code/eth-simplest/libdevcore/SHA3.cpp:114-120 | the row-wise loops equal the simultaneous chi of section 3.2.4 |
| `Keccak.KeccakF` | third-code/eth-simplest/libdevcore/SHA3.cpp:92-124 | the permutation is the 24 rounds of the step mappings, iota with the constants of section 3.2.5 |
| `Rotation.RolMoves` | third-code/eth-simplest/libdevcore/SHA3.cpp:83 | rol by s moves every bit z of a lane to place z + s modulo 64 |
| `Sponge.LaneBytes` | third-code/eth-simplest/libdevcore/SHA3.cpp:92-93 | byte j of a lane is the one at bit 8j |
| `Sponge.ViewsAgree` | third-code/eth-simplest/libdevcore/SHA3.cpp:92-93 | reading the state as 25 lanes and back as 200 bytes loses nothing |
| `Sponge.Absorb` | third-code/eth-simplest/libdevcore/SHA3.cpp:152-177 | block loop and in-place padding equal folding the permutation over the blocks of the padded message, for every input length and rate |
| `Sponge.XorBits` | third-code/eth-simplest/libdevcore/SHA3.cpp:130-175 | what is xored into the state is xored bit by bit |
| `Sponge.PadInPlace` | third-code/eth-simplest/libdevcore/SHA3.cpp:171-175 | marking before the tail is xored in equals xoring the padded block, also when both marks share a byte |
| `Sponge.PaddingIsPad101` | third-code/eth-simplest/libdevcore/SHA3.cpp:171-175 | bit by bit, what is appended is the suffix in the delimiter and then pad10*1 of section 5.1 |
| `Sponge.DelimitersInUse` | third-code/eth-simplest/libdevcore/SHA3.cpp:185-198 | 0x1f adds the suffix 1111 of SHAKE; 0x01 adds none, which is the original Keccak and not the 01 of SHA3-256 in FIPS 202 |
| `Sponge.Squeeze` | third-code/eth-simplest/libdevcore/SHA3.cpp:178-180 | the output is the prefix of the squeezed stream, nothing behind it is touched |
| `Sponge.HashInto` | third-code/eth-simplest/libdevcore/SHA3.cpp:162-183 | the whole construction, and exactly which arguments are refused |
| `Sponge.Sha3` | third-code/eth-simplest/libdevcore/SHA3.cpp:191-198 | too long an output is refused; a shorter one is the beginning of the digest |
| `Ripemd.Ripemd160` | third-code/eth-simplest/libdevcrypto/Hash.cpp:400-435 | the compression function is folded over the framed blocks of the first (size mod 2^32) bytes, and the digest is its state |
| `Ripemd.FramedIfShort` | third-code/eth-simplest/libdevcrypto/Hash.cpp:409-424 | those are the blocks of the message itself if and only if it is shorter than 2^32 bytes |
| `Ripemd.MdFinish` | third-code/eth-simplest/libdevcrypto/Hash.cpp:348-376 | one or two final blocks hold the tail, the end mark and the length, as sections 3.1 and 3.2 of RFC 1320 say |
| `Ripemd.FramedIsPadded` | third-code/eth-simplest/libdevcrypto/Hash.cpp:348-376 | the framed message is the words of the message, the byte 80, zeros up to 56 modulo 64 bytes, and eight bytes whose value, the low-order one first, is the length in bits modulo 2^64 |
| `Ripemd.WordBytes` | third-code/eth-simplest/libdevcrypto/Hash.cpp:353-362 | byte j of a word is the one at bit 8j |
| `Ripemd.InitialBytes` | third-code/eth-simplest/libdevcrypto/Hash.cpp:137-146 | the buffer starts as the bytes of section 3.3 of RFC 1320, with the fifth word of RIPEMD-160 |
| `Ripemd.LoadTail` | third-code/eth-simplest/libdevcrypto/Hash.cpp:353-362 | xoring bytes into words lays the tail and the mark out as bytes |
| `Ripemd.EndingBlocks` | third-code/eth-simplest/libdevcrypto/Hash.cpp:364-373 | an extra block is needed exactly when the tail exceeds 55 bytes |
| `Ripemd.FramedIsWhole` | third-code/eth-simplest/libdevcrypto/Hash.cpp:411-424 | the framed message is a whole number of blocks |

## Left out

- Generated Ice stubs, JSON-RPC, logging, flags, files, key handling, ECIES, secp256k1, scrypt and the JIT call: input,
  output and foreign code.
- RlpStream.RLPStream.AppendInt: does not cover integers of 2^32 bytes or more, whose byte count overflows the source's
  32-bit counter.
- RlpStream.RLPStream.NoteAppended: says which exception is thrown but not what the stream holds after one.
- RlpStream.RLPStream.AppendRaw: the bytes appended with a count are that many whole items, as the declarations in
  `RLP.h` ask of the caller.
- RlpStream.RLPStream.AppendEncodedList: the bytes are whole items, for the same reason.
- RlpInt.IntegersReadBack: unsigned types and `bigint`; reading into `int64_t`, whose overflow C++ leaves undefined, is
  not modelled.
- The conversions of RLP nodes to strings, vectors, sets, pairs and arrays, and `toHex` and `fromHex`: each is one pass
  over payloads or items that are modelled.
- FixedHash.Hash.FromBytes: models the aligning copies, not construction from text; the bitwise operators, bloom
  filters and `SecureFixedHash` (whose `|=` and `&=` call `^=`) are not modelled.
- MexMachine.RunScaled: takes the contracts of the macros as given, among them that RFINU multiplies by the negated
  inverse of the lowest digit modulo the digit base, a whole block in the hybrid forms.
- MexCode.EmitRedc: scheduling is off for blocks; `main` refuses the combination for `hybrid` and `hybrid_b` but not
  for `hybrid_r`, where the loops would mix word and block indices.
- `mex.c` beyond MULTIPLY, MULTUP, SQUARE and REDC: MULTIPLY2 has the loops of MULTIPLY over another field, and
  addition, subtraction, increment, doubling and PMULT are single carry chains; reading macro files is input.
- Handshake.PushedOnceOrTwice: leaves out runs with RPC exceptions or a missing peer, in which the task's state and
  working entry are removed but its request slot is kept, and says nothing about whether a call is ever answered.
- Pipeline.InExactlyOnePlace: task ids are used once; the check of the load limit and the push that follows are one
  step, as are taking a task from the commit queue and entering it as working, and taking a slot and sending the call.
- Dispatcher.TaskDispatcher.Notify2: runs without interruption; the interleavings are in `Dispatcher.HandlerCall.Advance`
  and `Handshake`.
- Dispatcher.TaskDispatcher.Invite2: runs without interruption, as `Notify2`.
- Dispatcher.TaskDispatcher.HandleReply: runs without interruption; the interleavings are in
  `Dispatcher.ReplyCall.Advance` and `Handshake`.
- Dispatcher.TaskDispatcher.Init: starting the processors, and its failure, are not modelled.
- Dispatcher.TaskDispatcher.PutReadyTask: the wake-ups, shutdown while waiting, the timeout queue and the reporting of
  failed results are not modelled.
- Stream.ReturnsPrefix: a task starts with no queued buffers, the other case being in `StreamLeftovers`, and with no
  parked buffers of its id.
- Receiver.FirstInputs.PutFirstInputBuffer: its read and its write back are one step here; they are two in `Stream`.
- Message.Sender.SendData: fewer than 2^31 messages per task, one peer, and hosts of the same, little-endian byte order;
  a message shorter than its number, which no sender makes, is not modelled.
- Receiver.Processor.ConsumeBuffer: other threads act through the buffers they put in during a wait; timeouts, the
  buffer counter `m_atomicBufferSize` (which never counts parked buffers in) and freeing of memory are not modelled.
- Sponge.Permute: copies the state between its byte view and its lane view, where the source casts a pointer.
- Sponge.HashInto: a rate of zero, which no caller passes, would not terminate in the source and is excluded.
- Ripemd.StoreLength: the shifts and the or of the two length words are written as arithmetic modulo 2^32.
- Ripemd.Ripemd160: the compression function is a parameter; its rounds are not modelled.
