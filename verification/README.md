# A model of the XOR transfer

The repository keeps a parity file for a group of N files of equal length. When the files are remote,
one thread per file receives frames and fills one of two fixed-size slots, and one consumer waits until
all N files have sealed a slot, XORs the N buffers in place, appends the result to the output file and
gives the slots back. When the files are local, one routine reads them side by side and XORs chunk by
chunk. This project models both paths, the framing in front of the first, and the HTTP printer and
parser, and proves what they keep and what they compute.

## How the model is laid out

- `Bytes` holds the bytewise XOR of N byte strings, the one reference for both paths, what it is bit by
  bit, and parity reconstruction. `Arithmetic` and `Wrappers` are small helpers.
- `BufXor` is `buf_xor` on real arrays: the word pass, the byte tail, the checked and the unchecked write.
- `Slots` is `write_buf` as a step function, one shared access per step; `WriteBuf` is the same code on
  its fields and arrays, with its loop, each stretch proved to be a step of `Slots`, and exactly when a call
  returns.
- `Pipeline` puts N such threads and the consumer together, one shared access per step, in any order;
  `PipelineSafety` proves the invariant over every run.
- `Delivery` says how streams are cut into slots and what the output then holds; `LateFragments` adds
  empty fragments after the end of a file.
- `Ordering` says exactly when the consumer takes generations in order; `Alignment` treats the stronger
  property that slots alternate; `Promptness`, `Progress`, `Completion` and `Fairness` treat prompt runs
  and their termination.
- `Ending` says exactly when a transfer whose files are complete returns, and when with RIGHT; `Deadlock`
  says, for any interleaving, that a run can always go on until it has returned or is in the one kind of
  deadlock there is. `Increments` and `LostUpdates` take the increments of the counters apart.
- `Schedule` plays a list of what the other threads try against the consumer's loop: which run that gives,
  that every run can be had that way, and when the loop returns.
- `Transfer` is the consumer's loop on the concrete memory of the whole group: N files' arrays, flags
  and counters, with the other threads coming in before each of its accesses. The steps it makes are exactly
  those `Schedule` says, so everything proved about runs is true of it.
- `Guarantees` collects the results for whole runs. `ThreadRuns` and `GroupRuns` put runs together;
  `Races` and `Shortfalls` build those that go wrong.
- `LocalXor` is the local routine, `Agreement` compares the two paths, `Header` is the command header,
  `Framing` message reassembly, `Reception` joins it to the pipeline, `Http` is the printer and parser.

Slot capacity, N, stream length, chunk size and fragmentation are symbolic throughout.

## What turned out false, and exactly when it holds

- **Generations are not always taken in order.** A thread that finds both its slots empty always reopens
  slot 0, and the consumer always prefers slot 0; flags and counters do not order the slots.
  `Guarantees.InOrderIffNoOvertake`: over all runs, the d-th XOR call takes what every file sealed d-th
  if and only if the consumer never takes a slot that reads N while in some file the other slot is sealed
  too and has been for longer (`Ordering.Overtake`, a test on the state just before the step).
  `Guarantees.OrderlyOutput`: without an overtake, the output is the XOR, generation by generation.
  Order can be lost for any capacity and any contents, with bytes arriving singly and nothing failing:
  - `Races.RightButReordered`: for any N, a run that returns RIGHT with two generations of the XOR
    exchanged;
  - `Races.RightButMixed`: for N >= 2, a run that returns RIGHT after XORing generation 1 of one file with
    generation 2 of the others, and the other way round: what is written differs from the XOR of either
    generation by what these two generations of that one file differ by. One poll of one thread that
    comes late is enough.
- **A transfer does not always return.** `Ending.ReturnsIff`: when every file is complete, it returns,
  and then within a stated number of steps (`Ending.ReturnsInTime`), if and only if a fault is on record, or everything has been
  XORed, or all files have sealed equally many chunks into each slot; while the consumer polls, this says
  that each slot is sealed in all files or in none (`Ending.SameFlags`). `Ending.ReturnsRightIff`: it can
  return RIGHT if and only if no fault is on record and what waits in each slot is equally long in all
  files. `Deadlock.DeadlockIff`: under any interleaving there is no other deadlock, and
  `Deadlock.ReturnsOrDies`: from every state of every run with delivering peers there is a continuation
  that returns or ends in this one. `Races.NeverReturns`: for N >= 2, one late poll is enough to get there.
- **A counter does not always read the number of files that counted.** The increment is not
  synchronised, and an update can get lost. `LostUpdates.AtomicIffNothingStale`: the counters are right
  throughout a run if and only if every store finds the counter at the value that was loaded.
  `LostUpdates.SafeWithLostUpdates`: even then no counter reads too much, so hand-off and conservation
  hold in every run, and `LostUpdates.OrderWithLostUpdates`: the criterion for order is the same. What can
  get lost is the return: `Shortfalls.HangsAfterLostUpdate`, for any N >= 2.
- **Slots do not always alternate.** Generation g sits in slot g mod 2, and slots are taken in turn, if
  and only if no thread reopens the slot it sealed last while both its slots are empty
  (`Alignment.LateReopen`) and the consumer never takes the slot it took last while both counters read N
  (`Alignment.OutOfTurn`): `Guarantees.AlignedIffRaceFree`. This is sufficient for order, not necessary.
- **RIGHT does not mean that the file is complete.** The write of the last size mod 4 bytes of a slot is
  not checked. `Guarantees.VerdictSound`: RIGHT exactly if no fault was recorded, and then the file has
  all its bytes if and only if none of these writes was cut short. `Shortfalls.RightButShort`: for any N
  streams of at most one slot, and any number of bytes up to size mod 4, a run without faults that returns
  RIGHT with the file that much too short.
- **A file is not always cut into ceil(size/capacity) pieces.** A message without payload that comes after
  the end of the file seals a slot with nothing in it. `LateFragments.ExactPieces`: there are exactly as
  many pieces too many as there were such fragments. `Shortfalls.PieceTooMany` is a run with one.
- **A payload is not always passed on unspoilt.** What a read brings beyond the end of its message is
  passed on as payload. `Framing.PayloadIff`: the payload arrives as it is if and only if no read does so.
- **The local routine does not accept every file.** In the last size mod 4 bytes a byte 0xFF of file 0
  is taken for end-of-file. `LocalXor.XorFiles`: a run that returns gives RIGHT, with the exact XOR, if
  no such byte is there, and ERROR_XOR_FILE if one is, with the XOR up to that byte in the file and after it
  the last block of file 0 itself, which XORing a second time has brought back; with fewer than four bytes
  and a 0xFF among them the outer loop never returns; in all other cases it does, within a stated number of
  rounds.
- **HTTP content survives a round trip only without carriage returns.** `Http.RoundTrip`: for a header,
  type and date that fit and break no line, content and content type come back if and only if the
  content has no carriage return. `Http.RequestParsed` says the same of requests.
- **Not every first line of a request is handled.** `Http.TooFewSpaces`: the parser leaves its buffers exactly
  if the first and the last space of the line coincide or adjoin.

## Assumptions

- The increment of a shared counter is one step, except in `Increments` and `LostUpdates`.
- A fragment is at most one slot long. The code guarantees it: `Framing.FragmentsFit`.
- N >= 1; capacity and file size are positive where a result is about delivery.
- The file takes any number of bytes of each XOR call (`accepted`): less than the whole words is the
  failure the code checks for, less than the rest is lost unnoticed.
- A peer failure may be recorded at any moment.
- Peers that deliver send exactly the announced bytes, in any fragments, but no empty fragment once the
  file is complete (`Delivery.MoveDelivers`); `Reception.MessagesDeliver` shows that peers do so whose
  last message is not empty and whose reads do not cross a message end, the first of each bringing its
  whole header.
- Prompt runs satisfy three hypotheses, written as predicates on a step in `Promptness`: H1, sealing,
  counting and the two reopen tests are not interrupted (`WindowsAtomic`); H2, once a counter reads N no
  slot is sealed until it is drained (`SealsAfterDrain`); H3, when a drain starts every waiting thread
  has polled (`PolledBeforeDrain`). Nothing in the code enforces them. Fair runs are prompt runs without
  failures and without empty fragments in which every thread and the consumer moves at least once in K
  steps, or is found unable to. No such run goes on for ever, and there are fair runs for every beginning
  (`Fairness.FairRunsEnd`, `Fairness.FairRunExists`).
- Files do not change while they are read. A `char` is signed and modelled by its bit pattern, so the byte
  0xFF equals EOF.
- The strings given to the HTTP printer contain no NUL. The parser's output buffers are zero-filled by its
  caller, and the content buffer is large enough for the content.

## Model

| member | source | states |
|---|---|---|
| Bytes.XorOfSlices | src/raid_all_file.cpp:50-149 | cutting the inputs into chunks cuts the XOR the same way |
| Bytes.XorIsParity | src/get_data_client_file_data.cpp:778-812 | a string is the XOR of the buffers if and only if each of its bits says whether an odd number of them have that bit set |
| Bytes.XorOfZeros | src/raid_all_file.cpp:89-121 | files of zeros give zeros |
| Bytes.ParityRestores | src/raid_all_file.cpp:109-121 | putting the parity in place of any one input and XORing again gives that input back |
| BufXor.XorWordAt | src/get_data_client_file_data.cpp:778-786 | one 32-bit XOR is four byte XORs and touches nothing else |
| BufXor.XorWords | src/get_data_client_file_data.cpp:773-786 | the in-place word loop leaves the bytewise XOR of all N buffers in the whole words of buffer 0 and everything else alone |
| BufXor.XorTail | src/get_data_client_file_data.cpp:796-815 | the byte loop does the same for the last num mod 4 bytes |
| BufXor.AllEqual | src/get_data_client_file_data.cpp:753-771 | the size check passes exactly when all N fill levels agree |
| BufXor.FileGroup.XorAndWrite | src/get_data_client_file_data.cpp:772-816 | the file gains the first `accepted` bytes of the XOR; a cut in the whole words fails, with the tail not XORed, and a cut in the tail goes unnoticed |
| BufXor.FileGroup.Xor | src/get_data_client_file_data.cpp:748-841 | result code, buffer 0, output file, error flag, xor_size, xor_flag and whether all slots are released after the call, for every outcome; after a failed size check everything but the error flag is as before |
| Slots.OverflowSplits | src/get_data_client_file_data.cpp:295-316 | a fragment that does not fit fills the slot to capacity, leaves a non-empty rest, and neither part is lost |
| Slots.RestStored | src/get_data_client_file_data.cpp:318-366 | storing the fragment or its rest appends exactly the carried bytes and stays within the slot |
| Slots.SealKeepsSound | src/get_data_client_file_data.cpp:305-315 | sealing moves the open slot's bytes to the end of the sealed list and keeps the thread's invariant |
| Slots.ReopenKeepsSound | src/get_data_client_file_data.cpp:454-473 | the reopen test loses no byte and never leaves two writable slots |
| Slots.MoveKeepsSound | src/get_data_client_file_data.cpp:288-474 | every step keeps: sealed chunks, open slot and carried rest spell out the bytes fed; at most one slot writable; fill levels within capacity |
| Slots.ClearKeepsSound | src/get_data_client_file_data.cpp:865-868 | clearing a slot its thread has sealed and counted does not disturb that thread |
| Slots.OverwriteKeepsSound | src/get_data_client_file_data.cpp:778-816 | nor does XORing into it |
| WriteBuf.FileBuffers.StartThread | src/get_data_client_file_data.cpp:721-723 | slot 0 writable, slot 1 empty, as the step function says |
| WriteBuf.FileBuffers.StorePart | src/get_data_client_file_data.cpp:295-303 | the overflow copy on the arrays is the model's fill step |
| WriteBuf.FileBuffers.StoreRest | src/get_data_client_file_data.cpp:318-355 | the appending copy on the arrays is the model's fill step; the result says whether the file is complete |
| WriteBuf.FileBuffers.SetSealed | src/get_data_client_file_data.cpp:305-305 | only the flag changes, and the history gains the slot's content |
| WriteBuf.FileBuffers.AddToCounter | src/get_data_client_file_data.cpp:314-314 | exactly the sealed slot's counter rises by one |
| WriteBuf.FileBuffers.ReopenTest | src/get_data_client_file_data.cpp:454-473 | a slot is reopened exactly when it is empty and the other is not writable |
| WriteBuf.FileBuffers.ClearFlag | src/get_data_client_file_data.cpp:865-868 | giving a slot back changes its flag only |
| WriteBuf.FileBuffers.Write | src/get_data_client_file_data.cpp:277-476 | one call takes in exactly its fragment, undoes nothing sealed, adds to each counter what was sealed into that slot, and keeps the stream cut at the capacity; it returns if and only if the fragment has room, or a slot can be reopened, or one is given back in time; and the file ends up where the rounds played out lead |
| WriteBuf.ReopenedOpens | src/get_data_client_file_data.cpp:454-473 | the two reopen tests open a slot if and only if one is empty or given back before its test, slot 0 first, and it is opened empty |
| WriteBuf.CallReturnsIff | src/get_data_client_file_data.cpp:288-476 | the rounds played out end the call if and only if there is room, or a slot to reopen, or a release in time |
| WriteBuf.SealAddsOne | src/get_data_client_file_data.cpp:305-314 | a seal adds one chunk to its own slot's list and none to the other's |
| PipelineSafety.MoveLeavesSettled | src/get_data_client_file_data.cpp:291-372 | no step of a thread touches a slot it has sealed and counted |
| PipelineSafety.InitialInvariant | src/get_data_client_file_data.cpp:921-934 | the zeroed group satisfies the invariant |
| PipelineSafety.TestKeeps | src/get_data_client_file_data.cpp:850-872 | a counter that reads N hands all N slots, sealed and settled, to the consumer |
| PipelineSafety.ResetKeeps | src/get_data_client_file_data.cpp:863-863 | resetting the counter before the flags keeps counters and hand-off in agreement |
| PipelineSafety.ClearKeeps | src/get_data_client_file_data.cpp:865-868 | clearing one flag changes no count and hands nothing off twice |
| PipelineSafety.StepKeeps | src/get_data_client_file_data.cpp:288-907 | every step of any interleaving keeps the invariant |
| PipelineSafety.RunKeeps | src/get_data_client_file_data.cpp:288-907 | hence every state of every run satisfies it |
| PipelineSafety.EmittedSize | src/get_data_client_file_data.cpp:788-817 | as many bytes were written as were counted if and only if no unchecked write was cut short |
| Ordering.DrainsBehind | src/get_data_client_file_data.cpp:850-889 | what the XOR calls took and what waits in the two slots make up what a file sealed |
| Ordering.DrainReads | src/get_data_client_file_data.cpp:850-889 | in order, the d-th XOR call read what every file sealed d-th |
| Ordering.XoringReads | src/get_data_client_file_data.cpp:850-861 | and the call in progress reads what every file sealed next |
| Ordering.TestInOrder | src/get_data_client_file_data.cpp:850-872 | a successful test of a counter keeps the order if and only if no file has an older sealed slot |
| Ordering.OrderStep | src/get_data_client_file_data.cpp:288-894 | from an ordered state, a step keeps the order if and only if it does not overtake |
| Ordering.DisorderStays | src/get_data_client_file_data.cpp:288-894 | once lost, the order stays lost |
| Ordering.OrderRun | src/get_data_client_file_data.cpp:288-894 | a run ends in order if and only if no step of it overtook |
| Alignment.InSlotAlternating | src/get_data_client_file_data.cpp:454-473 | in an alternating list, the m-th content of slot k is generation 2m+k, and how many there are |
| Alignment.ReopenAligned | src/get_data_client_file_data.cpp:454-473 | a reopen keeps generation g in slot g mod 2 if and only if it is not a late poll |
| Alignment.BothFull | src/get_data_client_file_data.cpp:850-872 | the consumer can be about to take the wrong slot only when both counters read N |
| Alignment.AlignedStep | src/get_data_client_file_data.cpp:288-894 | from an aligned state, a step keeps the slots in turn if and only if it is not one of the two races |
| Alignment.AlignedIsInOrder | src/get_data_client_file_data.cpp:454-889 | slots in turn imply order |
| Alignment.RaceFreeIsOrderly | src/get_data_client_file_data.cpp:454-889 | so a run without either race overtakes nowhere |
| Delivery.MoveKeepsFullChunks | src/get_data_client_file_data.cpp:295-376 | every sealed chunk is full except possibly a non-empty one that ends the file |
| Delivery.SealedGenerations | src/get_data_client_file_data.cpp:295-448 | chunk g is bytes g*CAP up to min((g+1)*CAP, L) of the stream |
| Delivery.FinishedCount | src/get_data_client_file_data.cpp:353-366 | a finished file was sealed in exactly ceil(L/CAP) chunks that spell out the stream |
| LateFragments.FirstLate | src/get_data_client_file_data.cpp:288-366 | an empty fragment for a complete file starts a call that will seal an empty slot |
| LateFragments.LateMove | src/get_data_client_file_data.cpp:288-474 | every step of such a call keeps that promise, and the file's own pieces untouched |
| LateFragments.ExactPieces | src/get_data_client_file_data.cpp:288-448 | for any fragments, empty ones included: a complete file has sealed its generations and one empty chunk per late fragment, so ceil(L/CAP) pieces if and only if there was none |
| Delivery.SizesAlwaysMatch | src/get_data_client_file_data.cpp:753-771 | in an ordered state the size check cannot fail |
| Delivery.DrainEmits | src/get_data_client_file_data.cpp:772-816 | the d-th XOR call read generation d of every file and wrote the start of generation d of the XOR |
| Delivery.OutputIsPrefix | src/get_data_client_file_data.cpp:772-831 | in an ordered state xor_size is min(D*CAP, L) after D drains, and the file is that much of the XOR if and only if no unchecked write was cut short |
| Promptness.PromptHasNoRace | src/get_data_client_file_data.cpp:454-473 | in a prompt state no race is possible |
| Promptness.StepStaysPrompt | src/get_data_client_file_data.cpp:454-889 | a step that satisfies H1-H3 leads from prompt states to prompt states |
| Progress.StepReaches | src/get_data_client_file_data.cpp:288-907 | in prompt runs the work left never grows, and falls with every step that is not a mere poll or an empty fragment |
| Progress.DrainsBounded | src/get_data_client_file_data.cpp:847-894 | there are never more than ceil(L/CAP) drains |
| Completion.Advance | src/get_data_client_file_data.cpp:288-907 | no deadlock: from every reachable state of a prompt run that has not returned, some prompt continuation leaves strictly less work |
| Completion.CanFinish | src/get_data_client_file_data.cpp:843-907 | every such state can be driven to RIGHT |
| Guarantees.Ownership | src/get_data_client_file_data.cpp:291-889 | a slot is changed only by its own thread while not sealed, or by the consumer while it holds it; bytes are copied into writable slots only; during the XOR all N slots are settled |
| Guarantees.CounterAgreement | src/get_data_client_file_data.cpp:850-887 | under any interleaving a counter equals the number of files that sealed and counted since the last clear, at most N, and N exactly when all have |
| Guarantees.Conservation | src/get_data_client_file_data.cpp:291-449 | under any interleaving sealed chunks, open slot and carried rest spell out the bytes fed, with at most one slot writable |
| Guarantees.ExactlyOnce | src/get_data_client_file_data.cpp:850-889 | under any interleaving, what a file sealed into a slot is what XOR calls took from it, in order, then what waits there |
| Guarantees.VerdictSound | src/get_data_client_file_data.cpp:894-907 | RIGHT exactly when no fault was recorded; then file_size bytes were XORed, every call wrote the start of the XOR of what it read, and the file is complete if and only if no unchecked write was cut short |
| Guarantees.FragmentationIndependence | src/get_data_client_file_data.cpp:288-448 | whatever the fragments and the interleaving, a file seals its stream cut every CAP bytes, ceil(L/CAP) pieces in all |
| Guarantees.InOrderIffNoOvertake | src/get_data_client_file_data.cpp:454-894 | over all runs: every XOR call takes what each file sealed next if and only if the consumer never takes a slot past an older sealed one |
| Guarantees.AlignedIffRaceFree | src/get_data_client_file_data.cpp:454-894 | a run keeps generation g in slot g mod 2 and takes slots in turn if and only if it has neither race |
| Guarantees.OrderlyOutput | src/get_data_client_file_data.cpp:748-907 | without an overtake no size mismatch is recorded, xor_size is at every moment min(D*CAP, L), and the file that much of the XOR exactly if no unchecked write was cut short |
| Guarantees.PromptIsRaceFree | src/get_data_client_file_data.cpp:454-894 | H1-H3 exclude both races, whatever fails |
| Guarantees.PromptOutput | src/get_data_client_file_data.cpp:277-907 | so every prompt run takes slots in turn, overtakes nowhere, and writes the XOR generation by generation |
| Guarantees.PromptCompletion | src/get_data_client_file_data.cpp:843-907 | a prompt run without failures makes boundedly many productive steps, ends only with RIGHT, the whole XOR and ceil(L/CAP) drains, and can always be continued to that end |
| Fairness.MovableIff | src/get_data_client_file_data.cpp:288-889 | what "able to move" means in the definition of fair runs: there is a lawful step |
| Fairness.SomeoneOwes | src/get_data_client_file_data.cpp:288-907 | in every unfinished state of a prompt run some thread, or the consumer, gets something done within three moves of its own |
| Fairness.PromisePassed | src/get_data_client_file_data.cpp:288-907 | polls of the others do not change that |
| Guarantees.ReturnedIsOver | src/get_data_client_file_data.cpp:288-907 | once a prompt run without failures has returned, nothing more can happen: every file is complete and every slot given back |
| Fairness.FairRunsEnd | src/get_data_client_file_data.cpp:288-907 | every fair run has at most 3*K*W steps, W = N*(10*L+1) + (N+10)*ceil(L/CAP) + 2; it has returned if and only if it cannot go on; and then with RIGHT, the whole XOR and ceil(L/CAP) drains |
| Fairness.FairRunExists | src/get_data_client_file_data.cpp:288-907 | every prompt beginning without failures and empty fragments has a continuation that returns RIGHT and is fair |
| Ending.ReturnsIff | src/get_data_client_file_data.cpp:843-907 | when every file is complete: the transfer can return if and only if a fault is on record, or all is XORed, or all files have sealed equally many chunks into each slot; otherwise no continuation returns |
| Ending.ReturnsInTime | src/get_data_client_file_data.cpp:843-907 | ... and if it can, it does: every continuation has at most EndWork steps, and until the return the consumer can go on |
| Ending.ReturnsRightIff | src/get_data_client_file_data.cpp:748-907 | ... and it can return RIGHT if and only if no fault is on record and what waits in each slot is equally long in all files |
| Ending.SameFlags | src/get_data_client_file_data.cpp:850-894 | while the consumer polls, equally many chunks in each slot means that each slot is sealed in all files or in none |
| Progress.WorkStep | src/get_data_client_file_data.cpp:288-907 | under any interleaving, whatever fails: no step adds to the work left, and every step that gets something done takes from it |
| Deadlock.DeadlockIff | src/get_data_client_file_data.cpp:288-907 | under any interleaving: a run that has not returned can get something done without a failure, unless every file is complete, the consumer polls, nothing is on record and two files have sealed differently many chunks into a slot |
| Deadlock.ReturnsOrDies | src/get_data_client_file_data.cpp:288-907 | every run with delivering peers gets at most W things done, and can go on until it has returned or is in that deadlock |
| LostUpdates.SafeWithLostUpdates | src/get_data_client_file_data.cpp:314-442 | with increments that are a load and a later store: a counter never exceeds the number of files that sealed and counted, and hand-off, conservation, output and verdict are as before, in every run |
| LostUpdates.OrderWithLostUpdates | src/get_data_client_file_data.cpp:314-894 | ... and the XOR calls are in order if and only if none overtakes |
| LostUpdates.AtomicIffNothingStale | src/get_data_client_file_data.cpp:314-442 | the counters are right throughout a run if and only if every store finds the counter at the value that was loaded, and then the run is one with increments in one step |
| LostUpdates.Loosen | src/get_data_client_file_data.cpp:314-442 | every undisturbed run with increments in one step is such a run |
| ThreadRuns.FillAndSeal | src/get_data_client_file_data.cpp:291-473 | a thread fed byte by byte fills a reopened slot of any capacity, seals it and goes on to poll |
| ThreadRuns.RestAfterLatePoll | src/get_data_client_file_data.cpp:454-473 | given slot 0 back before its reopen tests, a thread puts generation 1 into slot 0 again and generation 2 into slot 1 |
| Races.RightButReordered | src/get_data_client_file_data.cpp:454-889 | for any N streams of three slots each, of any capacity: a run without faults that returns RIGHT with two generations exchanged |
| Races.RightButMixed | src/get_data_client_file_data.cpp:454-889 | for any two or more such streams: a run without faults that returns RIGHT after XORing different generations together, and exactly what it writes |
| Races.NeverReturns | src/get_data_client_file_data.cpp:454-894 | for any two or more streams of two slots each: a run without faults to a state in which every file is complete and `Ending.ReturnsIff` fails: no continuation returns |
| Shortfalls.RightButShort | src/get_data_client_file_data.cpp:795-817 | for any N streams of at most one slot and any number of bytes up to size mod 4: a run without faults that returns RIGHT with the file that much too short |
| Shortfalls.PieceTooMany | src/get_data_client_file_data.cpp:288-448 | for any N such streams: a run with one late fragment, in which file 0 is cut into ceil(L/CAP) + 1 pieces |
| Shortfalls.HangsAfterLostUpdate | src/get_data_client_file_data.cpp:314-894 | for any two or more such streams: a run without faults in which two threads load a counter before either stores it, and the transfer never returns although all files wait in the same slot |
| Schedule.PlayRuns | src/get_data_client_file_data.cpp:843-907 | a schedule played against the loop, one access after the other, is a run, and leads where it says |
| Schedule.EveryRunIsPlayed | src/get_data_client_file_data.cpp:843-907 | every run up to a loop head or the return is what some schedule makes of the loop: each step of the others before the access it precedes, in order, one step of the consumer at a time |
| Schedule.EndWrites | src/get_data_client_file_data.cpp:788-817 | the d-th XOR call writes as much as the file takes the d-th time |
| Schedule.LoopReturnsIff | src/get_data_client_file_data.cpp:843-907 | if a schedule leaves every file complete with enough accesses to come, the loop returns if and only if a fault is on record, or all is XORed, or all files have sealed equally many chunks into each slot |
| Transfer.Memory.Pause | src/get_data_client_file_data.cpp:288-526 | before an access, exactly the listed steps that can be made are made, in order |
| Transfer.MoveFile | src/get_data_client_file_data.cpp:288-474 | a suspended thread resumed on the arrays makes exactly the model's step |
| Transfer.Memory.constructor | src/get_data_client_file_data.cpp:921-934 | the group's memory starts as the model's initial state, with N pairs of separate arrays |
| Transfer.Memory.FileStep | src/get_data_client_file_data.cpp:288-474 | a thread's move on the shared memory, if it can make it, is exactly that step of the run |
| Transfer.Memory.FailStep | src/get_data_client_file_data.cpp:516-526 | a failing peer sets the error flag, as one step of the run |
| Transfer.Memory.TestCounter | src/get_data_client_file_data.cpp:850-872 | the test of a counter is a step of the run |
| Transfer.Memory.XorSlot | src/get_data_client_file_data.cpp:859-861 | the XOR call on the N arrays is a step of the run, its result ignored |
| Transfer.Memory.ResetCounter | src/get_data_client_file_data.cpp:863-863 | the counter is reset before any flag |
| Transfer.Memory.ClearSlot | src/get_data_client_file_data.cpp:865-868 | one flag is cleared, files in index order |
| Transfer.Memory.Decide | src/get_data_client_file_data.cpp:895-906 | RIGHT exactly when the error flag is not set |
| Transfer.Memory.JudgeXorCondition | src/get_data_client_file_data.cpp:843-907 | the steps made are those of the schedule played against the loop, and it stops where that does; it returns if and only if `Ending.ReturnsIff` says so, when the schedule leaves the files complete with enough accesses to come; RIGHT exactly without an error flag; then file_size bytes were XORed, and the file is the XOR of any streams delivered without an overtake exactly if it has file_size bytes |
| Transfer.Memory.OutputSoFar | src/get_data_client_file_data.cpp:772-831 | at every moment without an error flag or overtake, the file on the heap is the first xor_size bytes of the XOR exactly if no unchecked write was cut short |
| Transfer.Memory.DecidedIsWhole | src/get_data_client_file_data.cpp:894-906 | once decided without an error flag, everything was XORed, and the file is complete exactly if no write was cut short |
| Header.HeaderReadsBack | include/file_info.h:24-45 | the packed header has CMD_LEN bytes, the command at byte 16, and the receiver reads the data_len put in, whatever the other fields hold |
| Header.HeaderWritesBack | include/file_info.h:24-45 | every string of CMD_LEN bytes is the packed form of the fields read from it |
| Header.ByteWeight | include/file_info.h:42-43 | byte i of a number on the wire has the weight 256^i |
| Framing.WriteHeader | src/get_data_client_file_data.cpp:535-551 | a header is a write command's for this payload if and only if the receiver reads the command and the length so |
| Framing.Connection.OnReadable | src/get_data_client_file_data.cpp:478-624 | the handler's state, fragments and replies after one event, for every kind of read; the early return, with the release of the file's buffers; nothing once the connection is closed |
| Framing.FailedIff | src/get_data_client_file_data.cpp:516-526 | over all events: the error flag is set if and only if a read failed while the connection was open |
| Framing.ClosedIff | src/get_data_client_file_data.cpp:502-526 | the connection is closed if and only if a read failed or an empty read came outside a message |
| Framing.FailuresReplied | src/get_data_client_file_data.cpp:587-594 | there is exactly one error reply for each empty read inside a message |
| Framing.MessageGivenUp | src/get_data_client_file_data.cpp:587-594 | after it the message is given up, and nothing was passed on |
| Framing.OtherCommandsIgnored | src/get_data_client_file_data.cpp:535-543 | other commands are neither passed on nor answered |
| Framing.LaterReads | src/get_data_client_file_data.cpp:583-620 | the rest of a payload arrives in order and brings one reply |
| Framing.OneMessage | src/get_data_client_file_data.cpp:529-622 | a message gives its payload and one reply with its length, however it is split |
| Framing.PastTheEnd | src/get_data_client_file_data.cpp:551-620 | what a read brings beyond the end of its message is passed on as payload |
| Framing.PayloadIff | src/get_data_client_file_data.cpp:551-620 | a payload is passed on as it is if and only if no read goes past its end |
| Framing.Messages | src/get_data_client_file_data.cpp:529-622 | any messages, any splits: the payloads in order, one reply each, idle at the end |
| Framing.PartOfMessage | src/get_data_client_file_data.cpp:551-620 | write_state is 1 exactly inside a message, and then write_index is the payload received and below write_total_size: for the reads of one message |
| Framing.AnyMoment | src/get_data_client_file_data.cpp:529-620 | the same after any number of reads of any number of messages |
| Framing.FragmentsSpellPayloads | src/get_data_client_file_data.cpp:551-597 | each fragment handed to write_buf is the next piece of the payloads |
| Framing.FragmentsFit | include/get_data_client_file_data.h:20-21 | every fragment is at most MAXLINE, below a slot's capacity |
| Reception.FragmentsLast | src/get_data_client_file_data.cpp:551-597 | at every fragment some byte is still to come if and only if the last message is not an empty one |
| Reception.MessagesDeliver | src/get_data_client_file_data.cpp:529-622 | peers whose messages spell the streams, empty ones among them but not last, deliver them, whatever the splits and the schedule |
| Reception.MessagesToParity | src/get_data_client_file_data.cpp:277-907 | so without an overtake the output is the XOR of what the messages spell |
| LocalXor.ReadAll | src/raid_all_file.cpp:56-79 | the next words of every file are in its buffer, equally many from each |
| LocalXor.XorBlock | src/raid_all_file.cpp:109-130 | the XOR of the blocks is appended to the output |
| LocalXor.XorTailBytes | src/raid_all_file.cpp:89-99 | the byte loop appends the XOR up to the end of file 0 or its first 0xFF, whichever comes first |
| LocalXor.TailOutcome | src/raid_all_file.cpp:81-107 | the byte loop stops at the first 0xFF among the last size mod 4 bytes, and early exactly when there is one |
| LocalXor.LastBytes | src/raid_all_file.cpp:81-148 | the last round returns RIGHT with the exact XOR, or overshoots and returns ERROR_XOR_FILE, or makes no progress |
| LocalXor.WholeWords | src/raid_all_file.cpp:52-140 | a word round appends the next chunk of the XOR and returns RIGHT exactly when the files end with it |
| LocalXor.XorFiles | src/raid_all_file.cpp:33-150 | RIGHT with the exact XOR if no 0xFF is in the last size mod 4 bytes of file 0, else ERROR_XOR_FILE, with what is then in the file, or no return if the size is below four; otherwise it returns; and what has been written while it has not |
| LocalXor.ProgressIs | src/raid_all_file.cpp:52-140 | so many rounds without an end have written a chunk each, and at most all whole words |
| LocalXor.BlockComesBack | src/raid_all_file.cpp:109-130 | XORing the last block's buffers once more brings file 0's own block back |
| LocalXor.OpenFiles | src/raid_all_file.cpp:153-226 | which error comes first when files cannot be opened or differ in size, with nothing written; otherwise RIGHT with the whole XOR, or ERROR_XOR_FILE exactly if a 0xFF is among the last bytes; and it returns unless the XOR does not |
| Agreement.RemoteIsXor | src/get_data_client_file_data.cpp:843-907 | a RIGHT transfer without overtake or lost bytes wrote the whole XOR |
| Agreement.RemoteDeterministic | src/get_data_client_file_data.cpp:843-907 | two such transfers of the same streams agree, whatever slot size, fragments and schedule |
| Agreement.RemoteReconstruction | src/get_data_client_file_data.cpp:748-907 | sending the parity in place of a stream gives that stream back |
| Agreement.LocalAgrees | src/raid_all_file.cpp:33-150 | whenever both return RIGHT, the local routine writes the same bytes as the transfer |
| Agreement.LocalReconstruction | src/raid_all_file.cpp:109-148 | with the parity in place of a file, the local routine writes that file |
| Http.SetOutput | src/common.cpp:19-37 | the concatenations spell out the response line by line |
| Http.GetInput | src/common.cpp:40-94 | the scanning loop computes the line-by-line parse of the whole text |
| Http.RequestLineParsed | src/common.cpp:56-75 | of a line "verb /path version" the header is the version and the method the path, spaces in the path included |
| Http.TooFewSpaces | src/common.cpp:60-72 | the first line cannot be handled if and only if its first and last space coincide or adjoin |
| Http.LinesParsed | src/common.cpp:76-88 | header lines set the content type, the last one that does so prevailing, and nothing else |
| Http.RequestParsed | src/common.cpp:40-94 | a whole request gives version, path and content type, and its content if and only if that has no carriage return |
| Http.LengthPrinted | src/common.cpp:26-29 | the number after "Content-Length: " is the length of the content, in decimal without leading zeros |
| Http.StatusOfResponse | src/common.cpp:56-75 | the first line of a response parses to the header "OK" |
| Http.TypeTaken | src/common.cpp:78-83 | the content-type line sets exactly the content type |
| Http.TailIgnored | src/common.cpp:76-88 | server, length and date lines set nothing |
| Http.ParsedIsShorter | src/common.cpp:46-92 | a text with a carriage return parses to strictly shorter content |
| Http.RoundTrip | src/common.cpp:19-94 | parsing what was printed gives content and content type back if and only if the content has no carriage return |

## Left out

- WriteBuf.FileBuffers.Write: one file alone; the consumer gives slots back only just before the reopen tests, as a list says, and a call that is still waiting when the list ends returns false. Every other interleaving is covered by `Transfer.Memory`.
- WriteBuf.FileBuffers.AddToCounter: the increment of a shared counter is one step on the heap and in `Pipeline`; lost updates are treated in `LostUpdates` only.
- Transfer.Memory.JudgeXorCondition: the loop is bounded by a schedule of what the other threads try before each access; a run that is back at its head when the schedule ends returns None.
- Transfer.Memory.XorSlot: the XOR is one step between taking a slot and resetting its counter. `Guarantees.Ownership` shows that nobody else touches the slots meanwhile.
- BufXor.FileGroup.Xor: the release of all slots after the last drain is counted, not performed.
- Framing.Connection.OnReadable: the release of the file's slots on the early return is counted, not performed. What happens after a header shorter than its length is not modelled.
- Reception.MessagesDeliver: reads that cross a message end, as for `Framing.Messages`, and a last message without payload, for which `LateFragments.ExactPieces` says what happens.
- Reception.MessagesToParity: the same.
- Framing.Messages: reads that cross a message end; `Framing.PayloadIff` says what the first of them does.
- Delivery.MoveKeepsFullChunks: no empty fragment once the file is complete, which `LateFragments.LateMove` covers.
- Guarantees.FragmentationIndependence: no empty fragment once the file is complete; `LateFragments.ExactPieces` is without that restriction.
- LocalXor.XorFiles: the outer loop is bounded by a number of rounds, large enough for every input on which the source returns. Reads are assumed complete.
- Http.GetInput: a line of 1024 characters or more, a first line whose first and last spaces coincide or adjoin, or a carriage return as last character makes the source write or read outside its buffers; the model stops there with `Overrun`.
- The receiving thread's early return once the transfer has ended is not a step of the pipeline: it only removes steps of threads, and once a flag is set the consumer needs none of them to return.
- Allocation and zeroing of buffers, and the fixed array bound of 100 files.
- The request header sent to the peer, connecting, timeouts, the event loop and the reply's other fields.
- Failures of the local routine's writes, and read errors of local files.
- JSON dispatch, directory walking, the REST feedback calls and logging.
