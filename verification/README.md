# Verified models of a Linux 2.2.1 kernel

This project models eight parts of the kernel and proves what they are for.

- **Deflate decoder** (`lib/inflate.c`). `Canonical` has the codes of section 3.2.2 of RFC 1951 and the
  Kraft sum; the `Huffman*` modules model `huft_build`; `InflateInput` the bit buffer; `SlideWindow` the
  circular window; `InflateSpec` and `InflateFormat` say what the bits of a stream mean, `InflateAlphabet`
  what its symbols stand for, `InflateFailures` what there can be that the decoder cannot read; the other `Inflate*` modules model the decoder.
  `InflateStream.InflateAll` decodes every stream that the format allows and the decoder accepts, to the one
  meaning it has, and succeeds on nothing else; and it says of every input when it uses a table that does
  not exist or an entry made from a value that was never set.
- **Timer wheel** (`kernel/sched.c`). `TimerSpec` is a bag of deadlines, `TimerWheel` the arithmetic of the
  five vectors, `TimerLinks` their pointers, `TimerCalls` what timer functions ask for, `Timers` the wheel
  itself. Every run of the wheel is a run of the bag that does what the timer functions ask for, in which a
  timer that nobody touches fires exactly once, at its deadline.
- **Scheduler** (`kernel/sched.c`). `SchedSpec` says what a choice is, `SchedRuns` has bounded waiting,
  `SchedQueue` the pointers of the run queue, `Sched` the operations.
- **POSIX record locks** (`fs/locks.c`). `LockRanges` and `LockEdit` model the edit of a file's list of
  locks, `LockState` the invariant over all files and waiters, `Locks` the operations and the deadlock
  detector. `Links` is about chains of pointers, which both waiters and directory entries form.
- **Directory entry cache** (`fs/dcache.c`). `DentryTree` has the tree and its walks, `DentryState` the
  invariant, `DentryPut` reference dropping and pruning, `DentryMove` renaming and hashing, `Dcache` the
  operations.
- **Buffer cache** (`fs/buffer.c`). `BufferState` has the invariant over lists and hash chains and how each
  list operation keeps it, `BufferLinks` the pointers in the buffer heads, `Buffer` the operations.
- **System V semaphores** (`ipc/sem.c`). `SemSpec` says what a vector of operations means, `SemRuns` what
  the calls do, `SemBalance` has conservation and `SemWrap` a run that breaks it, `SemWakeups` lost wakeups,
  `Sem` the operations in place.
- **Numbers as text** (`lib/vsprintf.c`). `Vsprintf` has printing, reading, and round trips.

`Bits`, `BitStream` and `Lists` hold arithmetic and list lemmas. Where the kernel updates something in
place, the model is a class whose methods are proved against functions of the old state. `Rings` and
`Chains` are the two kinds of linked list that the buffer cache, the run queue and the timer wheel rewire:
circular ones with next and prev pointers, and those whose nodes know where the pointer to them is kept.
Objects are named by numbers that stand for addresses, and a map from objects to objects is a pointer
field, null where it has no value. The lists of the other parts are sequences. `dafny verify dfyconfig.toml`
checks everything.

## What does not hold as one might expect

- `huft_build` can make a table below the root wider than the number of bits its parent is indexed with.
  Such a table has slots that are never filled but are looked up. `Huffman.HuftBuild` shows that this
  happens exactly when `NarrowTables` fails; `Huffman.WideExample` is a code for which it does. All calls
  in the file are safe: `Huffman.FewSymbolsNarrow` and `Huffman.ShortCodesNarrow`.
- Patterns that are no symbol's code are marked invalid, whatever the value array held before, if and only
  if the code is complete or no symbol has length zero: `Huffman.RejectsIff`. Otherwise some entry is made
  from a value that was never set; lengths `[0, 1]` are the smallest case, `Huffman.JunkExample`.
- The decoder accepts such lists when all lengths are zero or there is a single code of one bit
  (`InflateFailures.ImproperIff`), and then can get lost: it looks up a table that does not exist, or an
  entry made from such a value. The model reports this as `Undefined`, and each of its parts says exactly
  when it does. It happens in four ways, each shown at an input: the code for code lengths is all zero
  (`InflateExamples.NoOrder`); the literal code is (`NoLiterals`); the distance code is, and a length is
  read (`NoDistances`); or a pattern is read that is no code of a list that is not proper
  (`OtherDistance`). Whatever the input, proper lists exclude all of them:
  `InflateStream.ProperStreamNotLost`.
- A runnable realtime task is preferred to any time-sharing task if and only if six times `DEF_PRIORITY` is
  less than 1000: `SchedSpec.RealtimeIff`. `DEF_PRIORITY` is a fifth of a second in ticks. With a clock of
  100 Hz it is 20; with the Alpha's, of 1024 Hz (`include/asm-alpha/param.h:5`), it is 204, and a
  time-sharing task that has slept goes before a realtime task of priority 1: `SchedSpec.RealtimeClocks`.
  `SchedSpec.RestFills` shows that sleeping does bring the counter there.
- `d_drop` of an entry that nobody holds leaves it where nobody can find it, which no other operation does:
  `Dcache.Cache.Drop`, and `DentryMove.DropUnheld` for a cache of two entries.
- `d_move` keeps the tree exactly when neither entry is an ancestor of the other: `DentryMove.MoveTree`, and
  `DentryMove.MoveBelow` for a root with a directory in a directory.
  File systems check one direction with `is_subdir` (`fs/ext2/namei.c:905`); the other is excluded only
  because they refuse a target directory that has entries.
- When every operation on a semaphore is undone at exit, it need not get its old value back: adjustments
  are cut to sixteen bits. In `SemWrap.Wraps` it ends at 65536 instead of 0. `SemBalance.AllReturned` shows
  that it does get it back in every run in which no adjustment is cut, and always up to a multiple of 65536.
- A process asleep in `semop` can be forgotten in three ways: an entry that only waits for zero and adds is
  completed by `update_queue`, which does not look again at entries it has passed
  (`SemWakeups.MixedEntry`); a process that was told to retry, fails, and goes back to sleep does not look
  at entries that were skipped on its account (`SemWakeups.CutShort`); and neither does one that exits
  instead (`SemWakeups.LeavesInstead`). `SemWakeups.StepKeeps` says exactly which steps forget somebody, and
  `SemWakeups.PlainStep` that without entries of the first kind only the other two remain.
- What `number` prints is read back only if it starts with a digit, or a minus sign where one is
  taken: `simple_strtoul` and `simple_strtol` skip neither blanks nor a plus sign, and given the base they do
  not know the prefix `0x` either: `Vsprintf.WordRoundTrip`, `Vsprintf.LongRoundTrip`.
- What `%#X` prints is not read back by `simple_strtoul` with base zero, which knows only `0x`:
  `Vsprintf.PrefixRoundTrip`.

## Model

| member | source | states |
|---|---|---|
| `Canonical.PrefixFree` | lib/inflate.c:350-376 | no code of the canonical assignment is a prefix of another |
| `Canonical.SlowLengthFinds` | lib/inflate.c:350-376 | reading bit by bit stops at exactly the code the stream starts with |
| `Canonical.KraftAgrees` | lib/inflate.c:304-318 | the Kraft sum over symbols is the sum over the counts that `huft_build` makes |
| `HuffmanTables.WalkDown` | lib/inflate.c:532-541 | a stream below an open table is walked from the root to that table |
| `HuffmanBuild.ChooseBits` | lib/inflate.c:394-409 | the size of a new table: every code below fits unless it has l bits, and it exceeds l bits only in the one case where it must |
| `HuffmanBuild.TooWideOverflows` | lib/inflate.c:394-409 | a table that is too wide has codes that need yet another table below it |
| `HuffmanBuild.FillSlots` | lib/inflate.c:457-460 | exactly the slots whose low bits are the code are filled |
| `HuffmanBuild.BackwardIncrement` | lib/inflate.c:462-465 | the reversed code becomes the reversal of the next code |
| `HuffmanBuild.OpenTables` | lib/inflate.c:388-437 | opening tables keeps the invariant: finished codes decode, open tables are linked and blank above the next code, and any loss is tracked |
| `HuffmanLoop.CloseTables` | lib/inflate.c:467-472 | closing tables keeps the invariant and ends at the table the next code belongs to |
| `HuffmanLoop.CodesOfLength` | lib/inflate.c:379-474 | all codes of one length are placed, and the value pointer advances by their number |
| `HuffmanLoop.AssignCodes` | lib/inflate.c:367-476 | the tables decode every stream as the bit-by-bit decoder does if and only if no table was too wide; otherwise some stream is lost |
| `Huffman.CountLengths` | lib/inflate.c:304-312 | counts per length |
| `Huffman.PatternsLeft` | lib/inflate.c:340-346 | what is left of the bit patterns at the longest length; negative exactly when oversubscribed |
| `Huffman.Offsets` | lib/inflate.c:350-354 | the number of codes shorter than each length |
| `Huffman.OrderValues` | lib/inflate.c:359-364 | the value array lists the symbols in order of their codes, and after them is as it was before |
| `Huffman.ExactlyOne` | lib/inflate.c:268-482 | with Kraft sum one, every stream starts with exactly one symbol's code |
| `Huffman.AtMostOne` | lib/inflate.c:268-482 | no stream starts with the codes of two symbols |
| `Huffman.KraftMeaning` | lib/inflate.c:340-346 | the Kraft sum is at most one, or one, exactly when the patterns left are not negative, or zero |
| `Huffman.SymbolFound` | lib/inflate.c:532-541 | bit-by-bit decoding of a stream that starts with a symbol's code gives that symbol's entry and its length |
| `Huffman.NoSymbol` | lib/inflate.c:439-455 | a stream that starts with no code gives the entry made from the place in the value array that follows from its bits, after those of all symbols |
| `Huffman.FirstExtra` | lib/inflate.c:439-455 | an incomplete code leaves a pattern whose entry is made from the first place after the symbols |
| `Huffman.RejectsIff` | lib/inflate.c:439-455 | whatever the value array held, every pattern without a symbol is marked invalid if and only if the code is complete or no length is zero |
| `Huffman.JunkExample` | lib/inflate.c:439-455 | with lengths 0 and 1, the entry of the other bit is whatever the value at place 1 makes it |
| `Huffman.HuftBuild` | lib/inflate.c:268-482 | result 2 exactly for Kraft sums above one, 1 exactly for sums below one with a code longer than one bit; with `NarrowTables` the tables give every symbol, using exactly its bits, and every other pattern the entry of its place in the value array; without, a named stream gets lost, and that stream starts with a symbol's code if the code is complete |
| `Huffman.TooWideNeedsCodes` | lib/inflate.c:394-409 | a table grows too wide only with at least 2^l symbols |
| `Huffman.FewSymbolsNarrow` | lib/inflate.c:394-409 | fewer symbols than root entries: the tables are narrow, which covers the dynamic codes |
| `Huffman.ShortCodesNarrow` | lib/inflate.c:394-409 | codes shorter than twice the root bits: the tables are narrow, which covers the fixed codes |
| `Huffman.WideExample` | lib/inflate.c:394-409 | a complete code of eight symbols for which they are not |
| `InflateInput.BitReader.NeedBits` | lib/inflate.c:219-219 | buffers at least n bits without moving in the stream, if and only if the input has them |
| `InflateInput.BitReader.PeekBits` | lib/inflate.c:532-533 | the next n bits of the stream, least significant first |
| `InflateInput.BitReader.DumpBits` | lib/inflate.c:220-220 | advances by n bits |
| `InflateInput.BitReader.UndoLookahead` | lib/inflate.c:979-985 | whole bytes read ahead are given back and no more |
| `InflateInput.DecodeEntry` | lib/inflate.c:532-541 | the entry that the walk over the stream finds, and exactly its bits are used; fails only if the input ends no more than 16 bits after the code |
| `SlideWindow.CopyBackIs` | lib/inflate.c:579-600 | each byte copied equals the one `dist` before it, also when source and target overlap |
| `SlideWindow.CopyBackUnique` | lib/inflate.c:579-600 | and that determines the result |
| `SlideWindow.UpwardIsMove` | lib/inflate.c:583-588 | when the source lies above the target in the window, copying upward byte by byte is a move of the old bytes |
| `SlideWindow.Window.Literal` | lib/inflate.c:542-551 | the history grows by the byte, and a full window is flushed |
| `SlideWindow.Window.CopyFast` | lib/inflate.c:582-588 | the block move is as good as byte-by-byte copying from the unbounded history |
| `SlideWindow.Window.CopySlow` | lib/inflate.c:589-594 | so is the byte loop when source and target overlap |
| `SlideWindow.Window.Copy` | lib/inflate.c:579-600 | the whole copy, with chunks and wraparound, for every length and every distance up to 32768; flushed bytes plus the window are the history |
| `InflateSpec.TokenUnique` | lib/inflate.c:530-601 | no bit string has two readings as a literal or match |
| `InflateSpec.CodesUnique` | lib/inflate.c:530-601 | the coded part of a block determines its tokens and its end |
| `InflateFormat.ItemUnique` | lib/inflate.c:803-844 | no bit string has two readings as an entry of the list of code lengths |
| `InflateFormat.HeaderUnique` | lib/inflate.c:752-844 | the header of a dynamic block has one meaning |
| `InflateFormat.StoredUnique` | lib/inflate.c:632-659 | a stored block has one meaning |
| `InflateFailures.ImproperIff` | lib/inflate.c:312-318 | the accepted lists that are not proper are those without a code, and those with one code of one bit and a zero length |
| `InflateFailures.ZeroLost` | lib/inflate.c:313-318 | without a code every lookup is lost |
| `InflateFailures.LostCodesBound` | lib/inflate.c:507-612 | no reading of tokens goes past the place where the decoder is lost, and none that stops for another reason meets one |
| `InflateFailures.LostListBound` | lib/inflate.c:798-844 | the same for the list of code lengths |
| `InflateFailures.LostInBody` | lib/inflate.c:726-900 | after a header with an accepted code for code lengths the decoder can only get lost in the coded part, and only if the other lists are accepted |
| `InflateFailures.ProperNotLost` | lib/inflate.c:726-900 | with proper lists it does not get lost in a dynamic block |
| `InflateCodes.DecodeSymbol` | lib/inflate.c:532-541 | the symbol at this place of the stream, and success whenever there is one that stands for something; `Undefined` if and only if no symbol's code is here and the list is not proper, unless the input ends within 32 bits; `Bad` only for a pattern that is invalid |
| `InflateCodes.MatchInWindow` | lib/inflate.c:559-576 | extra bits keep distances in 1..32768 and lengths in 3..258 |
| `InflateCodes.ReadDistance` | lib/inflate.c:563-576 | a distance symbol and its extra bits, with the same cases |
| `InflateCodes.ReadMatch` | lib/inflate.c:558-576 | length and distance of the match at this place, and success whenever there is one; `Undefined` if and only if the distance is lost, unless the input ends within 48 bits; `Bad` only if there is no match |
| `InflateCodes.NextToken` | lib/inflate.c:530-601 | one token is read and applied to the history, or the end of the block, and success whenever there is one; `Undefined` if and only if the literal code or the distance is lost here, unless the input ends within 64 bits; `Bad` only if there is neither |
| `InflateCodes.DecodeCodes` | lib/inflate.c:507-612 | in any case what has been read are tokens and what has been put out is what they stand for; success exactly means an end code, `Bad` garbage, `Undefined` a place where the decoder is lost; wherever there is such a place, the result is `Undefined`, or the input ends within 64 bits of it |
| `InflateTables.SoundTables` | lib/inflate.c:439-455 | tables for a list that is accepted, or that has no zero lengths, answer every stream rightly: with its symbol, as invalid, or as made from a value never set, the last if and only if the list is not proper |
| `InflateTables.MakeTables` | lib/inflate.c:268-482 | result 0 if and only if the list is accepted, and then the tables answer every stream rightly |
| `Inflate.InflateStored` | lib/inflate.c:616-668 | success if and only if a stored block with matching length and complement is there; the history grows by its bytes; `Bad` only if there is none |
| `Inflate.FixedLitComplete` | lib/inflate.c:686-693 | the fixed literal lengths have Kraft sum one |
| `Inflate.InflateFixed` | lib/inflate.c:672-722 | success means a fixed block, decoded as the format says, and there is success for every one; `Bad` only if there is none; never `Undefined` |
| `InflateDynamic.ReadOrder` | lib/inflate.c:775-783 | the lengths of the code for code lengths, in their peculiar order |
| `InflateDynamic.NextItem` | lib/inflate.c:803-844 | one length, repeat or run of zeros, and success whenever one that fits is there; `Bad` only if none fits; `Undefined` if and only if the lookup is lost, unless the input ends within 32 bits |
| `InflateDynamic.ReadLengths` | lib/inflate.c:798-844 | the list of code lengths; in any case what has been read are items, and where they stop there is none that fits, or the decoder is lost, or the input ends |
| `InflateDynamic.ReadHeader` | lib/inflate.c:752-844 | success means a header with these lengths whose code for code lengths is accepted, and there is success for every one; `Bad` only if there is none; `Undefined` if and only if the decoder gets lost in the list of lengths, unless the input ends near that place |
| `InflateDynamic.DecodeDynamic` | lib/inflate.c:726-900 | the whole block, with the same four cases; accepted blocks may have a single distance code of one bit |
| `InflateAlphabet.LengthTable` | lib/inflate.c:161-167 | the lengths of a symbol follow those of the symbol before it, from 3 to 258, with one more extra bit every four symbols, and the last symbol is 258 again |
| `InflateAlphabet.DistanceTable` | lib/inflate.c:168-175 | likewise the distances, from 1 to 32768, with one more extra bit every two symbols |
| `InflateAlphabet.EveryMatch` | lib/inflate.c:161-175 | every length from 3 to 258 and every distance from 1 to 32768 is that of some symbol and extra bits |
| `InflateAlphabet.LengthOrder` | lib/inflate.c:161-167 | a smaller length symbol never gives a larger length, and only 258 is given in two ways |
| `InflateAlphabet.DistanceOrder` | lib/inflate.c:168-175 | a smaller distance symbol gives a smaller distance, so no distance is given in two ways |
| `InflateAlphabet.MatchStands` | lib/inflate.c:556-570 | the length and distance of a match in the input are those of its symbols and extra bits |
| `InflateAlphabet.OrderOutwards` | lib/inflate.c:159-160 | the code lengths for code lengths come in the order of repeat codes, zero, and from 8 outwards |
| `InflateAlphabet.ItemCounts` | lib/inflate.c:810-837 | a length is repeated 3 to 6 times, and runs of zeros have 3 to 10 or 11 to 138 of them, by symbol |
| `InflateAlphabet.FixedCodes` | lib/inflate.c:687-694 | the fixed codes of all 288 literal and length symbols are those of the table in section 3.2.6 of RFC 1951 |
| `InflateAlphabet.FixedDistances` | lib/inflate.c:701-702 | and those of the distances are their numbers in five bits |
| `InflateAlphabet.CanonicalRules` | lib/inflate.c:350-376 | for any list of lengths, codes of one length are in the order of the symbols, and shorter codes come before longer ones |
| `InflateStream.InflateBlock` | lib/inflate.c:904-947 | success means a block of one of the three kinds, applied to the history, and there is success for every block that is accepted; `Bad` only if there is none; `Undefined` if and only if the decoder gets lost in it, unless the input ends near that place |
| `InflateStream.BlockUnique` | lib/inflate.c:904-947 | a block has one meaning |
| `InflateStream.StreamUnique` | lib/inflate.c:951-996 | a stream has one meaning: the output and the end |
| `InflateStream.LostNoBlock` | lib/inflate.c:904-947 | where the decoder gets lost there is no block that it accepts |
| `InflateStream.LostAhead` | lib/inflate.c:951-996 | a reading of accepted blocks does not go past the place where the decoder gets lost |
| `InflateStream.ProperStreamNotLost` | lib/inflate.c:951-996 | whatever the bits are, if every list that tables are built from is proper the decoder does not get lost |
| `InflateExamples.NoOrder` | lib/inflate.c:804-807 | it gets lost at an input whose code for code lengths is all zero |
| `InflateExamples.NoLiterals` | lib/inflate.c:532-533 | at one whose literal code is |
| `InflateExamples.NoDistances` | lib/inflate.c:564-565 | at one whose distance code is, when a length is read |
| `InflateExamples.OtherDistance` | lib/inflate.c:564-565 | and at one with a single distance code of one bit, when the other bit is read |
| `InflateExamples.Repeats` | lib/inflate.c:672-722 | a fixed block of five bytes, with a match of length 11 at distance 1, is thirteen letters a |
| `InflateExamples.StoredLetter` | lib/inflate.c:616-668 | a stored block of six bytes is the letter A |
| `InflateStream.InflateAll` | lib/inflate.c:951-996 | a successful result is a stream of accepted blocks, the output is what they expand to, and input is used up to the byte after its last bit; every such stream that is followed by 16 bits is decoded, to its meaning; `Bad` only if there is none; `Undefined` only if accepted blocks are followed by one in which the decoder gets lost, and always then unless the input ends within 64 bits of that place; never if all lists are proper |
| `TimerSpec.NeverLate` | kernel/sched.c:1005-1029 | over every run no pending deadline is in the past |
| `TimerSpec.FiresOnce` | kernel/sched.c:1005-1029 | over every run a pending timer that nobody touches either is still pending with its deadline ahead, or has fired exactly once, at its deadline |
| `TimerSpec.FiresNever` | kernel/sched.c:494-504 | over every run a timer that is not pending and that nobody sets never fires |
| `TimerCalls.ObeysJoin` | kernel/sched.c:1016-1024 | a run that does what the first lists of calls say, and then one that does what the others say, is one that does what all of them say |
| `TimerCalls.SetOnce` | kernel/sched.c:1016-1024 | over every such run a pending timer whose function sets it again when it is first called, by `add_timer` or `mod_timer`, fires at its deadline and then once more at the new one, or is pending with the new one ahead |
| `TimerWheel.SlotIsRight` | kernel/sched.c:425-457 | for every 32-bit `expires`, the slot chosen is one whose turn comes at the deadline rounded down to the slot's span; the past means the next slot |
| `TimerWheel.DueSoon` | kernel/sched.c:987-1003 | when a coarse slot's turn comes, its timers are due within one span and belong to a finer vector |
| `TimerWheel.MoveKeeps` | kernel/sched.c:992-999 | moving the first timer of a slot keeps the lists and loses or doubles none |
| `TimerWheel.InsertKeeps` | kernel/sched.c:416-423 | inserting a timer at the front of a slot's list keeps every timer on exactly the list of its slot |
| `TimerWheel.PlacedCascaded` | kernel/sched.c:1000-1002 | once its slot is empty, advancing a vector's index keeps every timer in the right place |
| `TimerWheel.PlacedTicked` | kernel/sched.c:1025-1026 | ending a tick at which nothing is due keeps every timer in the right place |
| `TimerWheel.TurnTaken` | kernel/sched.c:1009-1015 | after a vector's turn the next one is due exactly when the index has wrapped to one |
| `TimerWheel.TurnsTicked` | kernel/sched.c:1025-1026 | the indices are right again at the head of the loop |
| `TimerLinks.PushTimer` | kernel/sched.c:416-423 | after the rewiring of `insert_timer` the pointers make up the lists with the timer at the front of its slot |
| `TimerLinks.PullTimer` | kernel/sched.c:470-481 | after that of `detach_timer` they make up the lists without it, and it has no pointers |
| `TimerLinks.CascadeMoves` | kernel/sched.c:996-1000 | moving a timer without detaching it keeps the way through the rest of its old list |
| `TimerLinks.CascadeEnds` | kernel/sched.c:1001-1001 | clearing the slot at the end makes its list empty |
| `Timers.Wheel.InternalAddTimer` | kernel/sched.c:425-457 | the timer is put at the front of the slot whose turn comes at its deadline, rounded down to the span of the slot |
| `Timers.Wheel.AddTimer` | kernel/sched.c:461-468 | is the bag's step of adding a deadline |
| `Timers.Wheel.DetachTimer` | kernel/sched.c:470-481 | is removal from the bag, and says whether the timer was pending |
| `Timers.Wheel.ModTimer` | kernel/sched.c:483-492 | is the bag's step of changing a deadline |
| `Timers.Wheel.DelTimer` | kernel/sched.c:494-504 | is the bag's step of deleting, and says whether the timer was pending |
| `Timers.Wheel.DoOp` | kernel/sched.c:461-504 | a call that a timer function makes is exactly its event of the bag, or none if a pending timer is to be added |
| `Timers.Wheel.CascadeTimers` | kernel/sched.c:987-1003 | the bag is unchanged and every timer is in the right place for the next turn |
| `Timers.Wheel.RunDue` | kernel/sched.c:1016-1024 | exactly the timers due now are called, also those that the calls themselves set; after each call come, right away and in order, the calls its function makes, and nothing else happens; afterwards nothing is due |
| `Timers.Wheel.RunTick` | kernel/sched.c:1008-1027 | one iteration is a run of the bag that ends with a tick |
| `Timers.Wheel.RunTimerList` | kernel/sched.c:1005-1029 | all iterations up to the clock, with 32-bit wraparound, are a run of the bag of ticks and timer functions, each followed by exactly the calls it makes; the timers fired are those of the run; every pending timer that no timer function touches has fired exactly once, at its deadline, if that is past, and is pending otherwise; a timer that only its own function sets again has fired at its deadline and once more at the new one, or is pending with that |
| `SchedSpec.RealtimeFirst` | kernel/sched.c:338-380 | if a realtime task is runnable and six times `DEF_PRIORITY` is below 1000, a realtime task is chosen: of the highest priority, and of those the first on the queue |
| `SchedSpec.RealtimeIff` | kernel/sched.c:338-380 | for every value of `DEF_PRIORITY`, a runnable realtime task always keeps time-sharing tasks out if and only if six times that value is below 1000 |
| `SchedSpec.RealtimeLast` | kernel/sched.c:338-380 | from there on a time-sharing task with counter and priority in bounds is chosen before a realtime one |
| `SchedSpec.RealtimeClocks` | include/linux/sched.h:341 | so realtime tasks come first with a clock of 100 Hz, and not with one of 1024 Hz, at a given queue of two tasks |
| `SchedSpec.RestFills` | kernel/sched.c:723-724 | with the best nice value a sleeping task's counter reaches the bound, four times `DEF_PRIORITY` less one, after some recalculations |
| `SchedSpec.OutOfTime` | kernel/sched.c:719-727 | counters are recalculated if and only if every runnable task is out of time or yields |
| `SchedSpec.ScheduledOk` | kernel/sched.c:665-727 | for every value of `DEF_PRIORITY`, counters stay at least zero and below four times that value, priorities between one and twice that value, realtime priorities between 1 and 99; the whole effect on each task, by fields: when the best weight is zero every task but idle, asleep or not, gets half its counter plus its priority, and everybody on the queue has time left; nobody on it yields; the others keep their order |
| `SchedSpec.RecalculatedOnce` | kernel/sched.c:719-725 | the choice after a recalculation does not lead to another |
| `SchedRuns.SharingChoice` | kernel/sched.c:710-727 | among time-sharing tasks, a task with time left is chosen, or all are out of time and the counters are recalculated |
| `SchedRuns.TickSlack` | kernel/sched.c:1344-1357 | every clock interrupt takes something from the slack |
| `SchedRuns.BoundedWait` | kernel/sched.c:710-727 | over every run without recalculation there are no more clock interrupts than the sum of counter + 1 |
| `SchedRuns.EveryoneRan` | kernel/sched.c:710-727 | when the counters are recalculated, every task that had time left has run |
| `Sched.ScanNext` | kernel/sched.c:711-717 | one step of the scan keeps the first of the greatest weight |
| `SchedQueue.QueueFirst` | kernel/sched.c:227-236 | the rewiring makes the task the first of the ring after the idle task |
| `SchedQueue.QueueLast` | kernel/sched.c:258-263 | or the last, before the idle task |
| `SchedQueue.QueueLess` | kernel/sched.c:238-248 | or takes it out, the others in order, without pointers of its own |
| `Sched.Scheduler.DelFromRunqueue` | kernel/sched.c:238-248 | off the queue, the others in order |
| `Sched.Scheduler.AddToRunqueue` | kernel/sched.c:227-236 | by its pointers, the queue has the task at the front |
| `Sched.Scheduler.MoveLastRunqueue` | kernel/sched.c:250-264 | by its pointers, the queue has the task at the end and the others in order |
| `Sched.Scheduler.MoveFirstRunqueue` | kernel/sched.c:266-280 | by its pointers, the queue has the task at the front and the others in order |
| `Sched.Scheduler.WakeUpProcess` | kernel/sched.c:305-316 | on the queue at most once |
| `Sched.Scheduler.Goodness` | kernel/sched.c:338-380 | the weight, and the flag of a yielding task is cleared |
| `Sched.Scheduler.Choose` | kernel/sched.c:706-717 | following the pointers from the idle task finds the first task of the greatest weight, or idle if there is none |
| `Sched.Scheduler.Schedule` | kernel/sched.c:662-729 | the whole new state: a renewed round-robin task goes last, a sleeper leaves, the choice is made, counters are recalculated exactly when the best weight is zero; and what this does to every task, field by field |
| `Sched.Scheduler.UpdateProcessTimes` | kernel/sched.c:1344-1357 | exactly the smaller of counter and ticks is taken from the counter, and a reschedule is asked for exactly when there were too few |
| `Sched.NiceNearest` | kernel/sched.c:1551-1560 | twenty steps of the nice value are worth one `DEF_PRIORITY`, any number its share to the nearest tick, and none more than two of them |
| `Sched.Scheduler.Nice` | kernel/sched.c:1532-1581 | the new priority, between one and twice `DEF_PRIORITY` for every value of that |
| `Sched.Scheduler.SetScheduler` | kernel/sched.c:1592-1662 | policy and priority on success, nothing on failure; each error if and only if its cause is there |
| `Sched.Scheduler.Yield` | kernel/sched.c:1731-1742 | the task goes last and, if time-sharing, is marked |
| `Sched.Scheduler.Fork` | kernel/fork.c:604-611 | parent and child share the time left, at most one tick is lost |
| `Links.NewLink` | fs/locks.c:787-820 | a new wait closes a cycle if and only if its end already leads back to its start |
| `Links.SwapLinks` | fs/dcache.c:721-746 | two nodes can exchange their parents without a cycle if and only if neither leads to the other |
| `LockEdit.EditOne` | fs/locks.c:966-1046 | one turn of the pass over the owner's locks keeps the invariant of the edit, or stops where it must |
| `LockEdit.EditList` | fs/locks.c:957-1078 | the new list: the owner's byte-to-type map is overridden on the range and unchanged elsewhere, sorted, disjoint and merged; other owners' locks untouched; locks that shrink, change type or go have their waiters woken |
| `LockRanges.OneKind` | fs/locks.c:964-1078 | a byte has at most one type per owner |
| `LockState.ConflictIff` | fs/locks.c:723-772 | a request conflicts with a lock if and only if they share a byte, have different owners, and one of them is for writing |
| `LockState.FitsIff` | fs/locks.c:723-772 | a request conflicts with nothing if and only if its range and type, put beside the locks of the file, leave them exclusive |
| `LockState.GrantExclusive` | fs/locks.c:934-1078 | after a grant, locks of different owners still overlap only if both are read locks |
| `LockState.GrantBlocks` | fs/locks.c:257-278 | after a grant, everybody still queued conflicts with the lock they are queued on |
| `LockState.SleepBlocks` | fs/locks.c:191-209 | a new waiter is queued on a lock it conflicts with |
| `LockState.UnblockBlocks` | fs/locks.c:214-234 | taking one waiter out of its queue keeps all others |
| `Locks.FindConflict` | fs/locks.c:936-940 | the first lock on the file that conflicts |
| `Locks.LockManager.PosixLocksDeadlock` | fs/locks.c:787-820 | terminates, and is true if and only if the new wait would close a cycle |
| `Locks.LockManager.PosixLockFile` | fs/locks.c:913-1089 | granted if and only if it is an unlock or its range and type put beside the locks of the file leave them exclusive, that is, unless it shares a byte with a lock of another owner and one of the two is for writing; the owner's map is overridden; exclusion, waiters and absence of deadlock are kept; a refusal changes nothing, and says which of the four outcomes it is; only waiters of the owner's own locks are woken |
| `Locks.LockManager.DeleteLock` | fs/locks.c:1144-1168 | the lock leaves its lists and its waiters are woken |
| `Locks.LockManager.RemovePosix` | fs/locks.c:468-497 | exactly the closing task's POSIX locks on the file go, and exactly their waiters are woken |
| `Locks.LockManager.Unblock` | fs/locks.c:950-953 | an interrupted sleeper leaves its queue |
| `DentryTree.WalkAll` | fs/dcache.c:363-395 | the walk by pointers meets exactly the descendants |
| `DentryTree.WalkDistinct` | fs/dcache.c:363-395 | and none twice |
| `DentryTree.WalkDown` | fs/dcache.c:372-384 | descending to a child is the next step of the preorder |
| `DentryTree.WalkUp` | fs/dcache.c:389-393 | ascending by the parent pointer resumes where the preorder goes on |
| `DentryTree.WalkSum` | fs/dcache.c:377-377 | counts less one, summed over a walk, are the outside references less the children of its root |
| `DentryState.GarbageUnique` | fs/dcache.c:101-160 | there is only one set of entries that nothing needs any more |
| `DentryState.FreedTree` | fs/dcache.c:131-139 | unlinking a childless entry keeps the tree |
| `DentryPut.PutGoesOn` | fs/dcache.c:128-142 | one turn of the loop in `dput` keeps the invariant, with the parent's count now one too high |
| `DentryPut.PruneShed` | fs/dcache.c:267-277 | pruning an entry and what its parent's `dput` frees is freeing entries nobody refers to, children first |
| `DentryPut.ShrinkProgress` | fs/dcache.c:452-458 | every round of shrinking frees something |
| `DentryMove.MoveTree` | fs/dcache.c:721-746 | renaming keeps the tree if and only if neither entry is an ancestor of the other |
| `DentryMove.MoveBelow` | fs/dcache.c:721-746 | a tree of a root and two entries, one under the other, is no tree after a rename either way |
| `DentryMove.DropUnheld` | include/linux/dcache.h:114-118 | a cache of a root and an entry that nobody holds, which `d_drop` puts out of order |
| `DentryMove.MovedLists` | fs/dcache.c:734-745 | the two entries change places and nobody gains or loses a child |
| `DentryMove.MoveHash` | fs/dcache.c:726-732 | after the exchange of names every entry is on the chain of its parent and name |
| `DentryMove.MoveFound` | fs/dcache.c:558-594 | the entry is found under the target's parent and name, no longer under its own, and everything else as before |
| `Dcache.Cache.Alloc` | fs/dcache.c:478-524 | a new entry of that name held by the caller, first among the children of its parent, which gets a reference; no other entry changes; counts, tree, lists and chains are kept |
| `Dcache.Cache.AllocRoot` | fs/dcache.c:543-556 | a new root |
| `Dcache.Cache.Dget` | include/linux/dcache.h:180-185 | one more reference |
| `Dcache.Cache.Dput` | fs/dcache.c:101-160 | frees exactly the entries that can no longer be looked up, that nobody refers to, and whose children all go; everything with count zero is on the unused list, whose order changes only at the front |
| `Dcache.Cache.Put` | fs/dcache.c:108-160 | the loop itself; nothing is freed at or above an entry that is held |
| `Dcache.Cache.Drop` | include/linux/dcache.h:114-118 | the entry can no longer be found, and all others can as before; the cache stays in order if and only if somebody holds the entry |
| `Dcache.Cache.Rehash` | fs/dcache.c:669-674 | the entry can be found |
| `Dcache.Cache.Lookup` | fs/dcache.c:565-594 | an entry of that parent and name, or none only if there is none in the whole cache |
| `Dcache.Cache.IsSubdir` | fs/dcache.c:842-859 | terminates, and is true if and only if the entry is the other or under it |
| `Dcache.Cache.Move` | fs/dcache.c:721-746 | keeps everything if neither is an ancestor of the other; the entry is then found in the target's place |
| `Dcache.Cache.PruneOne` | fs/dcache.c:267-277 | the entry and what follows from it are freed |
| `Dcache.Cache.PruneDcache` | fs/dcache.c:285-303 | terminates; of the entries that can be looked up it frees exactly as many as asked for, or leaves the list empty; only entries nobody refers to, children first; with a selected end of the list, only what lies under the selected parent |
| `Dcache.Cache.SelectParent` | fs/dcache.c:404-446 | the unused descendants are exactly what is at the end of the list, in the order of the walk, and are counted; the others keep their order |
| `Dcache.Cache.ShrinkDcacheParent` | fs/dcache.c:452-458 | terminates; afterwards no descendant has count zero; only descendants have been freed |
| `Dcache.Cache.IsRootBusy` | fs/dcache.c:363-395 | true if and only if a childless descendant is in use or there is more than one outside reference to the subtree |
| `BufferState.RemovedInv` | fs/buffer.c:473-483 | a buffer taken off its lists leaves all others in order |
| `BufferState.InsertedInv` | fs/buffer.c:532-570 | a buffer with a block nobody else has can be put on its lists |
| `BufferState.FiledInv` | fs/buffer.c:776-781 | moving a buffer to another list keeps everything |
| `BufferState.GrownInv` | fs/buffer.c:1383-1425 | new free buffers keep everything |
| `BufferState.ReturnedInv` | fs/buffer.c:1460-1476 | so does giving a page back whose buffers are on no list |
| `Rings.UnlinkRing` | fs/buffer.c:443-450 | wiring the neighbours of a node to each other leaves a ring of the others in order, and no other ring notices |
| `Rings.LinkLastRing` | fs/buffer.c:525-528 | wiring a node in before the first makes it the last of the ring |
| `Rings.LinkAfterRing` | fs/buffer.c:1409-1412 | wiring a node in after any other puts it there |
| `Chains.PushChain` | fs/buffer.c:558-567 | a node put in front of a hash chain, with all pointers to pointers right |
| `Chains.PullChain` | fs/buffer.c:423-435 | a node taken out anywhere, by the pointer to the pointer to it |
| `BufferLinks.RemovedLinked` | fs/buffer.c:423-483 | after the rewiring of `remove_from_queues` the pointers make up the lists without the buffer, which has none |
| `BufferLinks.InsertedLinked` | fs/buffer.c:512-570 | after that of `insert_into_queues` they make up the lists with it at the end, and at the front of its chain |
| `BufferLinks.RecentLinked` | fs/buffer.c:485-510 | after that of `put_last_lru` they make up the list with it at the end, also when it was the first |
| `BufferLinks.SpliceStep` | fs/buffer.c:1407-1423 | one turn of the loop in `grow_buffers` puts one more new buffer after those before it |
| `BufferLinks.GrownLinked` | fs/buffer.c:1403-1425 | after the loop the pointers make up the spliced free list |
| `Buffer.TakenInv` | fs/buffer.c:730-744 | a free buffer taken for a block that is not cached |
| `Buffer.TakenServed` | fs/buffer.c:731-744 | a block that was not cached gets the first free buffer of its size, as the last of the clean list, with one user, and not up to date, dirty, locked or protected |
| `Buffer.SharedServed` | fs/buffer.c:720-729 | a cached one keeps its bits and gains one user; it becomes the last of its list if it is clean and up to date, and no list changes otherwise |
| `Buffer.Buffers.RemoveFromQueues` | fs/buffer.c:473-483 | the pointers make up lists in which all other buffers are where they belong, and this one is on none |
| `Buffer.Buffers.InsertIntoQueues` | fs/buffer.c:532-570 | the pointers make up lists in which this buffer, too, is where it belongs: at the end of its list, and at the front of its chain if it has a device |
| `Buffer.Buffers.PutLastLru` | fs/buffer.c:485-510 | the buffer becomes the most recently used of its list |
| `Buffer.Buffers.FindBuffer` | fs/buffer.c:572-588 | following one chain of pointers finds the buffer of that block and size, or none only if there is none in the whole cache |
| `Buffer.Buffers.Getblk` | fs/buffer.c:715-755 | the only buffer of the block, found or made in the state after the last wait, whatever others did while it slept; a buffer that is made has one user and no bit set, one that is found keeps its bits and gains one user; it waits only if the block is not cached and there is no free buffer |
| `Buffer.Buffers.RefileBuffer` | fs/buffer.c:787-820 | on the list that its state asks for |
| `Buffer.Buffers.Brelse` | fs/buffer.c:826-837 | one user less, and never below zero |
| `Buffer.Buffers.Bforget` | fs/buffer.c:844-855 | the block is not cached any more; the count goes down, and wraps if it was zero |
| `Buffer.Buffers.GrowBuffers` | fs/buffer.c:1383-1429 | new free buffers for a proper size, wired into the ring of free ones by the loop; nothing otherwise |
| `Buffer.Buffers.TryToFreeBuffers` | fs/buffer.c:1444-1477 | all buffers of the page, if and only if none is held, dirty, locked or protected; no other buffer changes |
| `SemSpec.ZeroIsSuccess` | ipc/sem.c:222-244 | zero means every operation can be done in turn with all values in 0..32767 |
| `SemSpec.FirstFailure` | ipc/sem.c:222-272 | otherwise the first operation that cannot be done decides: one that would have to wait does, or fails with `EAGAIN`, and one that makes the value too large fails with `ERANGE` |
| `SemRuns.SleepsWhere` | ipc/sem.c:683-689 | a vector that has to wait changes no value; its entry goes last, or first if it only waits for zero |
| `SemRuns.SetValIs` | ipc/sem.c:546-555 | the value is set and nothing is due to that semaphore at anybody's exit, all else as before, when the queue is looked at |
| `SemRuns.SetAllIs` | ipc/sem.c:581-592 | likewise for all of them |
| `SemRuns.SetThenExits` | ipc/sem.c:546-555 | a semaphore that has been set, while nobody sleeps, keeps its value over any exits |
| `SemRuns.NextOk` | ipc/sem.c:604-785 | no call makes a value negative or an adjustment overflow its sixteen bits |
| `SemBalance.DoneBalance` | ipc/sem.c:231-234 | value plus adjustments changes by the operations that are not to be undone, up to sixteen bits |
| `SemBalance.DoneBalanceExact` | ipc/sem.c:233-234 | and exactly so if and only if the adjustment fits in sixteen bits |
| `SemBalance.UpdatedBalance` | ipc/sem.c:277-303 | a pass over the queue conserves it, modulo 65536; and outright if no adjustment is cut |
| `SemBalance.RunBalance` | ipc/sem.c:604-785 | so does every run of operations to be undone, retries, interrupts and exits that do not cut off at zero |
| `SemBalance.AllReturned` | ipc/sem.c:740-787 | when everybody has exited, every semaphore has its old value if no adjustment was cut, and in any case up to a multiple of 65536 |
| `SemWrap.Wraps` | ipc/sem.c:233-234 | a run in which everything is undone, an adjustment is cut, and the semaphore ends at 65536 instead of 0 |
| `SemWakeups.PassAdds` | ipc/sem.c:277-303 | no pass over the queue lowers a value |
| `SemWakeups.PassKeeps` | ipc/sem.c:277-303 | after a pass somebody who could go on is left asleep, with nobody told to retry, if and only if the pass completed an entry that adds, with which somebody could go on whom it had passed over, and then changed nothing more and told nobody |
| `SemWakeups.QuietPass` | ipc/sem.c:277-303 | a pass over entries that take something or change nothing changes no value, and is not like that |
| `SemWakeups.StepKeeps` | ipc/sem.c:604-785 | as long as nobody is forgotten, a step forgets somebody if and only if it is a retry in vain or an exit without anything to undo, of the only process told to retry, while another could go on, or the pass after it overtakes somebody in that way |
| `SemWakeups.PlainStep` | ipc/sem.c:604-785 | as long as no vector waits for zero and adds and takes nothing, only the lost mark can forget somebody |
| `SemWakeups.NobodyLost` | ipc/sem.c:604-785 | over every run without such a step nobody who could go on is left asleep |
| `SemWakeups.NeverLostIff` | ipc/sem.c:604-785 | a run, of whatever calls, after whose every step nobody is forgotten is exactly one without such a step |
| `SemWakeups.CutShort` | ipc/sem.c:703-711 | a run in which a failing retry leaves somebody asleep |
| `SemWakeups.LeavesInstead` | ipc/sem.c:740-787 | a run in which an exit does |
| `SemWakeups.MixedEntry` | ipc/sem.c:291-301 | a run in which a mixed entry does |
| `Sem.SemArray.TryAtomicSemop` | ipc/sem.c:214-272 | all or nothing: values and adjustments after all operations, or exactly as before; the result is that of the first operation that cannot be done |
| `Sem.SemArray.UpdateQueue` | ipc/sem.c:277-303 | the pass over the queue |
| `Sem.SemArray.Semop` | ipc/sem.c:604-698 | which error for a malformed vector; otherwise done, refused or queued |
| `Sem.SemArray.Wake` | ipc/sem.c:693-725 | retry if told to, otherwise give up |
| `Sem.SemArray.Exit` | ipc/sem.c:740-787 | the adjustments are made, cut off at zero, and the queue is looked at |
| `Sem.SemArray.SetVal` | ipc/sem.c:546-555 | one value set and all adjustments to it dropped |
| `Sem.SemArray.SetAll` | ipc/sem.c:581-592 | all values set and all adjustments dropped, or nothing if one is out of range |
| `Vsprintf.DigitsValue` | lib/vsprintf.c:109-113 | reading digits is the inverse of writing them |
| `Vsprintf.DigitBuffer` | lib/vsprintf.c:109-113 | the digits, least significant first |
| `Vsprintf.TextLength` | lib/vsprintf.c:75-140 | the printed length is the width, or sign, prefix and digits if they need more |
| `Vsprintf.Number` | lib/vsprintf.c:75-140 | the text of the long that the argument becomes: sign, prefix, zeros up to the precision, digits, and filling on the right side; fails exactly for bases outside 2..36 |
| `Vsprintf.SimpleStrtoul` | lib/vsprintf.c:17-40 | the value of the longest run of digits, modulo 2^32, and where it ends |
| `Vsprintf.SimpleStrtol` | lib/vsprintf.c:42-47 | the same with an optional minus sign, as a signed number |
| `Vsprintf.WordRoundTrip` | lib/vsprintf.c:17-140 | for every word, every base from 2 to 16, every width, precision and flags, what is printed is read back in that base, up to its end or the blanks there, if and only if no blank or sign comes first and there is no prefix `0x` or `0X` |
| `Vsprintf.LongRoundTrip` | lib/vsprintf.c:42-140 | for every long, the most negative included, likewise, but a minus sign may come first |
| `Vsprintf.PrefixRoundTrip` | lib/vsprintf.c:17-140 | with a prefix, base zero reads it back if and only if no blank or sign comes first and the prefix is not `0X` |
| `Vsprintf.DecimalRoundTrip` | lib/vsprintf.c:17-140 | without prefix, width and precision, base zero reads every positive decimal number back |
| `Vsprintf.PlusText` | lib/vsprintf.c:75-140 | 42 in a width of 5 with plus sign and zeros is +0042 |
| `Vsprintf.LeftText` | lib/vsprintf.c:75-140 | -42 in a width of 5 on the left is -42 and two blanks |
| `Vsprintf.RightText` | lib/vsprintf.c:75-140 | 42 in base 16 and a width of 5 is three blanks and 2a |

## Left out

- `lib/inflate.c`: memory failure (result 3), the gzip header, checksum and trailer; running out of input, which another file reports, is the status `Eof`.
- `lib/inflate.c`: the results 1 and 2 of the block decoders are one status `Bad`; local copies of the bit buffer are the buffer itself; tables are sequences built by value.
- `InflateStream.InflateAll`: says nothing about the output when it fails, because what has been flushed by then is not used.
- `kernel/sched.c`: timer functions are modelled by the calls they make to the timer interface, in a finite script; old-style timers, wait queues, `reschedule_idle`, load average and time keeping are not modelled.
- `kernel/sched.c`: multiprocessor branches; the null checks of `setscheduler` on its arguments.
- `Sched.Scheduler.Fork`: when the idle task forks, its counter and priority are in bounds, as they are at boot; later, as `cpu_idle` sets them, they are not, and it does not fork.
- `fs/locks.c`: the overflow of `fl_end + 1` at the largest offset, since offsets are integers; `ENOLCK`; whole-file `flock` locks beyond their presence in the list; lock daemon hooks; reporting in `/proc`.
- `Locks.LockManager.PosixLockFile`: one request of an owner at a time may wait, as the source assumes of its callers; the owner is one number for the pair of file table and process.
- `fs/dcache.c`: inodes, file system callbacks, mounts, `d_delete`, `d_invalidate`, `select_dcache` and shrinking by super block, which add only easy members or repeat the loops that are modelled.
- `fs/dcache.c`: what is left in the name of a rename's target is any string; hash functions are any functions.
- `fs/buffer.c`: input and output, flushing, `set_blocksize`, buffer heads for paging, and the time of writing back; the ring of the buffers of a page is a sequence; a count of users does not wrap when it goes up.
- `fs/dcache.c`, `fs/locks.c`, `ipc/sem.c`: lists are sequences, so that the rewiring of their pointers is not modelled.
- `Buffer.Buffers.GrowBuffers`: there is a free list for every size. In the source sizes share seven lists, and a size that is no power of two, such as 1536, has the index -1, outside that array; `set_blocksize` refuses such sizes (`fs/buffer.c:635`).
- `Timers.Wheel.AddTimer`, `Vsprintf.Number`: a long has 32 bits, as on i370; `Vsprintf.SimpleStrtoul` likewise.
- `Buffer.Buffers.Getblk`: while it waits the cache may become any cache that is in order, which stands for all that others do.
- `ipc/sem.c`: several sets at once, permissions, removal of a set, the process identifier of the last operation, and times.
- `lib/vsprintf.c`: the interpretation of format strings, and conversions other than of integers.
