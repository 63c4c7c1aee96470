# libc++ runtime algorithms and protocols

A Dafny model of the algorithms in the compiled part of libc++ and of one in the benchmark library it ships, with
proofs of what they promise. `dafny verify dfyconfig.toml` checks everything.

- **The next prime** (`Primes`, `PrimeTables`, `PrimeCertificates`, `LargestPrimes`, `TablePrimes`, `PrimeSearch`): the
  bucket counts of hash tables. The tables are proved complete, trial division by wheel candidates exact, the two
  constants of the overflow check the largest primes of their words, so the result is unconditional, and the largest
  bucket counts that fit an address space are known.
- **The iterator database of debug mode** (`HashTables`, `DebugSpec`, `DebugDb`): two chained hash tables and growable
  arrays on the heap, relinked in place, refine a map from iterators to optional containers, over whole runs of
  operations, with the one reason for a failure.
- **Paths** (`PathTokens`, `PathLaws`, `PathParser`, `PathOperations`): the forward and the backward lexer walk the same
  token list, and parent, filename, comparison and hash are what that list says.
- **Transcoders** (`Unicode`, `UnicodeForms`, `Transcoders`, `TranscoderSteps`, `TranscoderLaws`, `TranscoderStops`,
  `TranscoderPairs`, `TranscoderResume`): the converters between UTF-8, UTF-16, UCS-2 and UCS-4 and
  their length scanners, against RFC 3629 and RFC 2781.
- **Protocols of threads**: step systems with one program counter a thread, one action a critical section (split at each
  wait), condition variables as sleeping threads, notifications after an unlock as actions of their own, and spurious
  wake-ups. `ReaderWriterLock`, `ControlBlock`, `CallOnce`, `FutureState`, `BarrierProtocol` and `RecursiveTimedMutex`
  hold the systems and the theorems over all their runs. The classes in `SharedMutex`, `SharedWeakCount`, `OnceFlags`,
  `AssocSubState`, `BenchmarkBarrier` and `RecursiveTimedMutex` have the fields of the original, words and flags as they
  are stored, with the threads as ghosts: every method is one critical section or atomic operation, keeps the invariant
  of its system, follows an action of it, and says what the calling thread may conclude. `Threads` counts threads.
- **The generalized slice** (`Gslice`): an odometer that fills a closed form.
- **File times** (`FileTime`): seconds and nanoseconds from and to microseconds in 64 bits.

Some things hold only under a condition, and then the condition is exact:

- The reader/writer lock forgets a sleeping reader when the reader count has been at its maximum and two or more readers
  wait behind it, which takes at least two threads more than the maximum (`ReaderWriterLock.NeverStuckExactly`).
- `utf8_to_utf16` compares the lead byte itself with the maximum, so below F4 it fails where `utf8_to_ucs4` asks for more
  input (`TranscoderPairs.RoutesAgreeExactly`), and between 80 and C2 it refuses code points within the maximum
  (`TranscoderPairs.TakesAllTextExactly`).
- The overload of `utf16_to_utf8` for 32-bit units cuts units above FFFF (`TranscoderPairs.WideComesBackExactly`).
- A registration in the database fails exactly when the table is full and no prime bucket count of twice the size and
  more fits the address space, which takes 2^60 entries (`DebugDb.Database.Perform`, `HashTables.HashTable.GrowsUntil`).
- The UCS-4 encoders write values above 10FFFF when the maximum allows them (`TranscoderPairs.EncodersComeBackExactly`).
- `set_times_checked` clamps the fraction below the smallest whole second (`FileTime.RoundTrip`), and the
  `is_representable` on file times adds a second where it should take one off (`FileTime.PromisesExactly`).

Reading the model: integers are unbounded and words are cut explicitly where the code can reach their end. Bytes and code
units are naturals below their bound. Bit operations are written as ranges, division and remainder. In the converters one
function for each gives what a turn of its loop does, and the loop itself is a method proved against their iteration; the
overload of utf8_to_utf16 that writes 32-bit units is the same function of the bytes as the one that writes 16. A
thread of `CallOnce` is one activation, so nested calls are covered as far as safety goes. A condition variable's choice
of a sleeper is a parameter of the action.

## Model

| member | source | states |
|---|---|---|
| PrimeSearch.NextPrime | src/hash.cpp:178-568 | for every n of the word the least prime at or above n, 0 for 0, and the overflow error exactly when no prime from n on fits in the word; the search ends and no step leaves the word |
| PrimeSearch.LastPrimeOfWord | src/hash.cpp:150-176 | the constants of the overflow check are prime, and no larger prime fits in a word of 32 or 64 bits |
| PrimeSearch.SearchSpokes | src/hash.cpp:197-567 | the outer search from the first candidate on skips no prime and stops at the latest at the last prime of the word |
| PrimeSearch.TrialDivision | src/hash.cpp:206-558 | a candidate with no divisor below 11 is accepted exactly when it is prime, although only 11 to 199 and wheel candidates are tried |
| PrimeSearch.TrialBySpokes | src/hash.cpp:217-557 | trial division by wheel candidates alone, from 211 on, decides primality exactly |
| PrimeSearch.OneTurn | src/hash.cpp:217-557 | one unrolled turn of 48 increments either decides primality or has excluded every divisor of a stretch of 210 numbers |
| PrimeSearch.Trial | src/hash.cpp:220-225 | the step written 48 times over: quotient smaller than the divisor means prime, an exact quotient means composite, otherwise one more divisor is excluded |
| PrimeSearch.LowerBound | src/hash.cpp:184-195 | std::lower_bound on a sorted table: everything before the result is smaller than the value, everything from it on is not |
| PrimeSearch.FirstCandidate | src/hash.cpp:193-196 | the index chosen for n - 210 * (n / 210) gives a candidate at or above n, and no prime is skipped |
| PrimeSearch.NextCandidate | src/hash.cpp:559-566 | the next index, or the first index of the next turn of the wheel, skips no prime |
| PrimeTables.SmallPrimesComplete | src/hash.cpp:24-74 | the table holds 0 and exactly the primes up to 211, with no prime between neighbours |
| PrimeTables.WheelComplete | src/hash.cpp:76-129 | the 48 indices are the residues of the wheel modulo 210, the unrolled increments are the distances between them, and no prime above 210 lies between neighbouring spokes |
| PrimeTables.ArcIsFree | src/hash.cpp:131-145 | what lies strictly between two neighbouring spokes is divisible by 2, 3, 5 or 7 in every turn of the wheel |
| PrimeCertificates.Certified | src/hash.cpp:150-176 | a number whose predecessor factors into the given primes and that has an element of full order is prime: how the two constants are proved |
| LargestPrimes.PrimeWord32 | src/hash.cpp:150-158 | 0xFFFFFFFB is prime |
| LargestPrimes.PrimeWord64 | src/hash.cpp:165-173 | 0xFFFFFFFFFFFFFFC5 is prime |
| LargestPrimes.NoneAboveWord32 | src/hash.cpp:150-158 | no number between the 32-bit constant and 2^32 is prime |
| LargestPrimes.NoneAboveWord64 | src/hash.cpp:165-173 | no number between the 64-bit constant and 2^64 is prime |
| TablePrimes.Prime32 | src/debug.cpp:213-218 | 1073741789, the largest bucket count of a table in 32 bits, is prime |
| TablePrimes.Prime64 | src/debug.cpp:213-218 | 2305843009213693951, the largest bucket count of a table in 64 bits, is prime |
| PrimeSearch.BucketCountsEnd | src/debug.cpp:213-218 | an array of prime length n or more fits the address space if and only if n is at most these numbers |
| HashTables.HashTable.Rehash | src/debug.cpp:208-247 | relinking every node in place into a fresh bucket array keeps each node exactly once, in the bucket of its hash, and loses none |
| HashTables.RelinkAll | src/debug.cpp:220-231 | moving all chains over leaves every node once in the chain of its hash modulo the new count |
| HashTables.Push | src/debug.cpp:225-229 | a node put at the head of its bucket is added to that chain and to no other |
| HashTables.HashTable.Reserve | src/debug.cpp:213-235 | afterwards there is room for one more node; a full table gets the least prime from twice its bucket count plus one on as its new count, any other stays as it is; it fails, and then changes nothing, exactly when the table is full and no such prime is the size of an array that fits the address space |
| HashTables.HashTable.GrowsUntil | src/debug.cpp:213-218 | in numbers: a table cannot grow if and only if it is full and twice its bucket count plus one exceeds 2^61 - 1, or 2^30 - 35 in 32 bits, so it holds at least 2^60 or 536870895 nodes then |
| HashTables.HashTable.Insert | src/debug.cpp:551-586 | a new key gets a fresh node at the head of its bucket and all other keys keep theirs; null, without effect, exactly when the table cannot grow |
| HashTables.HashTable.Find | src/debug.cpp:590-606 | walking the bucket of the hash finds the node of a key exactly if the table has one |
| HashTables.HashTable.Search | src/debug.cpp:257-268 | the walk that keeps the previous node finds the node and its predecessor in the chain |
| HashTables.HashTable.Unlink | src/debug.cpp:255-274 | the node of the key leaves its chain and the table, the rest stays as it was, and a missing key changes nothing |
| HashTables.Detach | src/debug.cpp:269-272 | bridging over a node removes exactly that node from exactly its chain |
| DebugDb.Database.Run | src/debug.cpp:184-522 | from any valid database any legal sequence of operations, up to the first that fails, takes the database on the heap through the states of the plain map; none fails while the entries there are and the operations together are at most 2^60, or 536870895 in 32 bits; and no iterator on the heap points to an erased container |
| DebugDb.Replay | src/debug.cpp:135-522 | the same from an empty database, all of whose nodes and arrays are new: every legal sequence of up to 2^60 operations, or 536870895 in 32 bits, is carried out to its end |
| DebugDb.Database.Perform | src/debug.cpp:184-522 | every operation, whatever the layout of the tables, does to the database what it does to the plain map from iterators to optional containers; it fails, without effect, exactly when it has to register something new and the table cannot grow, so EraseI, EraseC, InvalidateAll and Swap never do; whatever it adds to the heap is new, so that another operation can follow |
| DebugDb.Database.HeapWellFormed | src/debug.cpp:367-401 | where the map has no iterator of an erased container, every back pointer on the heap leads to the node that its container's key finds |
| DebugDb.Database.InsertIterator | src/debug.cpp:551-586 | a new node for an iterator that is in no container, with all ties of the others kept; null, without effect, exactly when the table of iterators cannot grow |
| DebugDb.Database.InsertI | src/debug.cpp:516-522 | the iterator is known afterwards and in no container; fails, without effect, exactly when the table of iterators cannot grow |
| DebugDb.Database.InsertC | src/debug.cpp:208-247 | the container is registered with no iterators and no tie changes; fails, without effect, exactly when the table of containers cannot grow |
| DebugDb.Database.InsertIC | src/debug.cpp:185-205 | the iterator is tied to the container, or nothing happens when the container is not registered; fails, without effect, exactly when it is registered and the table of iterators cannot grow |
| DebugDb.Database.Attach | src/debug.cpp:525-545 | back pointer and growing array are changed together: the iterator occurs once at the end of the container's array |
| DebugDb.Add | src/debug.cpp:525-545 | the array holds one more iterator at its end: in place while there is room, otherwise in a fresh array of twice the length, or of length 1 |
| DebugDb.Remove | src/debug.cpp:610-616 | exactly the one occurrence of the iterator is taken out and the others keep their order |
| DebugDb.Database.EraseI | src/debug.cpp:250-280 | the iterator is forgotten and its container's array no longer mentions it |
| DebugDb.Database.InvalidateAll | src/debug.cpp:283-306 | exactly the iterators of the container are left without one |
| DebugDb.Database.EraseC | src/debug.cpp:367-401 | the container is gone, its iterators are in no container, and no back pointer to it remains |
| DebugDb.Database.IteratorCopy | src/debug.cpp:404-429 | the target ends in the container of the source, and an unknown source makes a known target singular; fails, without effect, exactly when a known source meets an unknown target and the table of iterators cannot grow |
| DebugDb.Database.Relocate | src/debug.cpp:414-428 | an iterator leaves one container for another, in both arrays and in its back pointer |
| DebugDb.Database.Swap | src/debug.cpp:485-513 | the iterators of two containers change owners and all others stay, also for a container and itself |
| DebugDb.Database.FindCFromI | src/debug.cpp:174-182 | the container of a known iterator as the map has it |
| DebugDb.Database.LessThanComparable | src/debug.cpp:472-482 | true exactly when both iterators are known and in the same container |
| DebugDb.Database.constructor | src/debug.cpp:135-143 | an empty database, in which nothing is tied |
| DebugDb.TiedRelease | src/debug.cpp:610-616 | after one occurrence leaves the array and the back pointer is cleared, arrays and back pointers agree again |
| DebugDb.TiedSwap | src/debug.cpp:485-513 | exchanging two arrays and repointing their iterators keeps arrays and back pointers in agreement |
| DebugDb.TiedClear | src/debug.cpp:367-401 | clearing the back pointers of a container's iterators allows its array to be emptied or dropped |
| DebugSpec.RunWellFormed | src/debug.cpp:184-522 | after any part of a legal run no iterator belongs to a container that is not registered; carried to the heap by Database.Run |
| DebugSpec.RunGrows | src/debug.cpp:184-522 | a run adds at most one iterator and one container an operation |
| DebugSpec.ApplyOneMore | src/debug.cpp:184-522 | one more operation of a run is legal where the run has got to and leads on from there: the step by which Database.Run follows the map |
| PathParser.Parser.Increment | src/experimental/filesystem/path.cpp:64-109 | the forward lexer moves to the next token of the path's token list, in state and in raw entry, and stays at the end |
| PathParser.Parser.Decrement | src/experimental/filesystem/path.cpp:111-154 | the backward lexer moves to the previous token of the same list, in state and in raw entry, from every position but the first |
| PathParser.Parser.Advance | src/experimental/filesystem/path.cpp:64-109 | every state and every next character lead to the one token that may follow |
| PathParser.Parser.Retreat | src/experimental/filesystem/path.cpp:111-154 | from every token the scan backwards recovers the one that led to it |
| PathParser.Parser.RetreatFromEnd | src/experimental/filesystem/path.cpp:115-135 | from the end: root directory, trailing separator, root name and file name are told apart |
| PathParser.Parser.RetreatFromName | src/experimental/filesystem/path.cpp:138-147 | from a file name: the separators before it belong to a root directory or to a file name or root name before them |
| PathParser.Parser.ConsumeSeparator | src/experimental/filesystem/path.cpp:240-248 | the end of the run of separators, forwards or backwards, or nothing if there is none |
| PathParser.Parser.ConsumeName | src/experimental/filesystem/path.cpp:250-258 | the end of the run of other characters, forwards or backwards, or nothing if there is none |
| PathParser.Parser.CreateBegin | src/experimental/filesystem/path.cpp:47-51 | stands at the first token, or at the end of an empty path |
| PathParser.Parser.CreateEnd | src/experimental/filesystem/path.cpp:53-57 | stands behind the last token |
| PathOperations.StepForwardAndBack | src/experimental/filesystem/path.cpp:64-154 | decrement undoes increment at every token reached from the start |
| PathOperations.ForwardElements | src/experimental/filesystem/path.cpp:64-109 | walking forwards lists the elements of the path |
| PathOperations.BackwardElements | src/experimental/filesystem/path.cpp:111-154 | walking back from the end lists exactly the same elements in reverse |
| PathLaws.TokensOrdered | src/experimental/filesystem/path.cpp:64-109 | tokens lie one behind the other and do not overlap |
| PathLaws.NameIsCovered | src/experimental/filesystem/path.cpp:64-109 | every character that is not a separator lies in a token, so only separators lie between tokens |
| PathLaws.LinkUnique | src/experimental/filesystem/path.cpp:64-109 | at most one token may follow a token |
| PathLaws.ChainIsTokens | src/experimental/filesystem/path.cpp:64-109 | a list of well-placed tokens that follow one another from the start to the end of the path is the token list |
| PathLaws.ParentTokens | src/experimental/filesystem/path.cpp:350-359 | what is cut off by parent_path and read anew has all tokens and elements of the path but the last |
| PathOperations.ParentPath | src/experimental/filesystem/path.cpp:350-359 | a prefix of the path whose elements, read anew, are all elements but the last, and which does not end within a run of separators; empty for fewer than two elements |
| PathOperations.Filename | src/experimental/filesystem/path.cpp:361-366 | the last element, or nothing of an empty path; in characters: what follows the last separator, "." behind trailing separators, "/" of a root directory with or without a root name, and the whole of a path that is a root name |
| PathOperations.LastElement | src/experimental/filesystem/path.cpp:361-366 | the last token, by its state, has that spelling |
| PathOperations.ParentThenFilename | src/experimental/filesystem/path.cpp:350-366 | the elements of a path of two or more are those of its parent followed by its filename |
| PathOperations.Compare | src/experimental/filesystem/path.cpp:380-393 | negative exactly when the elements of the path come before those of the other as in a dictionary: as a proper prefix, or by the first element in which they differ, and that by its first differing character; zero exactly for equal elements, positive exactly the other way round |
| PathOperations.CompareTextIsBefore | src/experimental/filesystem/path.cpp:384 | string_view::compare is negative exactly for a proper prefix or a smaller character at the first difference |
| PathOperations.CompareListsIsBefore | src/experimental/filesystem/path.cpp:380-393 | the same of lists of elements |
| PathOperations.CompareListsLaws | src/experimental/filesystem/path.cpp:380-393 | zero exactly for equal lists, and opposite in sign the other way round |
| PathOperations.CompareListsTransitive | src/experimental/filesystem/path.cpp:380-393 | the order is transitive, and strictly so if either step is strict |
| PathOperations.CompareTextLaws | src/experimental/filesystem/path.cpp:380-393 | the same of the order of two elements |
| PathOperations.HashValue | src/experimental/filesystem/path.cpp:397-406 | from 0, which is the hash of the empty path, the hash of each element in order is combined with what there is so far |
| PathOperations.EqualPathsHashAlike | src/experimental/filesystem/path.cpp:380-406 | paths that compare equal have the same hash |
| Transcoders.Convert | src/locale.cpp:1735-3106 | the loop writes into the buffer exactly what the step-by-step conversion says, reports the same result and positions, and leaves the rest of the buffer alone; with room enough the result is partial exactly when what is left is shorter than the form its first unit announces, so everything else that stops it is an error; without room for a header it is partial and nothing is read or written |
| Transcoders.DriveAsksForMore | src/locale.cpp:1735-3106 | for every converter, input and maximum, in terms of the units left: lead bytes C2 to DF, E0 to EF and F0 to F4 (not for UCS-2) announce 2, 3 and 4 bytes, a high surrogate a second unit (not for UCS-2); the three converters that compare the first unit with a small maximum refuse it at once |
| TranscoderStops.ShortExactly | src/locale.cpp:1735-3106 | one turn in a buffer of any size asks for more exactly for an unfinished form, for a code point whose form in the target does not fit, or, decoding, for no room at all |
| TranscoderStops.PartialExactly | src/locale.cpp:1735-3106 | so does the whole conversion with what it has left; surrogate pairs are compared with the maximum only after the room |
| Transcoders.Length | src/locale.cpp:2131-3106 | every length scanner returns the number of bytes that its decoder reads into a buffer of mx units, for every input, maximum and header mode |
| Transcoders.ScanMatchesStep | src/locale.cpp:2131-3106 | a scanner goes on exactly where its decoder does, over as many bytes and for as many units, and stops where it stops or fails |
| TranscoderSteps.StepSound | src/locale.cpp:1735-3106 | a turn of any converter carries one code point within the limit from its source encoding to its target encoding: no overlong form, surrogate or larger value is taken |
| TranscoderSteps.StepComplete | src/locale.cpp:1735-3106 | every code point within the limit is carried once there is room for it, and reported as partial before |
| UnicodeForms.Decoded8 | src/locale.cpp:2232-2399 | the tests of the UTF-8 decoders hold exactly of the one UTF-8 form of a code point (section 3 of RFC 3629) |
| UnicodeForms.Encoded8 | src/locale.cpp:2232-2285 | the UTF-8 form of every code point passes those tests and decodes to it |
| UnicodeForms.PairBytes | src/locale.cpp:1777-1795 | the four bytes that utf16_to_utf8 makes of a surrogate pair are the UTF-8 form of its code point |
| UnicodeForms.BytesPair | src/locale.cpp:1961-2001 | the pair that utf8_to_utf16 makes of four bytes is the UTF-16 form of their code point (section 2.1 of RFC 2781) |
| TranscoderLaws.Sound | src/locale.cpp:1735-3106 | whatever a conversion has read is text, and what it has written is that text in the other encoding, whether it ended, ran out of room or failed |
| TranscoderLaws.Complete | src/locale.cpp:1735-3106 | text within the limit is converted as far as it goes and the conversion goes on with what follows |
| TranscoderLaws.AcceptsExactlyText | src/locale.cpp:1735-3106 | with room enough the result is ok exactly for text within the limit |
| TranscoderLaws.ReadsLongestText | src/locale.cpp:1735-3106 | a conversion that fails stops behind the longest prefix that is text |
| TranscoderLaws.RoundTrip | src/locale.cpp:1735-3106 | the opposite converter gives back exactly what was read: UTF-8 and UCS-4, UTF-8 and UTF-16, UTF-16 bytes and UCS-4, and the UCS-2 forms, both ways (sections 3 and 4 of RFC 3629, 2.1 and 2.2 of RFC 2781) |
| TranscoderLaws.Inverses | src/locale.cpp:1735-3106 | which converters undo each other, and up to which maximum |
| TranscoderPairs.DirectRoute | src/locale.cpp:1889-2008 | utf8_to_utf16 on any bytes stops where utf8_to_ucs4 does, with the same result, having written the same code points in UTF-16 |
| TranscoderPairs.RoutesAgreeExactly | src/locale.cpp:1889-2399 | the two routes agree on all byte strings if and only if the maximum is at least F4, since utf8_to_utf16 also compares the lead byte with it |
| TranscoderPairs.TakesAllTextExactly | src/locale.cpp:1899-1910 | utf8_to_utf16 takes all text within the maximum if and only if the maximum is below 80 or at least C3 |
| TranscoderPairs.EncodersComeBackExactly | src/locale.cpp:2232-2285 | the encoders from UCS-4 are undone by their decoders on all input if and only if the maximum is at most 10FFFF; above it 110000 is written and cannot be read back |
| TranscoderPairs.HeaderCancels | src/locale.cpp:2232-2399 | a generated header is consumed again and the text comes back |
| TranscoderPairs.ConsumesFirstMark | src/locale.cpp:2287-2399 | without a generated header a consuming decoder returns the text, less a mark FEFF that the text itself begins with |
| TranscoderPairs.SwappedEncoders | src/locale.cpp:2695-2867 | the little-endian encoders write the bytes of the big-endian ones with each pair exchanged |
| TranscoderPairs.SwappedDecoders | src/locale.cpp:2740-2915 | the decoders of the two byte orders read exchanged bytes alike, up to a last odd byte |
| TranscoderPairs.WideIsCut | src/locale.cpp:1812-1886 | the overload for 32-bit units converts the lower 16 bits of its units |
| TranscoderPairs.WideComesBackExactly | src/locale.cpp:1812-1886 | it never refuses units above FFFF, so all its text comes back through utf8_to_utf16 if and only if the units are at most FFFF; 10000 is written as a zero byte |
| TranscoderResume.TurnIsLocal | src/locale.cpp:1735-3106 | a turn depends only on the units it reads and the room it fills, and an error stays an error with more of both |
| TranscoderResume.PrefixConverts | src/locale.cpp:1735-3106 | at every stop the consumed prefix on its own converts exactly to the written prefix, without room to spare |
| TranscoderResume.CallAndRest | src/locale.cpp:1735-3106 | a call on part of the input in part of the room, and one on what it left, make the one-shot conversion |
| TranscoderResume.PiecesMakeWhole | src/locale.cpp:1735-3106 | any sequence of calls that restart at frm_nxt does what one call with everything does, up to the first error |
| TranscoderResume.PiecesThatEnd | src/locale.cpp:1735-3106 | calls that have read everything have produced the one-shot text |
| ReaderWriterLock.Exclusion | src/shared_mutex.cpp:26-102 | in every interleaving an owner excludes all other owners, the reader count is the number of shared holders, and the writer bit is set exactly while one thread drains or owns |
| ReaderWriterLock.StepInv | src/shared_mutex.cpp:26-102 | every critical section, notification and spurious wake-up keeps the counts, and lets nobody sleep at the second gate without a reader |
| ReaderWriterLock.StepRemembers | src/shared_mutex.cpp:59-102 | with at most one thread more than the maximum count, nobody sleeps at the first gate but behind a writer or a full count |
| ReaderWriterLock.NotStuck | src/shared_mutex.cpp:26-102 | so whenever somebody sleeps, somebody holds the lock or is on the way to it |
| ReaderWriterLock.LostWakeUp | src/shared_mutex.cpp:85-102 | with two threads more, a run ends with a free lock and a reader asleep: behind a full count only the first departure notifies, and only one sleeper |
| ReaderWriterLock.NeverStuckExactly | src/shared_mutex.cpp:59-102 | no run leaves sleepers at a free lock if and only if at most one thread more than the maximum count uses it |
| ReaderWriterLock.UnfilledRemembers | src/shared_mutex.cpp:59-102 | with any number of threads, a run that never fills the count leaves nobody asleep at the first gate but behind the writer bit |
| ReaderWriterLock.SleepersExplained | src/shared_mutex.cpp:26-102 | in such a run a sleeper at the first gate has the writer bit before it, a sleeper at the second a reader, and the lock is never stuck |
| SharedMutex.SharedMutexBase.EnterWriteSection | src/shared_mutex.cpp:26-35 | lock, to its next wait or its end: true exactly when the thread then owns the lock, alone, and false only with the writer bit set, so it has claimed the lock or waits behind a writer |
| SharedMutex.SharedMutexBase.DrainSection | src/shared_mutex.cpp:33-35 | a writer woken at the second gate owns the lock alone, or some thread still holds it shared |
| SharedMutex.SharedMutexBase.TryLockSection | src/shared_mutex.cpp:37-47 | succeeds exactly on a word of 0, and then the thread owns the lock, alone; otherwise nothing has changed |
| SharedMutex.SharedMutexBase.UnlockSection | src/shared_mutex.cpp:49-55 | afterwards nobody holds the lock in either way and nobody sleeps at the first gate |
| SharedMutex.SharedMutexBase.EnterReadSection | src/shared_mutex.cpp:59-68 | lock_shared, to its wait or its end: true exactly when the thread then shares the lock with no owner; false, with the word as it was, only behind the writer bit or a full count |
| SharedMutex.SharedMutexBase.TryLockSharedSection | src/shared_mutex.cpp:70-83 | succeeds exactly without the writer bit and below a full count, and then the thread shares the lock with no owner; otherwise nothing has changed |
| SharedMutex.SharedMutexBase.UnlockSharedSection | src/shared_mutex.cpp:85-102 | the second gate is notified exactly when a writer waits and no reader is left, and then nobody sleeps there; the first exactly when a full count has room again |
| ControlBlock.StepInv | src/memory.cpp:38-124 | every atomic step keeps both counts equal to the pointers that are owned, less one, and each release in progress accounted for |
| ControlBlock.ObjectLifetime | src/memory.cpp:38-124 | in every interleaving the object is destroyed at most once, lives while a shared pointer is owned, and is never revived |
| ControlBlock.BlockLifetime | src/memory.cpp:38-124 | the block is freed at most once, after the object, and after that no thread can take any step on it |
| ControlBlock.NothingLeaks | src/memory.cpp:38-124 | when all pointers are gone and no call is in progress, object and block have been ended exactly once |
| ControlBlock.LockOutcome | src/memory.cpp:112-124 | lock's loop gives a pointer only to a live object, and null only once no shared pointer is left, which stays so; while the count is the one last seen it gives a pointer, so a turn is repeated only because the count has changed |
| ControlBlock.LockSucceeds | src/memory.cpp:112-124 | in every run a thread that begins to lock gets its pointer in the next turn when the others leave the count as it was and one of them owns a shared pointer |
| ControlBlock.StepRefines | src/memory.cpp:77-110 | the load that finds 0 stands for the decrement it saves: every step is a step of the always-decrementing block or none |
| ControlBlock.RunRefines | src/memory.cpp:77-110 | every run is a run of the block that always decrements, with the same destruction and the same freeing |
| SharedWeakCount.Block.AddShared | src/memory.cpp:39-43 | the copy of an owned shared pointer never revives: the object has not been destroyed nor the block freed, and the thread owns exactly one more |
| SharedWeakCount.Block.AddWeak | src/memory.cpp:62-66 | the block has not been freed where a pointer of either kind is copied to a weak one, and the thread owns exactly one more of these |
| SharedWeakCount.Block.ReleaseShared | src/memory.cpp:45-54 | true exactly when no thread owns a shared pointer any more, and exactly the thread that gets true goes on to destroy an object not destroyed before |
| SharedWeakCount.Block.OnZeroShared | src/memory.cpp:48-51 | the object is destroyed for the first and only time, with no shared owner left |
| SharedWeakCount.Block.LoadWeakOwners | src/memory.cpp:101-107 | a thread reads 0, and goes on to free without a decrement, exactly if it is alone with the block: no pointer of any kind and no call in progress besides its own |
| SharedWeakCount.Block.DecrementWeakOwners | src/memory.cpp:108-109 | the same of the thread whose decrement reaches -1 |
| SharedWeakCount.Block.OnZeroSharedWeak | src/memory.cpp:103-109 | the block is freed for the first and only time, after the object, and no action is enabled afterwards |
| SharedWeakCount.Block.LoadSharedOwners | src/memory.cpp:115 | the count that is read is the one the first turn starts from, and the block has not been freed while a weak pointer is being locked |
| SharedWeakCount.Block.LockTurn | src/memory.cpp:112-124 | a turn ends in a pointer to an object not destroyed whenever the count is the one last seen, in null only when no thread owns a shared pointer, and is repeated only with the different count it found |
| CallOnce.RunsAlone | src/mutex.cpp:225-254 | over any threads and flags at most one thread runs the function of a flag, and only if it has not returned before |
| CallOnce.ReturnsAfterCompletion | src/mutex.cpp:225-254 | a normal return means that the function has returned, exactly once |
| CallOnce.DoneForGood | src/mutex.cpp:225-254 | after a normal completion the flag never changes and the function is never started again |
| CallOnce.NoSleeperForgotten | src/mutex.cpp:225-254 | behind every sleeper stands a thread that runs the function it waits for or one that is about to broadcast, also after exceptions |
| CallOnce.StepInv | src/mutex.cpp:225-254 | every critical section, broadcast and spurious wake-up keeps this |
| OnceFlags.Flags.TestSection | src/mutex.cpp:225-235 | a thread waits exactly when another one is in the function; one that calls is alone in it and it has never completed; one that returns finds it completed exactly once. The flag is the word 0, 1 or ~0 |
| OnceFlags.Flags.CompleteSection | src/mutex.cpp:237-239 | the completion is the first and only one, and nobody is in the function any more |
| OnceFlags.Flags.ThrowSection | src/mutex.cpp:243-247 | after an exception the function has not completed and nobody is in it |
| OnceFlags.Flags.BroadcastAndLeave | src/mutex.cpp:240-249 | right after the broadcast nobody sleeps on any flag, and a thread that leaves normally leaves a function completed exactly once |
| FutureState.OneOutcome | src/future.cpp:91-179 | in every run of a promise or a deferred call exactly one setter wins, ready means that there is an outcome, and a deferred call starts at most once |
| FutureState.OutcomeStays | src/future.cpp:91-146 | an outcome never changes and ready is never taken back |
| FutureState.FirstOfferWins | src/future.cpp:91-138 | along every run the state holds a value or an exception exactly as the first setter, deferred call or broken promise of the run offered it, and nothing before one |
| FutureState.PendingOutcome | src/thread.cpp:167-194 | an outcome that is not ready is in the exit list of exactly one thread, once, and that thread has not exited |
| FutureState.NobodySleepsForever | src/future.cpp:159-179 | when the promise is gone, the registered threads have exited and no deferred call is running, no waiter sleeps |
| FutureState.StepInv | src/future.cpp:91-232 | every setter, wait, destructor and exit step keeps this |
| AssocSubState.SubState.SetSection | src/future.cpp:91-126 | set_value and set_exception: an exception is thrown, and nothing changes, exactly if there was an outcome; otherwise the outcome is a value or an exception as asked for, the only one ever stored, the state is ready and nobody sleeps |
| AssocSubState.SubState.SetAtExitSection | src/future.cpp:103-138 | thrown, with the state as it was, exactly if there was an outcome; otherwise a value or an exception as asked for is stored, is not ready, and is kept once, in the exit list of this thread and of no other |
| AssocSubState.SubState.AttachFuture | src/future.cpp:189-198 | refused exactly when a future had been attached before; a future that was not refused shares the state with another owner, as a promise that breaks expects |
| AssocSubState.SubState.DestroyPromiseStep | src/future.cpp:220-232 | the promise goes on to break exactly when there is no outcome and some thread holds a future that would miss it |
| AssocSubState.SubState.BreakSection | src/future.cpp:225-230 | the broken promise is the first and only outcome, an exception, is ready at once, and nobody sleeps |
| AssocSubState.SubState.WaitSection | src/future.cpp:164-179 | a thread goes on exactly when the state is ready, and then there is an outcome; one that runs the deferred function starts it for the first time and alone, before any outcome |
| AssocSubState.SubState.RetestSection | src/future.cpp:176-177 | a woken waiter goes on exactly when the state is ready, and otherwise sleeps again |
| AssocSubState.SubState.FinishSection | src/future.cpp:169-174 | the end of the deferred function stores the first and only outcome, a value or an exception as the function gave it, ready at once, and nobody sleeps |
| AssocSubState.SubState.MakeReady | src/thread.cpp:175-180 | an entry of the exit list makes the stored outcome ready as it is, nobody sleeps, and no thread keeps an entry any more |
| BarrierProtocol.CheckHolds | utils/google-benchmark/src/mutex.h:132-134 | the check at the entry never fails in any reachable state |
| BarrierProtocol.ClosesWhenAllEntered | utils/google-benchmark/src/mutex.h:132-150 | a phase is closed, by one, only when every thread not removed waits in it or closes it |
| BarrierProtocol.OneTruePerPhase | utils/google-benchmark/src/mutex.h:104-150 | exactly one wait per closed phase returns true |
| BarrierProtocol.NobodyBlockedForever | utils/google-benchmark/src/mutex.h:104-150 | a blocked thread has another one outside or already woken to wait for; once all running threads have entered, one is on its way to close the phase |
| BarrierProtocol.StepInv | utils/google-benchmark/src/mutex.h:104-150 | every entry, recheck, notification, removal and spurious wake-up keeps this |
| BenchmarkBarrier.Barrier.EnterSection | utils/google-benchmark/src/mutex.h:132-149 | the check at the start holds; a thread that closes the phase does so as the last of all threads not removed, by one; one that blocks remembers the phase that is going on |
| BenchmarkBarrier.Barrier.RecheckSection | utils/google-benchmark/src/mutex.h:138-149 | a woken thread leaves without closing exactly when its phase is over, closes it only when all threads not removed are in it, and otherwise blocks again while some are missing |
| BenchmarkBarrier.Barrier.NotifySection | utils/google-benchmark/src/mutex.h:110-111 | after the last thread's notification nobody is blocked |
| BenchmarkBarrier.Barrier.RemoveThread | utils/google-benchmark/src/mutex.h:114-118 | with one thread less the number entered never exceeds the number running, and when that makes them equal nobody stays blocked in the phase |
| RecursiveTimedMutex.OwnsAlone | src/mutex.cpp:132-187 | in every interleaving one thread at most holds the mutex, as often as the count says, never beyond the maximum, and no sleeper is left behind at a free mutex |
| RecursiveTimedMutex.StepInv | src/mutex.cpp:132-187 | every section, notification and spurious wake-up keeps this |
| RecursiveTimedMutex.Mutex.LockSection | src/mutex.cpp:143-159 | the thread has the mutex, alone and once more than before, or throws exactly when it has it max times, or sleeps exactly when another one has it |
| RecursiveTimedMutex.Mutex.RetestSection | src/mutex.cpp:155-158 | a woken thread has the mutex, alone and once, or sleeps again exactly when another one has it |
| RecursiveTimedMutex.Mutex.TryLockSection | src/mutex.cpp:161-175 | success means owning it alone, once more than before; it fails, without effect, exactly when the inner mutex is busy, the thread has it max times or another one has it |
| RecursiveTimedMutex.Mutex.UnlockSection | src/mutex.cpp:177-187 | a notification is owed exactly when no thread has the mutex any more; otherwise its owner still has it, alone |
| Gslice.Slice.Init | src/valarray.cpp:18-52 | the result has as many slots as the product of the sizes, none for no sizes, and slot k is the start plus the strides times the row-major digits of k |
| Gslice.Slice.Fill | src/valarray.cpp:26-51 | the odometer ends with every slot filled with its closed form |
| Gslice.Slice.NextSlot | src/valarray.cpp:37-41 | one stride more and back by what the later digits had added gives the next closed form, and never goes below zero |
| Gslice.NextNumber | src/valarray.cpp:33-49 | the digits after a carry are those of the next number |
| Gslice.CarryCounts | src/valarray.cpp:33-49 | a carry into digit i counts up by one |
| Gslice.DigitsOfNumber | src/valarray.cpp:18-52 | the digits used in the closed form are within the sizes and stand for k |
| Gslice.NumberOfDigits | src/valarray.cpp:18-52 | no other digits stand for k |
| Gslice.SomePositions | src/valarray.cpp:21-26 | the result is empty exactly when some size is zero |
| FileTime.LimitsFit | src/experimental/filesystem/filesystem_time_helper.h:32-55 | the four limits are those of a 64-bit count of microseconds |
| FileTime.RepresentableExactly | src/experimental/filesystem/filesystem_time_helper.h:104-113 | a time is accepted if and only if it lies between the smallest and the largest file time |
| FileTime.ConvertsClosely | src/experimental/filesystem/filesystem_time_helper.h:128-143 | an accepted time becomes a 64-bit file time less than a microsecond away, exactly if it is whole microseconds |
| FileTime.RoundsTowards | src/experimental/filesystem/filesystem_time_helper.h:128-143 | a time from 0 on is never rounded up, a negative one never down unless its fraction is less than a microsecond, which is dropped |
| FileTime.ConvertsInOrder | src/experimental/filesystem/filesystem_time_helper.h:128-143 | a later time never becomes an earlier file time |
| FileTime.SetTimesChecked | src/experimental/filesystem/filesystem_time_helper.h:145-163 | succeeds exactly when both parts fit the types they are stored in, and stores them in that order |
| FileTime.CheckedSet | src/experimental/filesystem/filesystem_time_helper.h:95-102 | stores a value exactly when it fits |
| FileTime.SplitExactly | src/experimental/filesystem/filesystem_time_helper.h:145-163 | the part of a second is not negative and below a second, both parts make up the time if and only if the fraction is not clamped, and a clamped one is the smallest whole second |
| FileTime.RoundTrip | src/experimental/filesystem/filesystem_time_helper.h:128-163 | set with nanoseconds and converted back, a file time is the same if and only if it is not a negative fraction below the smallest whole second; either way the times set are representable |
| FileTime.PromisesExactly | src/experimental/filesystem/filesystem_time_helper.h:115-126 | the test on file times agrees with what can be set except for fractions in the last two seconds below the smallest, where it counts up instead of down |

## Left out

- DebugDb.Database.InsertI: an allocation fails in the model only for a bucket array beyond the address space; running out of memory for an array or a node is left out.
- HashTables.HashTable.Insert: the hash of an address is a parameter, and the mutex of the database is not modelled.
- PathOperations.Compare: gives the sign of the result; the original returns the value of the first differing comparison. Characters are compared as unsigned bytes.
- PathOperations.HashValue: the string hash and the way two hashes are combined are parameters.
- Transcoders.Length: the result is unbounded; the original casts it to int.
- ReaderWriterLock.Exclusion: the timed variants in include/shared_mutex, which may give up while they wait, are not actions of the model.
- RecursiveTimedMutex.OwnsAlone: try_lock_until in include/mutex is not an action of the model.
- FutureState.NobodySleepsForever: the value itself, the deletion of the state and std::async threads are not modelled; a state's count of owners is, since the promise's destructor reads it.
- ControlBlock.StepInv: counts are unbounded, and the compare-and-exchange does not fail without a reason.
- CallOnce.RunsAlone: a function that calls call_once on its own flag waits for itself; the model says nothing of such waits.
- BarrierProtocol.CheckHolds: a thread is removed only outside of wait, as the benchmark runner does it; the phase number is unbounded.
- Gslice.Slice.Init: sizes, strides and positions are unbounded, where size_t wraps around.
- FileTime.RoundTrip: file times of a floating-point representation are not modelled.
- Memory order: atomic operations and critical sections are sequentially consistent steps.
- notify_all_at_thread_exit, timed_mutex, recursive_mutex and the thread primitives themselves.
- shared_ptr's other members, the pointer-safety stubs and std::align.
- The iterator checks of the database that only call back into a container.
- The path decompositions other than parent and filename, and path iterators.
- The do_in, do_out and do_length wrappers, which only cast pointers, and everything over the C locale.
- Directory walking, file operations, streams, chrono, random, string conversions and error categories: operating-system and C-library plumbing.
- Benchmark statistics and reporters.
