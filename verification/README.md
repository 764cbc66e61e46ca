# Verification of a block store and its libraries

A Dafny model of the stateful parts of a content-addressed block store written in Go: its write cache, key
transforms, bloom filters and provide worker, and the libraries it is built from: SHA-3, trees of processes and of
contexts, the LRU cache, base58, Hamming distances, version 1 UUIDs and the coalescing datastore.

| files | what they model |
|---|---|
| Keccak, Sponge, LaneIO, Digest | the unrolled in-place Keccak permutation and the buffered sponge, against FIPS 202 |
| Process, ProcessSafety, ProcessProgress, ProcessShutdown, ProcessCalls, RateLimit | goprocess as a machine of atomic steps: lock regions, channel operations, goroutines; and the rate limiter on top of it |
| Context | cancellation and deadlines in the tree of contexts |
| Lru, WriteCache | the LRU cache, and the block store with and without it |
| Base58, Hamming, Uuid | codecs and arithmetic, with machine widths written out |
| Coalesce | the coalescing datastore as a machine of atomic steps |
| Bloom | Jenkins' hash, the filter, programs over filters that share a hash, block sets |
| Keys | datastore keys, the base58 converter, namespaces |
| Worker | the de-duplicating queue and the client loop |
| Arith, Common | division facts, optional values, subsequences and reversal |

Objects that the source updates in place are classes whose methods are proved against functions on values
(`LruSpec`, `WriteCacheSpec`, `ContextSpec`, `SpongeSpec`, `BloomSpec`, `WorkerSpec`); the lemmas are about those
functions, over all inputs and all runs. Concurrent code is a state machine, and its theorems are about every
interleaving. Clock readings, the outcomes of a select, the answers of a child datastore, teardown errors and the
scheduler are parameters.

Where the code does less than one would expect, the model follows the code and the exact condition is proved:

- Over any set of block keys the write cache is invisible if and only if no two of them share a datastore key
  (`TransparentIffApart`). The keys that survive the datastore are such a set (`DsKeySafe`), all keys are not
  (`DsKeyShared`): with keys that do share one, an acknowledged Put may store nothing (`LostWrite`).
- A clone of a sponge that was read from is faithful exactly at rate 168, so for SHAKE128 and not for SHAKE256
  (`Clone`, `CloneGoesOnIff`, `CloneAndRead`).
- The two xor back ends agree only on the block sizes in use (`BackEndsAgree`).
- Bloom filters fail for sizes that are multiples of 2^29 bytes and for no others (`WidthZero`).
- Version 1 UUIDs can collide after 2^14 clock readings that do not advance (`CollisionCondition`, `Repeats`): the variant
  bits replace two bits of the clock sequence.
- A namespace's Query tests string prefixes (`AncestorIff`, `QueryFaithfulIff`, `QueryStray`), and its Invert panics on
  the root (`InvertUndoesConvert`).
- Coalesced Put calls return no error, also when the child's Put failed (`Answers`, `PutErrorLost`), although they are
  documented to give the exact same result.
- Closing does not finish exactly for processes in a set of open ones each of which waits for another or is never told
  to close (`ShutdownIff`); WaitFor allows that (`WaitForever`).
- The client loop loses blocks exactly when its debug ticker fires, or it closes, with a block in hand
  (`DiscardsNothingIff`), and it keeps the order of arrival exactly as long as no block comes in while one is offered
  with others behind it (`LineKeptIff`, `OrderKept`, `Overtaken`).

## Model

| member | source | states |
|---|---|---|
| `Fips202.ThetaAt` | Godeps/_workspace/src/golang.org/x/crypto/sha3/keccakf.go:47-56 | theta by planes xors into each lane its two neighbouring column parities, as section 3.2.1 of FIPS 202 says |
| `Fips202.WalkCovers` | Godeps/_workspace/src/golang.org/x/crypto/sha3/keccakf.go:58-130 | the walk of Algorithm 2 of FIPS 202 visits every lane but (0, 0), so RhoAt and RhoOrigin fix every rotation |
| `Fips202.RhoAt` | Godeps/_workspace/src/golang.org/x/crypto/sha3/keccakf.go:58-130 | the rotation amounts are (t + 1)(t + 2) / 2 along that walk |
| `Fips202.RhoOrigin` | Godeps/_workspace/src/golang.org/x/crypto/sha3/keccakf.go:58-58 | lane (0, 0), which the walk leaves out, does not turn |
| `Fips202.PiAt` | Godeps/_workspace/src/golang.org/x/crypto/sha3/keccakf.go:58-130 | lane (x, y) after pi is lane (x + 3y, x) before |
| `Fips202.ChiAt` | Godeps/_workspace/src/golang.org/x/crypto/sha3/keccakf.go:67-71 | chi combines each lane with the next two of its row; ChiBits says how, bit by bit |
| `Fips202.RotlBit` | Godeps/_workspace/src/golang.org/x/crypto/sha3/keccakf.go:52-66 | bit z of a lane turned by n is bit (z - n) mod 64 of the lane |
| `Fips202.ThetaBits` | Godeps/_workspace/src/golang.org/x/crypto/sha3/keccakf.go:47-56 | theta on bits, section 3.2.1: each bit is xored with the parities of the columns (x - 1, z) and (x + 1, z - 1) |
| `Fips202.RhoBits` | Godeps/_workspace/src/golang.org/x/crypto/sha3/keccakf.go:58-130 | rho on bits, section 3.2.2: bit z of lane t of the walk comes from bit z - (t + 1)(t + 2) / 2 mod 64 |
| `Fips202.ChiBits` | Godeps/_workspace/src/golang.org/x/crypto/sha3/keccakf.go:67-71 | chi on bits, section 3.2.4: each bit is flipped exactly when the next bit of its row is zero and the one after that is one |
| `Fips202.IotaBits` | Godeps/_workspace/src/golang.org/x/crypto/sha3/keccakf.go:67-67 | iota on bits, section 3.2.5: the bits of the constant flip those of lane (0, 0) and nothing else changes |
| `Keccakf.RoundConstants` | Godeps/_workspace/src/golang.org/x/crypto/sha3/keccakf.go:8-33 | each of the 24 constants of the table is what the shift register of Algorithm 5 of FIPS 202 generates |
| `Keccakf.SlotFormula` | Godeps/_workspace/src/golang.org/x/crypto/sha3/keccakf.go:47-409 | where each lane lives between the four unrolled rounds: row p*x + q*y with (p, q) = (1, 2), (3, 4), (2, 3), then home |
| `Keccakf.RoundStepRefines` | Godeps/_workspace/src/golang.org/x/crypto/sha3/keccakf.go:47-409 | an unrolled in-place round, on words in the layout the round before left, is one round of the standard in the next layout |
| `Keccakf.UnrolledRound` | Godeps/_workspace/src/golang.org/x/crypto/sha3/keccakf.go:47-136 | the array code of one unrolled round does that round |
| `Keccakf.KeccakF1600` | Godeps/_workspace/src/golang.org/x/crypto/sha3/keccakf.go:37-410 | the loop of six times four unrolled rounds over the array is Keccak-f[1600], 24 rounds of the standard |
| `StateString.LanesOfBytes` | Godeps/_workspace/src/golang.org/x/crypto/sha3/sha3.go:23-48 | the 25 words and the 200 bytes of the state determine each other; LaneOrder and StateOrder fix the order |
| `StateString.LaneOrder` | Godeps/_workspace/src/golang.org/x/crypto/sha3/xor_generic.go:15-27 | bit j of byte k of a lane is bit 8k + j of the lane: the lowest byte comes first |
| `SpongeSpec.StateOrder` | Godeps/_workspace/src/golang.org/x/crypto/sha3/sha3.go:23-48 | section 3.1.2 of FIPS 202: bit 64(5y + x) + z of the state string is bit z of lane (x, y), word x + 5y of the array |
| `StateString.XorLanesIsXorBlock` | Godeps/_workspace/src/golang.org/x/crypto/sha3/xor_generic.go:12-20 | xoring little-endian words is xoring the bytes of the block |
| `SpongeSpec.PaddingIsPad101` | Godeps/_workspace/src/golang.org/x/crypto/sha3/sha3.go:99-122 | the padding bytes, read as bits, are the domain bits and then pad10*1, and fill whole blocks, also when only one byte is free |
| `SpongeSpec.Buffered` | Godeps/_workspace/src/golang.org/x/crypto/sha3/sha3.go:143-148 | buffering bytes keeps what the sponge stands for: the message so far |
| `SpongeSpec.Flushed` | Godeps/_workspace/src/golang.org/x/crypto/sha3/sha3.go:84-88 | absorbing a full buffer keeps it |
| `SpongeSpec.Turned` | Godeps/_workspace/src/golang.org/x/crypto/sha3/sha3.go:99-122 | after padding, the sponge stands at the start of its output |
| `SpongeSpec.Taken` | Godeps/_workspace/src/golang.org/x/crypto/sha3/sha3.go:171-173 | taking part of a block advances the output by those bytes |
| `SpongeSpec.Drained` | Godeps/_workspace/src/golang.org/x/crypto/sha3/sha3.go:171-178 | taking the rest of a block and permuting advances it to the next block |
| `SpongeSpec.ReadOn` | Godeps/_workspace/src/golang.org/x/crypto/sha3/sha3.go:161-182 | reading within a block and to its end keeps the bytes read a prefix of the output |
| `SpongeSpec.ReadBack` | Godeps/_workspace/src/golang.org/x/crypto/sha3/sha3.go:67-76 | standing some bytes back in a block is standing earlier in the same output |
| `LaneIO.XorInGeneric` | Godeps/_workspace/src/golang.org/x/crypto/sha3/xor_generic.go:12-20 | xors all whole words of the buffer |
| `LaneIO.CopyOutGeneric` | Godeps/_workspace/src/golang.org/x/crypto/sha3/xor_generic.go:23-28 | writes all whole words and nothing else |
| `LaneIO.XorInUnaligned` | Godeps/_workspace/src/golang.org/x/crypto/sha3/xor_unaligned.go:12-46 | xors the words that the ladder of length tests selects |
| `LaneIO.CopyOutUnaligned` | Godeps/_workspace/src/golang.org/x/crypto/sha3/xor_unaligned.go:48-51 | copies up to 168 bytes of the state |
| `LaneIO.BackEndsAgree` | Godeps/_workspace/src/golang.org/x/crypto/sha3/xor_unaligned.go:12-46 | for buffers that are not empty, on which the unaligned form panics, the two back ends xor the same words into every state exactly when there are 0, 9, 13, 17, 18 or 21 whole words, as for the rates in use |
| `Digests.Digest.constructor` | Godeps/_workspace/src/golang.org/x/crypto/sha3/hashes.go:18-33 | a new sponge stands for the empty message |
| `Digests.Digest.Reset` | Godeps/_workspace/src/golang.org/x/crypto/sha3/sha3.go:58-65 | a reset sponge stands for the empty message |
| `Digests.Digest.Permutes` | Godeps/_workspace/src/golang.org/x/crypto/sha3/sha3.go:80-95 | permute in either direction |
| `Digests.Digest.PadAndPermute` | Godeps/_workspace/src/golang.org/x/crypto/sha3/sha3.go:99-122 | turns the sponge to squeezing without losing a byte of the message |
| `Digests.Digest.AbsorbBlock` | Godeps/_workspace/src/golang.org/x/crypto/sha3/sha3.go:136-140 | the fast path of Write extends the message by a block |
| `Digests.Digest.BufferInput` | Godeps/_workspace/src/golang.org/x/crypto/sha3/sha3.go:141-154 | the slow path extends it by what fits, and absorbs a full buffer |
| `Digests.Digest.Write` | Godeps/_workspace/src/golang.org/x/crypto/sha3/sha3.go:126-158 | the message grows by what is written, however it is cut up, on the buffered and on the whole-block path |
| `Digests.Digest.Read` | Godeps/_workspace/src/golang.org/x/crypto/sha3/sha3.go:161-182 | all bytes read so far are a prefix of the standard sponge output for the message, whatever the sizes of the reads |
| `Digests.Digest.ReadChunk` | Godeps/_workspace/src/golang.org/x/crypto/sha3/sha3.go:171-178 | one round of Read: the bytes copied continue the output, and the block is renewed when used up |
| `Digests.Digest.Clone` | Godeps/_workspace/src/golang.org/x/crypto/sha3/sha3.go:67-76 | a copy with storage of its own that stands for the same message; of a sponge already read from, it stands 168 - rate bytes back in the output, or panics when the current block has not yielded that many, so it is faithful exactly at rate 168 |
| `Digests.CloneGoesOnIff` | Godeps/_workspace/src/golang.org/x/crypto/sha3/sha3.go:67-76 | such a clone reads on like the original, whatever the state, exactly when the rate is 168 |
| `Digests.Digest.Sum` | Godeps/_workspace/src/golang.org/x/crypto/sha3/sha3.go:186-193 | appends the digest of what was written so far and changes nothing; of a sponge that was read from it appends what the clone reads, or panics with it |
| `Digests.CloneAndRead` | Godeps/_workspace/src/golang.org/x/crypto/sha3/shake.go:34-46 | a clone after reading n bytes goes on after them with SHAKE128; with SHAKE256 it goes on 32 bytes before, or panics, exactly if n modulo 136 is below 32 |
| `Digests.SumFixed` | Godeps/_workspace/src/golang.org/x/crypto/sha3/hashes.go:36-65 | the four fixed-length digests are the standard sponge with their rates and domain byte |
| `Digests.ShakeSum` | Godeps/_workspace/src/golang.org/x/crypto/sha3/shake.go:49-60 | SHAKE128 and SHAKE256 fill any buffer with the standard sponge output |
| `ProcessSafety.NextKeeps` | Godeps/_workspace/src/github.com/jbenet/goprocess/impl-mutex.go:39-242 | every action of every interleaving keeps the invariant of processes, links, threads and the log of teardowns |
| `ProcessSafety.RunKeepsInv` | Godeps/_workspace/src/github.com/jbenet/goprocess/impl-mutex.go:39-242 | so does every run |
| `ProcessSafety.TeardownOrder` | Godeps/_workspace/src/github.com/jbenet/goprocess/impl-mutex.go:155-194 | when a process is closed, everything it waits for along any path of links is closed and was torn down before it |
| `ProcessSafety.TeardownBetweenSignals` | Godeps/_workspace/src/github.com/jbenet/goprocess/impl-mutex.go:155-194 | a teardown runs only between the closing and the closed signal of its process |
| `ProcessSafety.OneTeardown` | Godeps/_workspace/src/github.com/jbenet/goprocess/impl-mutex.go:129-144 | a process is torn down at most once, a closed one exactly once, and every Close that returned did so after it was closed and gave that teardown error |
| `ProcessSafety.FunctionReturnsFirst` | Godeps/_workspace/src/github.com/jbenet/goprocess/impl-mutex.go:101-115 | a process made by Go closes only after its function has returned |
| `ProcessSafety.NoPanic` | Godeps/_workspace/src/github.com/jbenet/goprocess/link.go:96-121 | AddToChild never meets a cleared child |
| `ProcessProgress.SomeThreadMoves` | Godeps/_workspace/src/github.com/jbenet/goprocess/impl-mutex.go:155-242 | with no cycle of waits, and everyone a process waits for told to close or sure to be, some thread can move while that process is to close and open |
| `ProcessProgress.ThreadStepFalls` | Godeps/_workspace/src/github.com/jbenet/goprocess/impl-mutex.go:155-242 | every thread step lowers a lexicographic measure |
| `ProcessShutdown.NextDuties` | Godeps/_workspace/src/github.com/jbenet/goprocess/impl-mutex.go:155-242 | every action keeps that a child not yet told to close is still on the list of its parent, and that CloseAfterChildren has passed closed children only |
| `ProcessShutdown.TrapStays` | Godeps/_workspace/src/github.com/jbenet/goprocess/impl-mutex.go:155-242 | a set of open processes, each never told to close or waiting for another of the set, stays one in every thread step |
| `ProcessShutdown.TrapWas` | Godeps/_workspace/src/github.com/jbenet/goprocess/impl-mutex.go:155-242 | and was one before every thread step |
| `ProcessShutdown.QuietTrap` | Godeps/_workspace/src/github.com/jbenet/goprocess/impl-mutex.go:155-242 | when no thread can move, the processes still open are such a set |
| `ProcessShutdown.ShutdownIff` | Godeps/_workspace/src/github.com/jbenet/goprocess/impl-mutex.go:39-242 | from every reachable state, under every scheduler that does not idle, the threads close a process exactly when it is in no such set |
| `ProcessShutdown.ShutdownCompletes` | Godeps/_workspace/src/github.com/jbenet/goprocess/impl-mutex.go:155-242 | so they do if it is asked to close, everyone it waits for is or will be asked too, and no waits form a cycle |
| `ProcessShutdown.CloseCompletes` | Godeps/_workspace/src/github.com/jbenet/goprocess/impl-mutex.go:129-194 | in particular after a call of Close |
| `ProcessShutdown.WaitForever` | Godeps/_workspace/src/github.com/jbenet/goprocess/impl-mutex.go:39-56 | a run after which a process is asked to close and never is, because it waits for one that nobody closes |
| `ProcessCalls.WaitedForIsTornDownFirst` | Godeps/_workspace/src/github.com/jbenet/goprocess/impl-mutex.go:39-99 | in every run: whatever AddChild or WaitFor made an open process wait for is closed, and torn down before it, when that process is closed |
| `ProcessCalls.ChildOfGo` | Godeps/_workspace/src/github.com/jbenet/goprocess/impl-mutex.go:101-115 | so is the child of Go, which is closed only after its function has returned |
| `ProcessCalls.WhoWaits` | Godeps/_workspace/src/github.com/jbenet/goprocess/impl-mutex.go:39-115 | exactly which calls make whom wait: WaitFor and AddChild one more, Go two, AddChildNoWait and the others none |
| `ProcessCalls.WhoIsTold` | Godeps/_workspace/src/github.com/jbenet/goprocess/impl-mutex.go:58-144 | exactly which calls tell whom to close: Close its process, AddChild, AddChildNoWait and Go the child of a process that is closing already, CloseAfterChildren nobody yet |
| `ProcessCalls.ChildrenAreTold` | Godeps/_workspace/src/github.com/jbenet/goprocess/impl-mutex.go:58-194 | in every run: once a process is closed all its children have been told to close, also those it does not wait for |
| `ProcessCalls.CloseAfterChildrenWaits` | Godeps/_workspace/src/github.com/jbenet/goprocess/impl-mutex.go:199-242 | CloseAfterChildren goes on to close a process only when everyone that process waits for is closed |
| `ProcessCalls.ToCloseIff` | Godeps/_workspace/src/github.com/jbenet/goprocess/impl-mutex.go:129-242 | under every scheduler that does not idle, a process with a Close or CloseAfterChildren call under way finishes closing exactly if everyone it waits for does |
| `ProcessCalls.CallFinishesIff` | Godeps/_workspace/src/github.com/jbenet/goprocess/impl-mutex.go:129-242 | in particular right after the call |
| `RateLimit.LimitChan` | Godeps/_workspace/src/github.com/jbenet/goprocess/ratelimit/ratelimit.go:62-68 | the channel starts with as many tokens as the limit |
| `RateLimit.MoveKeeps` | Godeps/_workspace/src/github.com/jbenet/goprocess/ratelimit/ratelimit.go:45-56 | every move of the limiter, interleaved with every process action, keeps the accounting of tokens |
| `RateLimit.Conservation` | Godeps/_workspace/src/github.com/jbenet/goprocess/ratelimit/ratelimit.go:45-68 | tokens free, taken and held by children not yet released sum to the limit; at most that many functions run; returning a token never blocks |
| `ContextSpec.ApplyValid` | Godeps/_workspace/src/golang.org/x/net/context/context.go:211-406 | every call keeps the tree well formed: each open canceler is registered with just the nearest canceler above it, and cancelled ones keep no children |
| `ContextSpec.RunValid` | Godeps/_workspace/src/golang.org/x/net/context/context.go:211-406 | so does every run, and contexts keep their kind and parent |
| `ContextSpec.CancellationReaches` | Godeps/_workspace/src/golang.org/x/net/context/context.go:319-340 | after any run, whatever was derived from a cancelled context is cancelled |
| `ContextSpec.FirstErrorStays` | Godeps/_workspace/src/golang.org/x/net/context/context.go:319-340 | a reported error is never replaced |
| `ContextSpec.CancelExactly` | Godeps/_workspace/src/golang.org/x/net/context/context.go:319-340 | a cancel call gives its error to exactly the open contexts derived from its own |
| `ContextSpec.DeadlinesTighten` | Godeps/_workspace/src/golang.org/x/net/context/context.go:351-374 | no context has a later deadline than one it was derived from |
| `ContextClients.CancelContext` | Godeps/_workspace/src/golang.org/x/net/context/context.go:211-215 | a WithCancel context has the error, deadline and values of its parent, so it is born cancelled if that is |
| `ContextClients.ValueContext` | Godeps/_workspace/src/golang.org/x/net/context/context.go:427-447 | a WithValue context differs from its parent in the value of one key |
| `ContextClients.DeadlineContext` | Godeps/_workspace/src/golang.org/x/net/context/context.go:351-374 | a WithDeadline context has the sooner of two deadlines; the error of its parent, or DeadlineExceeded at once when its own deadline has passed; and otherwise, if the deadline is its own, a timer that can fire |
| `ContextClients.OthersKeepTheirView` | Godeps/_workspace/src/golang.org/x/net/context/context.go:211-447 | no call changes deadlines or values of contexts that are there, and only cancelling changes an error |
| `ContextClients.CancelSeen` | Godeps/_workspace/src/golang.org/x/net/context/context.go:211-215 | a CancelFunc gives Canceled, and a timer DeadlineExceeded, to exactly the open contexts derived from its own |
| `ContextClients.ApplyArmed` | Godeps/_workspace/src/golang.org/x/net/context/context.go:351-406 | every call keeps that an open context with a deadline of its own has its timer set |
| `ContextClients.DeadlineCanFire` | Godeps/_workspace/src/golang.org/x/net/context/context.go:366-374 | after any run, an open context that reports a deadline is under a timer set for just that deadline, and when the timer fires its error is DeadlineExceeded |
| `Contexts.Package.ParentCancelCtx` | Godeps/_workspace/src/golang.org/x/net/context/context.go:256-269 | the walk over value contexts finds the nearest canceler |
| `Contexts.Package.RemoveFromParent` | Godeps/_workspace/src/golang.org/x/net/context/context.go:272-282 | unregisters a child from that canceler |
| `Contexts.Package.CancelCtx` | Godeps/_workspace/src/golang.org/x/net/context/context.go:319-340 | the recursive cancel is the cancelling of the whole subtree, with first error kept |
| `Contexts.Package.CancelChildren` | Godeps/_workspace/src/golang.org/x/net/context/context.go:331-335 | the loop over the children, in any order |
| `Contexts.Package.Cancel` | Godeps/_workspace/src/golang.org/x/net/context/context.go:394-406 | cancel of either kind, stopping the timer |
| `Contexts.Package.PropagateCancel` | Godeps/_workspace/src/golang.org/x/net/context/context.go:226-251 | registers a new context, or cancels it when its ancestor is cancelled already |
| `Contexts.Package.WithCancel` | Godeps/_workspace/src/golang.org/x/net/context/context.go:211-215 | the new context, as the tree specification derives it |
| `Contexts.Package.WithValue` | Godeps/_workspace/src/golang.org/x/net/context/context.go:427-429 | likewise for a value context |
| `Contexts.Package.DeadlineOf` | Godeps/_workspace/src/golang.org/x/net/context/context.go:386-388 | the deadline of the first timer at or above a context |
| `Contexts.Package.ValueFor` | Godeps/_workspace/src/golang.org/x/net/context/context.go:442-447 | the value of the first context above that has the key |
| `Contexts.Package.ErrOf` | Godeps/_workspace/src/golang.org/x/net/context/context.go:307-311 | the error of the canceler that a context stands under |
| `Contexts.Package.WithDeadline` | Godeps/_workspace/src/golang.org/x/net/context/context.go:351-374 | the tree of the specification, in which a sooner deadline of the parent stays, a deadline that has passed cancels at once, and otherwise a timer is set; DeadlineContext says what clients see |
| `Contexts.Package.CancelFunc` | Godeps/_workspace/src/golang.org/x/net/context/context.go:211-215 | the returned function cancels with Canceled |
| `Contexts.Package.AfterFunc` | Godeps/_workspace/src/golang.org/x/net/context/context.go:369-371 | the timer cancels with DeadlineExceeded |
| `LruSpec.ApplyIncluded` | Godeps/_workspace/src/github.com/hashicorp/golang-lru/lru.go:48-97 | one operation on a smaller and a larger cache keeps the first a subsequence of the second |
| `LruSpec.Inclusion` | Godeps/_workspace/src/github.com/hashicorp/golang-lru/lru.go:48-97 | after the same operations every hit in the smaller cache is the same hit in the larger |
| `LruSpec.AddLookup` | Godeps/_workspace/src/github.com/hashicorp/golang-lru/lru.go:48-68 | the key just added has its value, and every other keeps its own, except that a new key drops the last of a full list |
| `LruSpec.TouchLookup` | Godeps/_workspace/src/github.com/hashicorp/golang-lru/lru.go:71-80 | Get changes no lookup and moves a found key to the front |
| `LruSpec.WithoutLookup` | Godeps/_workspace/src/github.com/hashicorp/golang-lru/lru.go:83-90 | Remove takes away one key and no other |
| `LruSpec.HasLastGiven` | Godeps/_workspace/src/github.com/hashicorp/golang-lru/lru.go:48-97 | after any run a key that is found has the value it was last given |
| `LruSpec.RecencyLaw` | Godeps/_workspace/src/github.com/hashicorp/golang-lru/lru.go:48-80 | after any run of Add and Get on a cache of size n a key is found exactly if fewer than n different keys were used since its last use |
| `Lru.Cache.New` | Godeps/_workspace/src/github.com/hashicorp/golang-lru/lru.go:27-37 | refuses sizes that are not positive |
| `Lru.Cache.Purge` | Godeps/_workspace/src/github.com/hashicorp/golang-lru/lru.go:40-45 | empties the cache |
| `Lru.Cache.Add` | Godeps/_workspace/src/github.com/hashicorp/golang-lru/lru.go:48-68 | the list and map together are the recency list: the key moves to the front with the new value, and the oldest is evicted only past the size; AddLookup and RecencyLaw say what is then found |
| `Lru.Cache.Get` | Godeps/_workspace/src/github.com/hashicorp/golang-lru/lru.go:71-80 | gives the last value and moves the key to the front |
| `Lru.Cache.Remove` | Godeps/_workspace/src/github.com/hashicorp/golang-lru/lru.go:83-90 | removes the key and keeps the order |
| `Lru.Cache.RemoveOldest` | Godeps/_workspace/src/github.com/hashicorp/golang-lru/lru.go:93-97 | removes the last of the list |
| `Lru.Cache.RemoveElement` | Godeps/_workspace/src/github.com/hashicorp/golang-lru/lru.go:123-127 | list and map lose the same element |
| `WriteCacheSpec.TransparentIffApart` | blockstore/write_cache.go:25-51 | for any set of block keys: every run over them is answered and stored alike with and without the cache exactly when no two of them share a datastore key |
| `WriteCacheSpec.RunApart` | blockstore/write_cache.go:25-51 | a run is answered and stored alike when no two keys occurring in it share a datastore key |
| `WriteCacheSpec.RepliesAgree` | blockstore/blockstore.go:49-99 | Has says whether Get finds the block, Put succeeds, and DeleteBlock fails if there is none |
| `WriteCacheSpec.GotAfter` | blockstore/blockstore.go:49-99 | after Put of an absent block Get gives its data, after DeleteBlock nothing; a stored block is not overwritten, and other datastore keys are not touched |
| `WriteCacheSpec.PutIsGot` | blockstore/write_cache.go:25-51 | through the cache too, in every run whose keys do not share datastore keys: a block that was put and not deleted since is got |
| `WriteCacheSpec.LostWrite` | blockstore/write_cache.go:45-51 | for two keys that share a datastore key, a run after which a Put is acknowledged and nothing is stored |
| `Blockstores.RunBoth` | blockstore/write_cache.go:25-51 | so it is for the two objects, given the same calls |
| `Blockstores.WriteCache.Put` | blockstore/write_cache.go:45-51 | a cached key skips the write |
| `Blockstores.WriteCache.Has` | blockstore/write_cache.go:30-35 | a cached key answers at once |
| `Blockstores.WriteCache.Get` | blockstore/write_cache.go:37-39 | asks the store |
| `Blockstores.WriteCache.DeleteBlock` | blockstore/write_cache.go:25-28 | forgets the key and deletes the block |
| `Numerals.TranscodeRoundTrip` | Godeps/_workspace/src/github.com/jbenet/go-base58/base58.go:31-90 | changing the base of a numeral and keeping its leading zeros loses nothing |
| `Base58.DecodeEncode` | Godeps/_workspace/src/github.com/jbenet/go-base58/base58.go:64-90 | decoding an encoding gives the bytes back, leading zero bytes included |
| `Base58.EncodeDecode` | Godeps/_workspace/src/github.com/jbenet/go-base58/base58.go:31-61 | encoding a decoding gives the string back if it is over the alphabet; otherwise the decoding is empty |
| `Base58.DecodeAlphabet` | Godeps/_workspace/src/github.com/jbenet/go-base58/base58.go:31-61 | the loops over the string compute Decode |
| `Base58.EncodeAlphabet` | Godeps/_workspace/src/github.com/jbenet/go-base58/base58.go:64-90 | the division loop and the reversal compute Encode |
| `Base58.BtcAlphabet` | Godeps/_workspace/src/github.com/jbenet/go-base58/base58.go:14-14 | the default alphabet has 58 different characters |
| `Bits.DistanceMetric` | Godeps/_workspace/src/github.com/steakknife/hamming/hamming.go:45-47 | the Hamming distance is a metric |
| `Hamming.CountBitsUint64` | Godeps/_workspace/src/github.com/steakknife/hamming/hamming.go:72-77 | the mask, shift and multiply form counts the set bits of every 64-bit word |
| `Hamming.TableCounts` | Godeps/_workspace/src/github.com/steakknife/hamming/hamming.go:87-89 | every entry of the table is the number of set bits of its index |
| `Hamming.Uint64` | Godeps/_workspace/src/github.com/steakknife/hamming/hamming.go:45-47 | the number of differing bits of two words |
| `Hamming.Bytes` | Godeps/_workspace/src/github.com/steakknife/hamming/hamming.go:64-70 | the sum of the distances of corresponding bytes |
| `Hamming.Uint64s` | Godeps/_workspace/src/github.com/steakknife/hamming/hamming.go:50-56 | the sum of the distances of corresponding words |
| `Hamming.PackedDistance` | Godeps/_workspace/src/github.com/steakknife/hamming/hamming.go:50-70 | comparing packed words gives the same as comparing their bytes |
| `Hamming.TotalMetric` | Godeps/_workspace/src/github.com/steakknife/hamming/hamming.go:50-70 | the distance of buffers of one length is a metric |
| `Uuid.VersionByte` | Godeps/_workspace/src/github.com/satori/go.uuid/uuid.go:196-198 | the version nibble is set and the low nibble kept |
| `Uuid.VariantByte` | Godeps/_workspace/src/github.com/satori/go.uuid/uuid.go:201-203 | the variant bits are set and the low six bits kept |
| `Uuid.TimeRecovered` | Godeps/_workspace/src/github.com/satori/go.uuid/uuid.go:317-333 | the bytes carry the time modulo 2^60 |
| `Uuid.ClockRecovered` | Godeps/_workspace/src/github.com/satori/go.uuid/uuid.go:317-333 | the bytes carry the low 14 bits of the clock sequence |
| `Uuid.HardwareRecovered` | Godeps/_workspace/src/github.com/satori/go.uuid/uuid.go:317-333 | the last six bytes are the hardware address |
| `Uuid.LayoutCollides` | Godeps/_workspace/src/github.com/satori/go.uuid/uuid.go:317-333 | two UUIDs are equal exactly when time modulo 2^60, clock sequence modulo 2^14 and hardware address are |
| `Uuid.Generator.GetStorage` | Godeps/_workspace/src/github.com/satori/go.uuid/uuid.go:301-314 | the clock sequence advances, modulo 2^16, exactly when the clock did not |
| `Uuid.Generator.NewV1` | Godeps/_workspace/src/github.com/satori/go.uuid/uuid.go:317-333 | the sixteen bytes of the layout |
| `Uuid.Generate` | Godeps/_workspace/src/github.com/satori/go.uuid/uuid.go:301-333 | the generator, called repeatedly, gives the UUIDs of the run |
| `Uuid.CollisionCondition` | Godeps/_workspace/src/github.com/satori/go.uuid/uuid.go:301-333 | two UUIDs of a run are equal exactly when their clock readings are equal modulo 2^60 and the readings in between that did not advance are a multiple of 2^14 in number |
| `Uuid.AllDistinct` | Godeps/_workspace/src/github.com/satori/go.uuid/uuid.go:301-333 | with readings below 2^60 and fewer than 2^14 that do not advance, all UUIDs of a run differ |
| `Uuid.Repeats` | Godeps/_workspace/src/github.com/satori/go.uuid/uuid.go:301-333 | a clock that stands still repeats a UUID after 2^14 calls |
| `Coalesce.NextKeeps` | Godeps/_workspace/src/github.com/jbenet/go-datastore/coalesce/coalesce.go:47-120 | every step of every interleaving keeps the invariant of the request map, the shared results and the requests |
| `Coalesce.SingleFlight` | Godeps/_workspace/src/github.com/jbenet/go-datastore/coalesce/coalesce.go:47-76 | no two child calls with the same operation, key and value are under way at once |
| `Coalesce.NoPanic` | Godeps/_workspace/src/github.com/jbenet/go-datastore/coalesce/coalesce.go:64-109 | neither the panic of syncDone, nor a second close, nor a failed type assertion in Has happens |
| `Coalesce.StoresOnce` | Godeps/_workspace/src/github.com/jbenet/go-datastore/coalesce/coalesce.go:78-120 | one child call per shared result |
| `Coalesce.ClosesOnceAfterStore` | Godeps/_workspace/src/github.com/jbenet/go-datastore/coalesce/coalesce.go:64-76 | each channel is closed at most once, after the result was stored |
| `Coalesce.Answers` | Godeps/_workspace/src/github.com/jbenet/go-datastore/coalesce/coalesce.go:78-120 | leader and followers of Get, Has and Delete return the answer of one child call for the same request; Put returns no error whatever the child answered, so the answer of the child exactly when that is no error |
| `Coalesce.PutErrorLost` | Godeps/_workspace/src/github.com/jbenet/go-datastore/coalesce/coalesce.go:79-87 | a run in which the child fails a Put and the caller is told nothing |
| `Coalesce.SomeRequestMoves` | Godeps/_workspace/src/github.com/jbenet/go-datastore/coalesce/coalesce.go:47-76 | while a request is unanswered, some request can take a step |
| `Coalesce.WorkBounds` | Godeps/_workspace/src/github.com/jbenet/go-datastore/coalesce/coalesce.go:47-120 | without new requests a run takes at most as many steps as there is work at its start |
| `Jenkins.Hash.Write` | Godeps/_workspace/src/github.com/mtchavez/jenkins/jenkins.go:12-27 | the state after a write, from the state before |
| `Jenkins.MixedMeans` | Godeps/_workspace/src/github.com/mtchavez/jenkins/jenkins.go:15-19 | one byte, in arithmetic modulo 2^32: add it, multiply by 2^10 + 1, xor with the 64th part |
| `Jenkins.FinishedMeans` | Godeps/_workspace/src/github.com/mtchavez/jenkins/jenkins.go:21-23 | the end, in arithmetic modulo 2^32: multiply by 2^3 + 1, xor with the 2048th part, multiply by 2^15 + 1 |
| `Jenkins.AppleHash` | Godeps/_workspace/src/github.com/mtchavez/jenkins/jenkins_test.go:79-82 | the value that the package expects for "Apple" |
| `BloomSpec.LittleEndianMeans` | bloom/filter.go:54-54 | the bytes written back are the digits of the hash in base 256, lowest first |
| `BloomSpec.WidthIs` | bloom/filter.go:52-52 | the modulus is eight times the size, modulo 2^32 |
| `BloomSpec.WidthZero` | bloom/filter.go:50-53 | the 32-bit modulus is zero, so that Add and Find divide by zero, exactly for sizes that are multiples of 2^29, and is eight times the size below that |
| `BloomSpec.BytesDetermined` | bloom/filter.go:38-42 | the bytes of a filter depend only on the set of its items |
| `BloomSpec.AddedRepresents` | bloom/filter.go:38-42 | adding an item adds it to the set |
| `BloomSpec.MergeRepresents` | bloom/filter.go:80-104 | merging is the union of the sets |
| `BloomSpec.DistanceCountsPositions` | bloom/filter.go:106-124 | the sum of the byte distances is the number of differing positions |
| `Bloom.Filter.constructor` | bloom/filter.go:20-26 | a new filter represents the empty set |
| `Bloom.Filter.GetBitIndicies` | bloom/filter.go:44-61 | the positions of the item, with the hash back at its initial state |
| `Bloom.Filter.SetBit` | bloom/filter.go:72-74 | that bit is set and every other is as before |
| `Bloom.Filter.GetBit` | bloom/filter.go:76-78 | tells one bit |
| `Bloom.Filter.Add` | bloom/filter.go:38-42 | sets exactly the positions of the item |
| `Bloom.Filter.Find` | bloom/filter.go:63-70 | yes exactly when all positions of the item are set |
| `Bloom.Filter.Merge` | bloom/filter.go:80-104 | refuses other lengths and other k; otherwise new bytes, byte by byte or-ed, and the shared hash |
| `Bloom.Filter.HammingDistance` | bloom/filter.go:106-124 | the number of bit positions in which the filters differ |
| `Bloom.FindAnswers` | bloom/filter.go:63-70 | yes for every item of the set, and otherwise exactly when its positions are covered |
| `Bloom.Pool.Apply` | bloom/filter.go:38-104 | an operation on one of many filters that may share hashes leaves every filter with its own set of items |
| `Bloom.RunProgram` | bloom/filter.go:20-104 | so does every program of creations, additions and merges |
| `Bloom.BlockSet.GetBloomFilter` | set/set.go:50-56 | the filter represents the set, in whatever order the keys come |
| `Keys.NewKeyCleans` | Godeps/_workspace/src/github.com/jbenet/go-datastore/key.go:37-51 | NewKey gives clean keys and changes exactly the others, so it is idempotent |
| `Keys.NewKeyLaws` | Godeps/_workspace/src/github.com/jbenet/go-datastore/key.go:37-51 | what the last component does, for every string: a name is appended, nothing and one dot are ignored, two dots take back the name before and stop at the root |
| `Keys.Less` | Godeps/_workspace/src/github.com/jbenet/go-datastore/key.go:69-88 | the loop is the lexicographic order of the components |
| `Keys.LessIsTotalOrder` | Godeps/_workspace/src/github.com/jbenet/go-datastore/key.go:69-88 | a strict total order on clean keys |
| `Keys.ListLessMeans` | Godeps/_workspace/src/github.com/jbenet/go-datastore/key.go:69-88 | a proper prefix is less, and otherwise the first differing component decides |
| `Keys.StringLessMeans` | Godeps/_workspace/src/github.com/jbenet/go-datastore/key.go:78-82 | likewise for the bytes of a component |
| `Keys.Reverse` | Godeps/_workspace/src/github.com/jbenet/go-datastore/key.go:100-107 | the loop turns the components around |
| `Keys.ReverseInvolution` | Godeps/_workspace/src/github.com/jbenet/go-datastore/key.go:100-107 | reversing twice gives a clean key back |
| `Keys.DsKeyRoundTrip` | key/key.go:45-79 | a block key survives the datastore key exactly when a slash before it makes a clean path |
| `Keys.DsKeySafe` | key/key.go:45-79 | over the block keys that come back from the datastore the write cache cannot be noticed |
| `Keys.DsKeyShared` | key/key.go:45-48 | over two block keys that share a datastore key it can |
| `Keys.ConvertKey` | key/key.go:90-96 | encodes the components one by one |
| `Keys.InvertKey` | key/key.go:101-107 | decodes the components one by one |
| `Keys.InvertConvert` | key/key.go:90-107 | on clean keys the second undoes the first |
| `Keys.ConvertNames` | Godeps/_workspace/src/github.com/jbenet/go-datastore/key.go:167-169 | a child of a clean key has its names and then the names of the other |
| `Keys.InvertUndoesConvert` | Godeps/_workspace/src/github.com/jbenet/go-datastore/namespace/namespace.go:17-36 | the namespace Invert undoes Convert for every clean key but the root, where it panics |
| `Keys.AncestorIff` | Godeps/_workspace/src/github.com/jbenet/go-datastore/key.go:181-186 | IsAncestorOf means "below" exactly for keys that meet the prefix at the end of a name, and exactly then Convert undoes Invert |
| `Keys.Query` | Godeps/_workspace/src/github.com/jbenet/go-datastore/namespace/namespace.go:66-79 | the loop filters and renames the results and passes failures on |
| `Keys.QueryExact` | Godeps/_workspace/src/github.com/jbenet/go-datastore/namespace/namespace.go:66-79 | if all raw keys meet the prefix only at the end of a name, the query gives exactly the keys stored through the namespace |
| `Keys.QueryFaithfulIff` | Godeps/_workspace/src/github.com/jbenet/go-datastore/namespace/namespace.go:66-79 | exactly under that condition does every key that passes the filter convert back to its raw key |
| `Keys.QueryStray` | Godeps/_workspace/src/github.com/jbenet/go-datastore/namespace/namespace.go:66-79 | a raw key for which it does not: below "/a", "/ab" comes out as "/b" |
| `WorkerSpec.StepKeeps` | blockservice/worker/worker.go:88-117 | every round of the client loop keeps the accounting of blocks |
| `WorkerSpec.Accounting` | blockservice/worker/worker.go:88-117 | after every run each accepted block is, as often as accepted, handed on, in hand, queued, merged or discarded, and queue and hand hold each key once |
| `WorkerSpec.KeyNotLost` | blockservice/worker/worker.go:88-117 | the key of every accepted block, merged ones included, is the key of a block handed on, waiting or discarded |
| `WorkerSpec.DiscardsNothingIff` | blockservice/worker/worker.go:98-116 | a run loses blocks exactly when a tick or the closing comes with a block in hand |
| `WorkerSpec.TickLoses` | blockservice/worker/worker.go:103-106 | for instance a tick right after a block came in |
| `WorkerSpec.KeyHandedOnOrWaiting` | blockservice/worker/worker.go:88-117 | if that never happens, every accepted key is the key of a block handed on or waiting |
| `WorkerSpec.ReceiveKeepsLine` | blockservice/worker/worker.go:107-112 | a block that comes in leaves the waiting ones in their places exactly when none is offered with others behind it |
| `WorkerSpec.LineKeptIff` | blockservice/worker/worker.go:88-117 | so it is in every round of a run exactly when that never occurs |
| `WorkerSpec.OrderKept` | blockservice/worker/worker.go:88-117 | then the blocks handed on are a subsequence of the blocks accepted |
| `WorkerSpec.Overtaken` | blockservice/worker/worker.go:107-112 | and whenever it does occur, the next block sent is the second in line while the first still waits |
| `WorkerSpec.OutOfOrder` | blockservice/worker/worker.go:107-112 | for instance when three blocks come in before one is sent |
| `Worker.BlockList.PushFront` | blockservice/worker/worker.go:146-155 | puts a new key first |
| `Worker.BlockList.Push` | blockservice/worker/worker.go:157-166 | puts a new key last and ignores a known one, with the map indexing exactly the list |
| `Worker.BlockList.Pop` | blockservice/worker/worker.go:168-177 | takes the first |
| `Worker.BlockList.Len` | blockservice/worker/worker.go:179-181 | the number of blocks |
| `Worker.ClientWorker` | blockservice/worker/worker.go:82-117 | the loop sends, holds and queues what the rounds say |

## Left out

- ProcessShutdown.ShutdownIff: about the threads there are; calls that clients make later are not foreseen.
- Keccakf.UnrolledRound: the pairs of shifts of the source are written as one rotation, which RotlBit fixes bit by bit.
- Digests.Digest.Write: needs a sponge that still absorbs, because the source panics otherwise.
- LaneIO.XorInUnaligned: needs a buffer that is not empty, because the source panics otherwise.
- Writing and reading of in-place buffers by `unsafe` pointers: words are made from bytes in little-endian order.
- ProcessSafety.NoPanic: about processes registered through this package's own AddChild, WaitFor and Go; links to foreign implementations of Process and the goprocess context bridges are not part of this model.
- The Go memory model: a lock region or a channel operation is one step.
- ContextSpec.CancellationReaches: states hold between calls; interleavings of concurrent cancel calls and foreign Context implementations, for which a goroutine is started, are not part of this model.
- WithTimeout, which only adds a duration.
- WriteCacheSpec.TransparentIffApart: one caller at a time and a datastore that does not fail.
- Coalesce.NextKeeps: values that Go can compare; a Put of a byte slice panics in the map lookup. Whether coalesced reads are linearizable with respect to the child is not considered.
- Coalesce.WorkBounds: that a child call returns is a step of the model like any other.
- Bloom.Filter.Merge: the error for another implementation of the Filter interface.
- Keys.ConvertKey: a character stands for a byte; `path.Clean` is modelled by its documented rules on components, not by its buffer.
- Keys.Query: the goroutine and the channels of the result stream; a list stands for the stream.
- Worker.ClientWorker: the buffering of the two channels, and HasBlock's race between closing and sending.
- Uuid.AllDistinct: one generator; versions 2 to 5, parsing and printing.
- The query pipeline of the datastore (filters, orders, limits), file-system and LevelDB datastores, multihash, protocol buffers, SHA-1 and SHA-2, and the thin wrappers around the members above.
