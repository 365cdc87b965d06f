# Nuance: hashing, ARM fallbacks and instruction decoding

Nuance emulates the NUON, a processor with four "Aries" cores. This project models three parts of it
that are algorithms in their own right and proves what they are for:

* the **hashes** of `external/xxhash.h` (XXH32, XXH64, XXH3 with 64 and 128 bits) and
  `external/MurmurHash3.cpp`,
* the **portable replacements of x86 instructions** in `external/sse2neon.h`: carry-less 64x64
  multiplication, CRC-32C, and the AES rounds,
* the **instruction decoders** for branches, multiplications and the register unit
  (`src/DecodeECU.cpp`, `src/DecodeMUL.cpp`, `src/DecodeRCU.cpp`).

Check everything with `dafny verify dfyconfig.toml --resource-limit 2000000 --verification-time-limit 0`.

## The main results

* **Streaming equals one-shot** (`Streaming`): for every way of cutting the input, every reset with
  any arguments, both widths and any pair of lane kernels, the digest is the one-shot hash of the
  concatenation. The streaming state is a class with the original's fields, plus a ghost sequence of
  all bytes received; the invariant `Xxh3State.Holds` ties the two together, with the reused last
  stripe of the buffer as its subtlest clause. XXH32's goes past totals of 2^32.
* **Builds agree**: scalar and SSE2 kernels, jump table and loop, compact and unrolled code, the two
  formulas for 9 to 16 bytes, and a portable multiply that is the exact product.
* **Where the hashes cannot collide**: XXH32 on inputs one word or one trailing byte apart; XXH64 on
  inputs one word or byte apart after the last whole stripe; XXH3 on inputs of one to three bytes, and
  of one length up to 8 (64-bit) or 16 (128-bit); MurmurHash3 as a bijection of any one block, with the
  one block that reaches a given hash computed, and on keys that differ in zeros at the end of the tail.
* **Fast forms refine simple ones**: the polyfill multiply is the product in GF(2)[x]; the table and
  the Barrett CRC are bit-serial division, for any mix of operand sizes, and that leaves the one
  remainder of dividing polynomials by the generator of RFC 3720; both builds of every AES round are the
  transformations of FIPS 197, whose equivalent inverse cipher decrypts.
* **What the hashes are, in numbers** (`Xxh3Long`): the XXH3 of a long input is the avalanche of the length
  times a prime plus four folded 128-bit products, keyed from byte 11 of the secret, modulo 2^64; so are
  the lanes that it starts from. Known answers of every hash, one for each class of lengths, are derived
  from the definitions step by step (`KnownAnswers`, `Xxh3Answers`, `Xxh3LongAnswers`).
* **Instructions do what they are named for** (`MulForms`, `RcuForms`, `BranchForms`, `JumpForms`,
  `Comparisons`): each encoded multiplier, register-unit, branch, jump, call and return instruction, decoded
  and run in any state, has its meaning in signed numbers on the registers that it names. A right shift
  rounds down, MV tells whether the 64-bit result fits, a modulo brings an index register back into its range,
  and a branch after a comparison is taken if and only if the numbers relate as its condition says.
* **Packets may be reordered and run in place** (`Interpreter`, `PacketOrder`): instructions of a packet
  take effect at once, reading operands from the registers before it. The interpreter copies the
  registers only when the decoded dependency words show that something written is read later. For any
  packet of branch, register-unit and multiplier instructions, whatever their order and bytes, skipping
  the copy then changes nothing: every decoder's words are proved against the handler that it chooses.
  And what a packet means does not depend on the order that the scheduler gives it, although flags and
  counters are updated in place.
* **Instruction forms agree**: running what the short and long encodings of branches and immediates
  decode to does the same in every state; multiplications decode to the same record. The records of
  branches and immediates are the same under an exact condition for each pair of forms: the target and
  operand fields are as wide as a pointer, and on a 64-bit host the forms fill the upper half
  differently, so that a backward 48-bit branch has bit 32 set. The executors and the branch
  compiler (`src/EmitECU.cpp:215`) take the lower half; the disassembler prints the whole field
  (`src/PrintECU.cpp:93`), and the compiler of addr passes it on whole (`src/EmitRCU.cpp:167`).

## How it is modelled

Machine words are bit-vectors, so wrap-around is the machine's own. Code that works in place is a
method on arrays or on a class, proved against a function of its input; the theorems are lemmas about
those functions. The lane kernels of XXH3 are function values, as they are function pointers in the
original, so streaming is proved for every build of them. `Mixing` and `BlockMixer` hold the invertible
steps and the algebra that the collision results rest on. `Products` and `SignedWords` relate words to
numbers: their arithmetic and their shifts are those of integers, with or without a sign.

The decoders write field after field into a record with one slot for each unit, and are proved against
a function from bytes to *effects*: which fields and words an instruction sets, replaces or adds to. A
field that is not set keeps its old, arbitrary value, and the theorems hold for any. Handlers are
functions from a state of the processor and the registers they read from. `Dependencies` gives the
words their meaning, and `Machine.Sound` says when they are true of a handler.

A null input pointer is the empty input: the entry points that accept it do so for length zero only.

## Model

| member | source | states |
|---|---|---|
| Xxh32.ConsumedConcat | external/xxhash.h:3036-3054 | Consuming a concatenation is consuming the first part and going on from its lanes with what it left over plus the second part |
| Xxh32.ConsumeLong | external/xxhash.h:3036-3054 | The stripe loop, in place on the four lanes, leaves the lanes of the reference recursion and returns exactly the bytes after the last whole stripe |
| Xxh32.FinalizeLoop | external/xxhash.h:3103-3114 | The two-loop finaliser computes the reference tail (4-byte words first, then bytes) and the avalanche |
| Xxh32.FinalizeJumpTable | external/xxhash.h:3115-3156 | The unrolled jump-table finaliser, case by case with its fall-throughs, computes the same value for every tail length |
| Xxh32.Xxh32 | external/xxhash.h:3180-3201 | One-shot hash, both branches on the 16-byte threshold, equals the reference function of input and seed |
| Xxh32.State.constructor | external/xxhash.h:3248-3254 | Reset: lanes from the seed, nothing buffered, empty stream |
| Xxh32.State.Update | external/xxhash.h:3258-3301 | Appends the input to the stream the state stands for and keeps the invariant: lanes are those of the stream's whole stripes, the buffer holds the rest, the total wraps at 2^32, and large_len is set exactly when the true total has reached 16 |
| Xxh32.State.BufferedBytes | external/xxhash.h:3258-3301 | In every valid state the buffered bytes are the last (total mod 16) bytes of the stream |
| Xxh32.State.Digest | external/xxhash.h:3305-3318 | The digest is the one-shot hash of everything received, for any total, also past 2^32; the state is not modified |
| Xxh32Collisions.NoCollision | external/xxhash.h:3180-3201 | Two inputs of one length, equal except for one aligned 4-byte word or one trailing byte, never have the same XXH32 under the same seed |
| Xxh32Collisions.RoundInjective | external/xxhash.h:2947-2999 | A lane round is injective in the lane for a fixed word and in the word for a fixed lane |
| Xxh32Collisions.ConsumedApart | external/xxhash.h:3036-3054 | A single differing word leaves exactly one lane different after all stripes, and names it |
| Xxh32Collisions.MergeApart | external/xxhash.h:3063-3069 | The merge, a sum of rotations, tells apart lanes that differ in one place |
| Xxh32Collisions.TailApart | external/xxhash.h:3086-3108 | The finaliser tells apart tails that differ in one word or one byte |
| Xxh32Collisions.AvalancheUndone | external/xxhash.h:3004-3012 | The avalanche has a two-sided inverse |
| KnownAnswers.Xxh32Answer | external/xxhash.h:3180-3201 | XXH32 of the 43-byte pangram with a seed: two stripes, two words and three bytes |
| KnownAnswers.Xxh32AnswerAbc | external/xxhash.h:3180-3201 | XXH32 of "abc" with a seed, too short for the lanes |
| Xxh64.ConsumedConcat | external/xxhash.h:3563-3583 | As for XXH32, with 32-byte stripes |
| Xxh64.ConsumeLong | external/xxhash.h:3563-3583 | The stripe loop in place on the lanes computes the reference lanes and returns the rest |
| Xxh64.Finalize | external/xxhash.h:3637-3661 | The finaliser's three stages (8, 4 and 1 bytes) compute the reference tail and avalanche |
| Xxh64.Xxh64 | external/xxhash.h:3681-3701 | One-shot hash equals the reference function |
| Xxh64.State.Update | external/xxhash.h:3754-3796 | Appends to the stream and keeps the invariant, buffered bytes the stream's last (total mod 32) |
| Xxh64.State.BufferedBytes | external/xxhash.h:3754-3796 | In every valid state the buffered bytes are the last (total mod 32) bytes of the stream |
| Xxh64.State.Digest | external/xxhash.h:3800-3814 | The digest is the one-shot hash of everything received, unless the 64-bit total has wrapped to the other side of the 32-byte threshold |
| Xxh64Collisions.NoTailCollision | external/xxhash.h:3637-3661 | Two inputs of one length that agree on all whole stripes and differ in one unit of what the finaliser reads (a 64-bit word, the 32-bit word or a byte) never have the same XXH64 under one seed |
| Xxh64Collisions.NoShortCollision | external/xxhash.h:3681-3701 | So for any two inputs below 32 bytes that are one such unit apart |
| Xxh64Collisions.AvalancheUndone | external/xxhash.h:3530-3538 | The avalanche has a two-sided inverse |
| KnownAnswers.Xxh64Answer | external/xxhash.h:3681-3701 | XXH64 of the pangram with a seed: a stripe, a word and three bytes |
| KnownAnswers.Xxh64AnswerAbc | external/xxhash.h:3681-3701 | XXH64 of "abc" |
| KnownAnswers.Xxh64AnswerWord | external/xxhash.h:3681-3701 | XXH64 of four bytes with a seed, whose tail is one 32-bit word |
| Streaming.Xxh32Pieces | external/xxhash.h:3258-3318 | Reset, any number of updates of any sizes (empty ones included) and digest give the one-shot XXH32 of the concatenation |
| Streaming.Xxh64Pieces | external/xxhash.h:3754-3814 | The same for XXH64 and totals below 2^64 |
| Xxh3Stripes.RunConcat | external/xxhash.h:6696-6730 | Consuming m stripes and then n is consuming m + n, scrambles included |
| Xxh3Stripes.RunThroughBlock | external/xxhash.h:6271-6302 | Folding up to a whole block from a block start is plain accumulation, with one scramble exactly when the block is completed |
| Xxh3Stripes.Accumulate | external/xxhash.h:4968-4984 | The accumulate loop advances the secret window by 8 and the input by 64 bytes a stripe |
| Xxh3Stripes.ConsumeStripes | external/xxhash.h:6696-6730 | For any stripe counter inside a block and any number of stripes, the lanes, the new counter and the read position are those of the one-stripe-at-a-time reference, however many block ends lie between |
| Xxh3OneShot.InitCustomSecret | external/xxhash.h:6131-6190 | The loop that writes the seeded secret writes, row by row, the default secret plus and minus the seed |
| Xxh3OneShot.InitCustomSecretSse2 | external/xxhash.h:5312-5351 | The SSE2 build, which adds seed and negated seed to both halves of a row, writes the same secret |
| Xxh3OneShot.SeedZeroIsDefault | external/xxhash.h:6408-6425 | Generating the secret for seed 0 would give the default secret, so taking the shortcut for it changes nothing |
| Xxh3OneShot.HashLongInternalLoop | external/xxhash.h:6271-6302 | Blocks, partial block and last stripe amount to: all (length - 1)/64 stripes of the reference with a scramble after each full block, then the last 64 bytes keyed from the secret's end, and no scramble after a block that ends at the last byte |
| Xxh3OneShot.OneShot | external/xxhash.h:6444-6497 | Which secret and seed the short and the long path get in each of the four modes; the result is the reference hash |
| Xxh3OneShot.ModesAgree | external/xxhash.h:6444-6497 | Seed 0 and the default secret as an external one give the default hash; with secret and seed, short inputs are hashed with the seed alone and long ones with the secret alone |
| Xxh3State.CacheSoundOverResets | external/xxhash.h:6657-6677 | Over every sequence of resets on an initialised state, with a nonzero seed and no external secret the cached secret is the seed's |
| Xxh3State.State.constructor | external/xxhash.h:1800-1812 | After initialisation alone the cache is sound, whatever the rest of memory holds |
| Xxh3State.State.ResetInternal | external/xxhash.h:6608-6633 | A reset clears counters and lanes, takes seed and secret, leaves the cached secret alone, and derives the block length from the secret size with 64-bit wrap-around |
| Xxh3State.State.ResetDefault | external/xxhash.h:6636-6642 | Default reset: keyed with the default secret, ready for an empty stream |
| Xxh3State.State.ResetWithSecret | external/xxhash.h:6645-6653 | Error exactly for a missing or short secret, which is still installed; otherwise keyed with the secret |
| Xxh3State.State.ResetWithSeed | external/xxhash.h:6656-6665 | Skipping the regeneration when the seed is unchanged is sound: the state is keyed for the seed in either case |
| Xxh3State.State.ResetWithSecretAndSeed | external/xxhash.h:6668-6677 | Error leaves the state untouched; otherwise long inputs use the secret and short ones the seed |
| Xxh3State.HoldsMore | external/xxhash.h:6757-6762 | Appending to the buffer alone keeps the streaming invariant |
| Xxh3State.HoldsRest | external/xxhash.h:6803-6812 | Refilling the buffer keeps the last 64 consumed bytes at its end, so that the invariant holds again |
| Xxh3State.State.FoldBuffer | external/xxhash.h:6784-6794 | Completing and folding the buffer consumes exactly 256 more bytes of the stream and leaves its last stripe in place |
| Xxh3State.State.FoldInput | external/xxhash.h:6796-6804 | Folding straight from the input stops before the last byte and keeps the last consumed stripe at the buffer's end |
| Xxh3State.State.Update | external/xxhash.h:6741-6819 | Appends to the stream and keeps the invariant: lanes are those of all consumed stripes, the buffer holds the rest and is not empty once input has arrived, and its last 64 bytes are the stream's bytes before the buffered ones as long as at most 192 are buffered |
| Xxh3State.State.DigestLong | external/xxhash.h:6839-6871 | On a copy of the lanes, the stripes still buffered and the last 64 bytes of the stream (caught up from the buffer's tail when fewer are buffered) give exactly the one-shot lanes |
| Xxh3State.State.Digest | external/xxhash.h:6877-6890 | The digest is the one-shot hash in the mode of the last accepted reset, unless a total past 2^64 looks like a short one; the state is not modified |
| Streaming.HashPieces | external/xxhash.h:6636-6890 | For every reset (its arguments as a caller may pass them), width, kernel pair and cutting of the input, streaming gives the one-shot hash of the concatenation, and a rejected reset none |
| Streaming.Xxh3Pieces | external/xxhash.h:7377-7391 | The same for the concrete 64-bit and 128-bit hashes on the kernels both builds compute |
| Streaming.HashTwice | external/xxhash.h:6877-6890 | A digest in between changes nothing: the state goes on to hash the longer stream |
| Xxh3Kernels.AccumulateScalar | external/xxhash.h:6050-6083 | Eight scalar rounds in place, each adding to its neighbour lane first, give what all lanes at once give |
| Xxh3Kernels.AccumulateSse2 | external/xxhash.h:5248-5275 | Shuffles, 32-bit multiplies and adds of the SSE2 build give the same lanes |
| Xxh3Kernels.ScrambleScalar | external/xxhash.h:6099-6128 | Scalar scramble in place equals the scramble of all lanes |
| Xxh3Kernels.ScrambleSse2 | external/xxhash.h:5284-5310 | SSE2 scramble with the product split into halves equals it too |
| Xxh3Kernels.SplitProduct | external/xxhash.h:5299-5306 | Low and high 32-bit products, the high one shifted, add up to the full multiply modulo 2^64 |
| Xxh3Kernels.AccumulateAllScalar | external/xxhash.h:4968-4984 | For any number of stripes the scalar build folds as the reference does |
| Xxh3Kernels.AccumulateAllSse2 | external/xxhash.h:4968-4984 | For any number of stripes the SSE2 build folds as the reference does |
| Products.MulNum | external/xxhash.h:4450-4453 | The 64-bit machine product is the product of the numbers modulo 2^64 |
| Products.SumsFit | external/xxhash.h:4589-4592 | Neither sum inside the portable 64x64->128 multiply overflows 64 bits |
| Products.MultIsExact | external/xxhash.h:4583-4599 | low + 2^64 high is exactly the product of the two arguments |
| Products.LowWordIsProduct | external/xxhash.h:4583-4599 | The low word is the ordinary wrapping product |
| Xxh3Long.LaneNum | external/xxhash.h:6050-6083 | Over numbers: a lane becomes itself plus its neighbour's word plus the product of the lower and upper half of its own keyed word, modulo 2^64 |
| Xxh3Long.ScrambledNum | external/xxhash.h:6099-6128 | After a block each lane, folded onto itself by 47 bits and keyed, is multiplied by 0x9E3779B1 modulo 2^64 |
| Xxh3Long.LongHash64Num | external/xxhash.h:6312-6346 | For every kernel pair, mode and input over 240 bytes the 64-bit hash is the avalanche of a sum modulo 2^64: the length times 0x9E3779B185EBCA87 and four folds, each the low word xor the high word of the exact product of two lanes keyed from byte 11 of the secret on |
| Xxh3Long.LongHash128Num | external/xxhash.h:7177-7186 | The 128-bit hash: the same low word; the high word starts from the complement of the length times 0xC2B2AE3D27D4EB4F and is keyed from 75 bytes before the end of the secret |
| Xxh3LongAnswers.ZeroAnswer | external/xxhash.h:6342-6365 | Both hashes of 241 zero bytes with the default secret |
| Xxh3LongAnswers.DataAnswer | external/xxhash.h:6408-6425 | Both hashes of 256 bytes, all words of which differ, with a seed |
| Xxh3LongAnswers.BlockAnswer | external/xxhash.h:6271-6302 | Both hashes of 641 zero bytes with a secret of 136 bytes: a block, its scramble and two stripes more |
| Xxh3Evaluation.SeededWords | external/xxhash.h:6131-6190 | The secret of a seed, word by word: the seed is added to every even word of the default secret and subtracted from every odd one |
| Xxh3Mix.AvalancheUndone | external/xxhash.h:4628-4634 | The XXH3 avalanche has a two-sided inverse |
| Xxh3Mix.RotXorUndone | external/xxhash.h:4644 | Xoring a word with its rotations by 49 and 24 is undone, from either side, by seven more applications and a rotation |
| Xxh3Mix.RrmxmxUndone | external/xxhash.h:4641-4649 | rrmxmx is a bijection of the word for every length below 16 |
| Xxh3Mix.PackedInjective | external/xxhash.h:4691-4701 | The packing of one to three bytes keeps the bytes and their number |
| Xxh3Short64.Len17To128Loop | external/xxhash.h:4848-4855 | The compact loop of the size-optimised build computes the reference pairs |
| Xxh3Short64.Len17To128Unrolled | external/xxhash.h:4856-4870 | The nested branches of the default build compute the same, for every length from 17 to 128 |
| Xxh3Short64.Len129To240Loops | external/xxhash.h:4875-4930 | The two loops around the first avalanche compute the reference rounds |
| Xxh3Short64.MergeAccsLoop | external/xxhash.h:6312-6333 | The lane-merging loop computes the reference merge |
| Xxh3Short128.Len17To128Loop | external/xxhash.h:7087-7094 | 128-bit compact loop |
| Xxh3Short128.Len17To128Unrolled | external/xxhash.h:7095-7106 | 128-bit nested branches: the same value for every length from 17 to 128 |
| Xxh3Short128.Len129To240Loops | external/xxhash.h:7119-7163 | The offset counter of the second loop runs over exactly the whole 32-byte rounds; the last bytes use the negated seed |
| Xxh3Short128.SpreadVariantsAgree | external/xxhash.h:6993-7027 | The 32-bit and the 64-bit formula for the last word agree on every word |
| Xxh3Answers.EmptyAnswer | external/xxhash.h:7045-7060 | Both hashes of the empty input |
| Xxh3Answers.ThreeAnswer | external/xxhash.h:6914-6940 | Both hashes of three bytes with a seed |
| Xxh3Answers.SixAnswer | external/xxhash.h:6943-6967 | Both hashes of six bytes with a seed |
| Xxh3Answers.FourteenAnswer64 | external/xxhash.h:4723-4739 | The 64-bit hash of fourteen bytes with a seed |
| Xxh3Answers.FourteenAnswer128 | external/xxhash.h:6969-7039 | The 128-bit hash of fourteen bytes with a seed |
| Xxh3Answers.FoxAnswer | external/xxhash.h:4834-4872 | Both hashes of the pangram, 43 bytes |
| Xxh3Answers.DataAnswer | external/xxhash.h:4875-4930 | Both hashes of 160 bytes with a seed |
| Xxh3Injective.NoCollision64 | external/xxhash.h:4685-4721 | With secret and seed fixed, the 64-bit hash is injective over all inputs of 1 to 3 bytes, across lengths, and over all inputs of each length up to 8 |
| Xxh3Injective.NoCollision128 | external/xxhash.h:6913-7042 | With secret and seed fixed, the 128-bit hash is injective over all inputs of 1 to 3 bytes, across lengths, and over all inputs of each length up to 16 |
| Xxh3Injective.HashesTellApart | external/xxhash.h:6444-6497 | The same of the public hashes in all four modes |
| Xxh3Injective.MultiplierUndone | external/xxhash.h:6955-6956 | The multiplier that has the length added to it has an inverse modulo 2^64 for every length from 4 to 8 |
| Xxh3Injective.Middle9To16Same | external/xxhash.h:6976-7029 | The 128 bits between the two multiplications determine both keyed input words |
| Canonical.RoundTrip32 | external/xxhash.h:3324-3334 | On a little- or big-endian processor the canonical form is the big-endian bytes, and the conversions invert each other |
| Canonical.RoundTrip64 | external/xxhash.h:3819-3830 | The same for 64 bits |
| Canonical.RoundTrip128 | external/xxhash.h:7421-7441 | The same for 128 bits, high word first |
| Canonical.CmpIsCanonicalOrder | external/xxhash.h:7408-7416 | The comparison of two 128-bit hashes is the lexicographic comparison of their canonical bytes |
| Canonical.CmpIsTotalOrder | external/xxhash.h:7402-7416 | It is zero exactly on equal hashes, antisymmetric and transitive |
| Murmur3x86_32.Murmur3 | external/MurmurHash3.cpp:94-146 | The block loop, the fall-through tail switch and the finalisation compute the reference fold over blocks |
| Murmur3x86_32.BlockBijection | external/MurmurHash3.cpp:94-146 | With length, seed and all other bytes fixed, a block reaches a given hash if and only if it is the one block the model computes: the map from one 4-byte block to the hash is a bijection |
| Murmur3x86_32.TailInjective | external/MurmurHash3.cpp:94-146 | With the blocks fixed, tails of one length that differ give different hashes |
| Murmur3x86_32.BlockStepLawful | external/MurmurHash3.cpp:110-121 | The block step can be undone for a known block and solved for the block that leads to a given state |
| Murmur3x64_128.Murmur3 | external/MurmurHash3.cpp:255-332 | The block loop, the fall-through tail switch and the finalisation compute the reference fold over blocks |
| Murmur3x64_128.BlockBijection | external/MurmurHash3.cpp:255-332 | With length, seed and all other bytes fixed, a block reaches a given hash if and only if it is the one block the model computes: the map from one 16-byte block to the hash is a bijection |
| Murmur3x64_128.TailInjective | external/MurmurHash3.cpp:255-332 | With the blocks fixed, tails of one length that differ give different hashes |
| Murmur3x64_128.BlockStepLawful | external/MurmurHash3.cpp:272-285 | The block step can be undone for a known block and solved for the block that leads to a given state |
| Murmur3x86_128.Murmur3 | external/MurmurHash3.cpp:150-251 | The block loop, the fall-through tail switch and the finalisation compute the reference fold over blocks |
| Murmur3x86_128.BlockBijection | external/MurmurHash3.cpp:150-251 | With length, seed and all other bytes fixed, a block reaches a given hash if and only if it is the one block the model computes: the map from one 16-byte block to the hash is a bijection |
| Murmur3x86_128.TailInjective | external/MurmurHash3.cpp:150-251 | With the blocks fixed, tails of one length that differ give different hashes |
| Murmur3x86_128.BlockStepLawful | external/MurmurHash3.cpp:171-193 | The block step can be undone for a known block and solved for the block that leads to a given state |
| Murmur3x86_32.FmixUndone | external/MurmurHash3.cpp:68-77 | The 32-bit finaliser has a two-sided inverse |
| Murmur3x64_128.FmixUndone | external/MurmurHash3.cpp:81-90 | The 64-bit finaliser has a two-sided inverse |
| MurmurTails.TailIsPadded32 | external/MurmurHash3.cpp:123-136 | The tail is mixed in as the block that zero bytes would complete |
| MurmurTails.TrailingZeros32 | external/MurmurHash3.cpp:94-146 | Two keys that differ only in zero bytes at the end of an unfinished block never collide |
| MurmurTails.TailIsPadded64 | external/MurmurHash3.cpp:287-314 | The tail is mixed in as the block that zero bytes would complete |
| MurmurTails.TrailingZeros64 | external/MurmurHash3.cpp:255-332 | Two keys that differ only in zero bytes at the end of an unfinished block never collide |
| MurmurTails.TailIsPadded128 | external/MurmurHash3.cpp:196-229 | The tail is mixed in as the block that zero bytes would complete |
| MurmurTails.TrailingZeros128 | external/MurmurHash3.cpp:150-251 | Two keys that differ only in zero bytes at the end of an unfinished block never collide |
| BlockMixer.OneBlockReaches | external/MurmurHash3.cpp:272-285 | For any lawful step: with the other blocks fixed exactly one block leads from one state to another |
| KnownAnswers.Murmur32Answer | external/MurmurHash3.cpp:94-146 | The 32-bit hash of the pangram: ten blocks and three bytes |
| KnownAnswers.Murmur128Answer | external/MurmurHash3.cpp:255-332 | The 128-bit hash of the pangram on 64-bit words: two blocks and eleven bytes |
| KnownAnswers.Murmur4Answer | external/MurmurHash3.cpp:150-251 | The 128-bit hash of the pangram on 32-bit words |
| AesTables.TablesInvert | external/sse2neon.h:8687-8768 | The two 256-entry tables invert each other |
| AesTables.SboxIsAffineInverse | external/sse2neon.h:8687-8727 | The table is the one FIPS 197 defines: the affine image of the multiplicative inverse in GF(2^8) |
| Aes.CoefficientsAreTimes | external/sse2neon.h:8776-8783 | The doublings used for the MixColumns coefficients are field multiplications by 2, 3, 9, 11, 13 and 14 |
| Aes.MixColumnsUndone | external/sse2neon.h:9067-9086 | InvMixColumns inverts MixColumns on every block |
| Aes.InvMixColumnsLinear | external/sse2neon.h:9067-9086 | InvMixColumns distributes over the addition of a round key |
| Aes.RoundsUndone | external/sse2neon.h:8828-8951 | Any number of rounds is undone, last round first, with transformed keys |
| Aes.DecryptUndoesEncrypt | external/sse2neon.h:8828-9086 | Equivalent inverse cipher: for any keys, of any number, aesenc...aesenclast followed by aesdec with aesimc-transformed keys...aesdeclast gives back the block |
| AesRounds.AesEncTablesIsRound | external/sse2neon.h:8828-8882 | The four-table round of the 32-bit build is ShiftRows, SubBytes, MixColumns and AddRoundKey |
| AesRounds.TableColumnMixes | external/sse2neon.h:8829-8876 | One word from each table sums to a mixed column of substituted bytes |
| AesRounds.AesEncLanes | external/sse2neon.h:8792-8826 | The lane-wise round of the 64-bit build is the same round |
| AesRounds.FourLookupsAreOne | external/sse2neon.h:8809-8813 | Four 64-entry look-ups with moved indices are one look-up in the whole table |
| AesRounds.AesEncLastLanes | external/sse2neon.h:8958-8979 | Last encryption round, 64-bit build |
| AesRounds.AesEncLastPickedIsRound | external/sse2neon.h:8981-9002 | Last encryption round, 32-bit build: the sixteen picked bytes are ShiftRows and SubBytes |
| AesRounds.AesDecLanes | external/sse2neon.h:8888-8924 | Decryption round, 64-bit build, with InvMixColumns as a pre-mix and a plain mix |
| AesRounds.PreMixed | external/sse2neon.h:8908-8917 | Adding four times the column and its half turn makes the plain mixing the inverse one |
| AesRounds.AesDecLoops | external/sse2neon.h:8926-8951 | Decryption round, 32-bit build: scatter loop and in-place mixing loop over a 4x4 array |
| AesRounds.Scatter | external/sse2neon.h:8928-8932 | The scatter loop is InvShiftRows and InvSubBytes |
| AesRounds.MixedRowByteIsInvMix | external/sse2neon.h:8934-8949 | Multiplication on promoted operands, truncated at the end, is field multiplication: the bits above the byte never matter |
| AesRounds.InvMixRows | external/sse2neon.h:8934-8949 | The in-place row loop is InvMixColumns |
| AesRounds.AesDecLastLanes | external/sse2neon.h:9008-9029 | Last decryption round, 64-bit build |
| AesRounds.AesDecLastLoop | external/sse2neon.h:9031-9039 | Last decryption round, 32-bit build |
| AesRounds.AesImcLanes | external/sse2neon.h:9045-9065 | InvMixColumns intrinsic, 64-bit build |
| AesRounds.AesImcLoop | external/sse2neon.h:9067-9086 | InvMixColumns intrinsic, 32-bit build |
| Clmul.BitsLinear | external/sse2neon.h:905-914 | The reference product distributes over sums |
| Clmul.PeelByte | external/sse2neon.h:915-940 | Eight steps of shift-and-add are the product with one byte |
| Clmul.ProductIsDiagonals | external/sse2neon.h:915-940 | The product is the sum, over all pairs of bytes, of their 15-bit products placed at the sum of their positions |
| ClmulPolyfill.FoldedLanes | external/sse2neon.h:947-997 | Interleaving, masking, de-interleaving, rotating and xoring put every lane of the cross products at its place |
| ClmulPolyfill.VmullP64IsProduct | external/sse2neon.h:915-1003 | The polyfill is the full 128-bit product in GF(2)[x], for all 64-bit operands |
| Crc32c.HalfByteIsFourSteps | external/sse2neon.h:8653-8673 | One half-byte table look-up is four steps of bit-serial division, for every register value |
| Crc32c.ByteIsEightSteps | external/sse2neon.h:8637 | Xoring a byte in whole and taking eight steps is feeding its eight bits one by one |
| Crc32c.BarrettIsEightSteps | external/sse2neon.h:8637-8662 | The two carry-less multiplications, the mask and the kept lane are eight steps of the division |
| Crc32c.CrcU8Table | external/sse2neon.h:8637-8680 | The table variant is bit-serial division by the byte's bits |
| Crc32c.CrcU8Barrett | external/sse2neon.h:8637-8662 | The Barrett variant, on the polyfill's product, is the same function |
| Crc32c.CrcU16 | external/sse2neon.h:8571-8586 | Two bytes, the low one first |
| Crc32c.CrcU32 | external/sse2neon.h:8591-8606 | Four bytes in little-endian order |
| Crc32c.CrcU64 | external/sse2neon.h:8611-8623 | Eight bytes; only the lower half of the 64-bit register counts and comes back |
| Crc32c.PackedIsLittleEndian | external/sse2neon.h:8571-8623 | The operands are cut into bytes in little-endian order |
| Crc32c.FeedOperands | external/sse2neon.h:8571-8681 | Any mix of 8-, 16-, 32- and 64-bit operands leaves the register where bit-serial division of the whole byte string leaves it |
| Crc32cDivision.StepDivides | external/sse2neon.h:8670-8677 | A step of the register is a step of long division: multiply by x, and take the generator off when the leading term calls for it |
| Crc32cDivision.FeedingDivides | external/sse2neon.h:8571-8681 | Feeding a message divides the polynomial of the old register followed by the message; the quotient is given |
| Crc32cDivision.OneRemainder | external/sse2neon.h:8571-8681 | Division by the generator has one remainder of degree below 32 |
| Crc32cDivision.RegisterIsRemainder | external/sse2neon.h:8571-8681 | A register value is what feeding a message leaves if and only if it is the remainder of dividing old register and message by the generator polynomial |
| DecodeEcu.Decode16 | src/DecodeECU.cpp:102-279 | The 16-bit branch and return decoder, writing field after field: afterwards slot, packet flags and condition are those of the instruction and the other slots are as before |
| DecodeEcu.Decode32 | src/DecodeECU.cpp:281-544 | The same for the 32-bit branches, jumps and calls, with the base address that an absolute target without extension word gets |
| DecodeEcu.ConditionsBelow32 | src/DecodeECU.cpp:184 | No bytes index the table of flag dependencies outside its 32 entries |
| DecodeMul.Decode16 | src/DecodeMUL.cpp:14-46 | The 16-bit multiplier decoder, writing field after field |
| DecodeMul.Decode32 | src/DecodeMUL.cpp:48-399 | All sixteen kinds of the 32-bit decoder, each writing its own fields; fields that a kind does not write keep what they held |
| DecodeRcu.Decode16 | src/DecodeRCU.cpp:17-191 | The register-unit decoder, which overwrites handler and source and adds to words already there; the extension word is dropped by a decrement alone and by nothing else |
| BranchForms.FormsExecuteAlike | src/DecodeECU.cpp:112-186 | Wherever condition, delay slots and offset fit two of the 16-, 32- and 48-bit forms, running what they decode to does the same in every state of the processor: execution goes on at pc + 2 offset modulo 2^32 after the delay slots if and only if the condition holds and no packets are being skipped |
| BranchForms.MediumIsLong | src/DecodeECU.cpp:133-303 | The 32-bit and the 48-bit form give equal records if and only if the offset, read as unsigned, plus the program counter stays below 2^32 |
| BranchForms.ShortIsLong | src/DecodeECU.cpp:127-133 | The 16-bit and the 48-bit form give equal records if and only if the branch goes forward |
| BranchForms.ShortIsMedium | src/DecodeECU.cpp:127-303 | The 16-bit and the 32-bit form give equal records if and only if the signed sum of offset and program counter lies in 32 bits |
| BranchForms.AlwaysIsLong | src/DecodeECU.cpp:171-181 | The short form without a condition and the 48-bit form always give equal records |
| BranchForms.BackwardFormsDiffer | src/DecodeECU.cpp:127-303 | A concrete backward branch in instruction memory whose records differ |
| BranchForms.LongOffsetBack | src/DecodeECU.cpp:130-134 | Every offset is recovered from the extension word and the seven bits of the instruction |
| BranchForms.MediumOffsetBack | src/DecodeECU.cpp:309-311 | Every 14-bit signed offset is recovered from its three pieces |
| BranchForms.AbsoluteTargetBack | src/DecodeECU.cpp:341-420 | Encoded JMP or JSR bytes decode to that jump or call, with its condition, delay slots and even 32-bit target, if and only if the extension word is not zero |
| Comparisons.ConditionsCompare | src/TestConditionCode.cpp:3-114 | With the flags that comparing x with y leaves (src/ExecuteALU.cpp:859-881), for all x and y: ne, eq, lt, le, gt and ge hold if and only if the signed numbers relate so, hi and ls likewise of the unsigned ones, and the tests of one flag are of the borrow, the sign and the overflow |
| Comparisons.FlagConditions | src/TestConditionCode.cpp:3-114 | Each condition on one flag holds whenever that flag is set, or whenever it is clear, whatever the others are |
| Comparisons.Opposites | src/TestConditionCode.cpp:3-114 | Which condition is the complement of which |
| Comparisons.AlwaysAndNever | src/TestConditionCode.cpp:3-114 | Condition 16 always holds and the three numbers without a test never do |
| Comparisons.BranchesAfterComparison | src/DecodeECU.cpp:127-133 | A 48-bit branch on a relation, run after a comparison, goes to its target if and only if the numbers relate so |
| JumpForms.AbsoluteRuns | src/DecodeECU.cpp:341-456 | An encoded jump or call with extension word, run in any state, goes to its even 32-bit target on its condition; a call leaves the return address in rz |
| JumpForms.LocalRuns | src/DecodeECU.cpp:341-456 | Without extension word: to a place in instruction RAM or ROM, by its kind |
| JumpForms.IndirectRuns | src/DecodeECU.cpp:457-544 | Jumps and calls to the address in a register |
| JumpForms.ReturnRuns | src/DecodeECU.cpp:188-279 | Encoded returns go to the address in rz, rzi1 or rzi2, and clear the bit of their interrupt; rts without delay slots on a condition that is a multiple of 8 reads as halt and stops |
| OperandForms.ScalarFormsAgree | src/DecodeMUL.cpp:33-95 | mul by acshift: the 16-bit and the 32-bit form decode to the same effects on any record |
| OperandForms.VectorFormsAgree | src/DecodeMUL.cpp:21-245 | mul_sv by svshift: likewise |
| OperandForms.ShiftBack | src/DecodeMUL.cpp:66-76 | A signed seven-bit shift becomes its size and its direction |
| OperandForms.MvrImmediateBack | src/DecodeRCU.cpp:113-133 | An encoded mvr of any 32-bit immediate decodes to mvr of that immediate |
| OperandForms.AddrImmediatesBack | src/DecodeRCU.cpp:67-92 | An encoded addr of an immediate decodes to addr of it, zero-extended in the long form and sign-extended in the short one |
| OperandForms.AddrFormsAgree | src/DecodeRCU.cpp:67-92 | Short and extended addr give equal records if and only if the immediate is not negative |
| OperandForms.AddrFormsExecuteAlike | src/DecodeRCU.cpp:67-92 | Running what short and extended addr decode to does the same in every state, negative immediates included |
| MulForms.EncodedRuns | src/DecodeMUL.cpp:48-399 | For every 32-bit multiplier instruction, encoded: running what it decodes to, in every state and whatever the slot held, does what it means in signed numbers on the registers that it names, and nothing else. subm x, y, d leaves x - y in d |
| MulForms.CompressedRuns | src/DecodeMUL.cpp:14-46 | The same for the 16-bit forms |
| RcuForms.EncodedRuns | src/DecodeRCU.cpp:17-191 | For every register-unit instruction, encoded: running what it decodes to does its operation on the index register, in signed numbers, and counts the counters that it names |
| RcuForms.DecRuns | src/DecodeRCU.cpp:17-60 | The same for a decrement alone |
| RcuForms.ModuloBringsBack | src/ExecuteRCU.cpp:329-459 | Running an encoded modulo, for each index register and range R > 0: the integer part n becomes n mod R if -R <= n < 2R, and stays congruent in any case, its fraction is kept, the flags say n >= R and n < 0, and no other register changes |
| RcuForms.ModuloLaw | src/ExecuteRCU.cpp:329-459 | One correction by the range brings a number into it if and only if it was at most one range away on either side |
| RcuForms.CountDownIs | src/ExecuteRCU.cpp:5-54 | A counter goes to max(count - 1, 0), and its flag is set if and only if it is zero then |
| ExecuteMul.LanesInPlace | src/ExecuteMUL.cpp:313-612 | The vector products write lane after lane into registers that may be the operands themselves, and still compute every lane from the registers before |
| MulArithmetic.ScalarComputes | src/ExecuteMUL.cpp:34-284 | Every scalar product leaves in its destination, modulo 2^32, the product of the signed operands shifted by a signed amount: floor of the division by 2^n to the right, times 2^n to the left; the amount is the immediate's, or the signed seven bits of acshift or of a register |
| MulArithmetic.FlagIsExact | src/ExecuteMUL.cpp:34-284 | MV is clear if and only if the destination, as a signed number, is the whole shifted product; for a shift to the left this holds of what the 64-bit register keeps |
| LaneArithmetic.SumComputes | src/ExecuteMUL.cpp:6-32 | addm is x + y and subm is x - y on signed numbers, modulo 2^32 |
| LaneArithmetic.VectorsCompute | src/ExecuteMUL.cpp:286-622 | Each lane of a vector product is the product of the integer parts of the 16.16 numbers, or of a texel's fraction, times 2^16, 2^8, 1 or 4, modulo 2^32 |
| LaneArithmetic.DotComputes | src/ExecuteMUL.cpp:624-694 | A dot product is the sum of four such lanes, scaled |
| ExecuteMul.HandlerSound | src/ExecuteMUL.cpp:6-694 | A multiplier handler reads no register and changes no register or flag outside the words it needs |
| ExecuteRcu.HandlerSound | src/ExecuteRCU.cpp:5-459 | The same for the register unit: counters, index registers, ranges and the flags of each |
| ExecuteEcu.HandlerSound | src/ExecuteECU.cpp:8-299 | The same for branches, jumps, calls and returns |
| SoundMul.Mul32Truthful | src/DecodeMUL.cpp:48-399 | For all four bytes but those of kind 3, which name no instruction, and whatever the slot held: operands name existing registers, vectors begin at multiples of four, and the dependency words include all that the chosen handler reads and writes |
| SoundMul.Mul16Truthful | src/DecodeMUL.cpp:14-46 | The same for all two bytes of the compressed forms |
| SoundRcu.Rcu16Truthful | src/DecodeRCU.cpp:17-191 | The same for the register unit, with words that are added to what was there |
| SoundEcu.Ecu16Truthful | src/DecodeECU.cpp:102-279 | The same for 16- and 48-bit branches, returns and halt |
| SoundEcu.Ecu32Truthful | src/DecodeECU.cpp:281-544 | The same for 32-bit branches, jumps and calls |
| SoundEcu.TableIsEnough | src/DecodeECU.cpp:35-100 | For every condition, flags outside its table entry do not change the outcome of the test |
| SoundEcu.TableIsNeeded | src/TestConditionCode.cpp:3-114 | For every condition, each flag in its table entry can change the outcome |
| Packet.FindDependencies | src/mpe.cpp:1615-1637 | The running combination of dependency words is nonzero if and only if some instruction writes what a later one reads |
| Packet.InPlaceIsOnCopy | src/mpe.cpp:1637-1644 | For handlers with true dependency words, a packet in which nothing written is read later does the same on the live registers as on a copy |
| Packet.Run | src/mpe.h:437-453 | The interpreter, with or without its copy, computes what the packet means: operands come from the registers before it, counters and flags are updated where they are |
| Interpreter.ChoosesHandler | src/mpe.cpp:2258-2321 | Bytes choose a handler if and only if they are none of: the multiplier of kind 3, a return of kind 3, a decrement of no counter |
| Interpreter.DecodedIsSound | src/mpe.cpp:2258-2321 | All other bytes give dependency words that are true of their handler |
| PacketOrder.MulRcuCommute | src/ExecuteRCU.cpp:5-459 | A multiplier and a register-unit handler commute on every state, although both update the flags in place |
| PacketOrder.DecodedCommute | src/mpe.cpp:2258-2321 | Any two decoded instructions of different units commute when they read from the copy |
| PacketOrder.OrderDoesNotMatter | src/mpe.cpp:1046-1614 | A packet with at most one instruction for each unit means the same in every order that the scheduler may give it |
| Interpreter.PacketRunsInPlace | src/mpe.cpp:1615-1644 | Any packet of such instructions, in any order: if the words show no dependency, skipping the copy changes nothing |

## Left out

- Xxh64.State.Digest: for totals past 2^64 it promises the one-shot value only if the wrapped total is on the same side of 32 bytes as the true one; the original keeps no more than the wrapped total.
- Xxh3State.State.Digest: the same with the threshold of 240 bytes.
- Streaming.HashPieces: totals and secret sizes below 2^64, the range of the original's length types.
- External secrets are values: a caller who changes the bytes behind the pointer after a reset is outside the model.
- The stack copy of the lanes in the streaming update, alignment checks, allocation, freeing and copying of states.
- The AVX2, AVX-512, NEON, VSX, SVE, LSX, LASX and RVV kernels of XXH3; streaming holds for whatever they compute.
- XXH3_generateSecret and its seeded variant, and claims about the quality of the hashes.
- MurmurHash3 takes its length as a signed int; the model takes any length modulo the word size, which agrees on all lengths an int can hold.
- The AES tables are packed sixteen bytes to a word; key expansion (_mm_aeskeygenassist_si128) and the variants on ARM crypto extensions are not modelled.
- CRC-32C without its initial and final complement, as the instruction computes it; the ARM CRC instructions are not modelled.
- The remaining wrappers of sse2neon.h, which are single intrinsics, rounding modes and string comparisons.
- The record keeps the five fields and four words of each unit as a slot object, not as rows of arrays that all units share.
- Packet decompression and how an order is chosen for a packet: the packet theorems hold for every order. Breakpoints and the compiler are not modelled.
- The handlers and decoders of the ALU and the memory unit; of the ALU only the flags of a comparison are modelled (src/ExecuteALU.cpp:859-881), the borrow as that of the numbers.
- The immediate handlers that only constant propagation introduces.
- Execute_Halt marks instruction memory for invalidation, which is not modelled. Signed products that overflow and shifts by the full width, which C leaves undefined, wrap and give 0.
