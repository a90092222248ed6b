# A verified model of the node's consensus core

A Dafny model of the parts of a Bitcoin node and miner on which consensus rests: the script interpreter and
its flags, the database of unspent outputs, the Merkle tree, 256-bit target arithmetic and the compact
difficulty format, SHA-256 in its streaming and fixed-length forms, the Bech32 address code, the wire format
of transactions, and the byte vector under every script. Code that computes by loops and updates is modelled
as methods and classes over arrays, maps and sequences, each proved equal to a specification function; the
properties the code is relied on for are then proved about those functions, for all inputs, all runs and all
reachable states.

`dafny verify dfyconfig.toml` checks the whole project. No file depends on anything outside it.

## The main results

* **VerifyScript is characterised for all scripts**, witnesses and admitted flags (`Payments.VerifyScriptIff`), and so
  is every witness program, of whatever version and length, bare and behind a script hash.
* **Every flag is a soft fork.** What `VerifyScript` accepts under a set of flags it accepts under every
  smaller set the verifier admits, with the same final stacks; for a set it does not admit, the flag assertion
  stops the run, and that is the only way out (`SoftFork`). The assertion in the P2SH path cannot fire.
* **The flat conditional machine is nested evaluation.** A script of admissible size succeeds exactly when it is
  the flattening of a tree of nested conditionals that evaluates successfully, with the same stacks and the
  same limits in skipped branches (`Conditionals`).
* **CHECKMULTISIG's single greedy pass is complete**: it succeeds exactly when some order-preserving assignment of
  keys to signatures exists (`Multisig`). Signature checks are bounded by the accurate signature-operation count
  of the script and by 201 in every run, successful or not; stacks stay within 1000 elements of 520 bytes
  (`SigBudget`).
* **Each standard output is spent exactly as its kind says**: key hash, script hash, witness key hash, witness script
  hash, key and multisig each have an if-and-only-if for every input, witness and admitted flag set (`Payments`,
  `MultisigPayments`, `KeyPayments`), as has every lock by a digest (`HashLocks`). A signature behind a code separator
  covers what follows it, because a run from there on is the run of the rest alone (`Separators`). Each signature has
  one strict encoding (`SignatureEncoding`).
* **Scripts compute**: every arithmetic expression with conditionals compiles to a script that leaves its value, or
  fails for an operand out of range or a limit exceeded (`Expressions`, `ExpressionLimits`); VERIFY variants are
  their opcodes followed by VERIFY, and a script that succeeds has no disabled opcode anywhere (`OpcodeLaws`); the
  stack opcodes are words over three primitives (`StackWords`); a lock passes exactly when it is open (`TimeLocks`);
  the tests on script bytes follow from their first instruction (`ScriptLaws`).
* **A transaction or block is accepted exactly when it stands**: the conditions are said without the checks, in sums of
  amounts and lists of what is spent (`LedgerAccepts`), and the methods that check and connect are proved against
  them (`LedgerStore`).
* **The ledger's invariant survives a run of checked blocks if and only if every coinbase is new**: no output is spent
  twice, nothing is connected twice, every entry resolves, exactly the unspent outputs are usable (`LedgerSafety`).
  Nothing in the code checks that a coinbase is new. In any run of checked blocks an output spent twice belongs to a
  transaction connected twice (`LedgerDoubleSpend`), and a run of blocks that all pass does spend one twice
  (`LedgerExamples`). Every input ever connected was authorised by the output it spends (`LedgerSpends`), each
  transaction lowers the total unspent value by exactly its fee (`LedgerValue`), no 64-bit sum overflows
  (`LedgerStore`), and the 32-bit count of signature operations is exact within the block size (`LedgerSigOps`).
  Disconnecting the transactions in any order restores the database exactly (`LedgerUndo`).
* **Merkle roots commit**: two different duplicate-free lists with equal roots exhibit two different pairs with one
  hash in their trees, or a leaf of one that is a node hash of the other, whatever the hash function. With a repeated
  leaf this fails (`Merkle`).
* **Limb arithmetic is arithmetic modulo 2^256**, long division included, with one exception that is stated
  exactly: `x *= x` clears `x` before reading it and yields zero (`Limbs`, `ArithUint256`).
* **The compact format** decodes to mantissa times 256^(exponent - 3), its overflow flag is exact, encoding rounds
  down and is idempotent, and a word survives decoding and encoding exactly when it is canonical
  (`CompactTarget`). The retargeting clamp is right exactly when the clock did not run backwards, because it
  compares unsigned, and the 256-bit product of a retarget can wrap (`ProofOfWork`); retargeting is switched off as
  the program is compiled.
* **The unrolled SHA-256 rounds are the standard's**: the renamed variables and the sixteen words updated in place
  compute section 6.2 of FIPS 180-4 (`Sha256Cpu`). However a message is cut into writes, the digest is the hash
  of the whole, and the miner's two-block form of a header's double hash agrees with it (`Sha256Stream`). The digest
  of "abc" is proved to be the published one (`Sha256Examples`).
* **The Bech32 checksum detects any three substituted symbols within 1023, any four within 89, and any change within
  six consecutive ones**, the last at any length. The proof evaluates the checksum polynomial at three consecutive
  roots in the field of 1024 elements, whose arithmetic and generator order are proved from scratch (`GF1024`,
  `GF1024Order`, `Bech32Code`, `Bech32Errors`). For four errors it takes the 32nd power of the terms: the symbols drop
  out, and what is left is three congruences modulo 33 between the distances of the errors, which no distances up to
  88 satisfy together (`Bech32Classes`, `Bech32Distances`, `Bech32Residues`, `Bech32Clash`, `Bech32Four`). A text
  decodes exactly when its lower-case form is the encoding of the result (`Bech32Text`), and a text is accepted as an
  address exactly when it is the address of the destination it is read as; replace one to four of its characters, or
  any within six in a row, and it is no address (`Bech32Typos`, `Address`). The miner's own address and the first one
  of BIP 173 are read letter by letter (`AddressExamples`).
* **A transaction is read back from its own bytes exactly when it has an input or no output**; an accepted byte
  string is the one the writer produces exactly when its extended form carries flag 1 and a stack that is not empty,
  and both kinds of failure are exhibited; the bytes hashed to the id determine everything but the witness (`TxWire`).
  Where each byte of a written transaction comes from is given for every transaction (`TxLayout`).

## Reading guide

`Bytes`, `Bits` and `Limbs` hold byte strings, powers of two and limb sequences. `Script` and `Interpreter` define
the machine as functions; `InterpreterLoop` has its loops as methods. `Ledger` defines the database operations
and checks as functions on maps; `LedgerStore` has the class that performs them. `Sha256` is the standard's
definition; `Sha256Cpu` and `Sha256Stream` are the program's. `Serialize` has readers and writers that are
one-to-one and are combined into `TxWire`.

Signature, hash and lock-time checks of the interpreter are pure functions given as parameters, so every result
about scripts holds for every implementation of them. Transaction ids and block header checks are parameters of
the ledger in the same way; `CollisionFree` asks, of the transactions of one run only, that equal ids mean equal
inputs, and `LedgerExamples` has a run that meets it and every other assumption. The node hash of the Merkle tree is
a parameter with no assumption on it.

## Where the code differs from what it says

* `operator*=` on a number and itself (`arith_uint256.cpp:70-84`) gives zero: `ArithUint256.BaseUint.MulAssign` states
  when the product rule holds, and `ArithUint256.SquareInPlace` shows a failure.
* `CalculateNextWorkRequired` clamps with an unsigned constant (`blockchain.h:1490-1494`): a negative interval becomes
  the longest, not the shortest (`ProofOfWork.LimitedSpanClamps`); with the regression-test limit the product wraps
  (`ProofOfWork.RetargetWraps`). Both stand behind `s_PowNoRetargeting`, a constant that is true
  (`blockchain.h:879`, `blockchain.h:1486`), so this branch does not execute as compiled.
* The transaction reader accepts superfluous witness flags and unknown flags, the latter as a transaction without
  inputs and outputs (`tx.h:341-372`): `TxWire.AcceptedIff` says on the bytes exactly when an accepted string is
  canonical, and `TxWire.UnknownFlagExample`, `TxWire.SuperfluousExample` and `TxWire.OutputAloneExample` are one
  failure of each kind.
* A repeated coinbase id is accepted (`blockchain.h:1331-1368`): `LedgerSafety.BlockKeepsInv` says that the invariant is
  then lost, `LedgerSafety.CoinbaseRevives` which spent outputs become usable again, and
  `LedgerExamples.DoubleSpendExample` is a run of passing blocks that spends one output twice.
* `ComputeMerkleRoot` looks for equal neighbours only once it has found some (`block.cpp:90-98`), so it never reports a
  mutated list; `Merkle.ComputeMerkleRoot` states that. What keeps `Merkle.RepetitionBreaksCommitment` out of a block
  is the check for repeated ids (`blockchain.h:1331-1372`).
* `SerializeScriptCode` announces more bytes than it writes when the script ends in a push whose length bytes or data
  are begun and cut short (`script/interpreter.cpp:1113-1132`): `ScriptCode.SerializeScriptCode` says exactly when,
  `ScriptCode.TruncatedExample` shows one.

## Model

| member | source | states |
|---|---|---|
| ScriptNum.MinimalIffCanonical | script/script.h:223-248 | a vector passes the minimal test if and only if it equals the serialization of the number it decodes to |
| ScriptNum.DecodeOfEncode | script/script.h:325-374 | decoding a serialized number gives the number back, for every integer |
| ScriptNum.Serialize | script/script.h:325-357 | the loop over the absolute value produces the minimal sign-and-magnitude encoding |
| ScriptNum.SetVch | script/script.h:359-374 | the loop that ors bytes together and strips the sign bit computes the decoded number |
| ScriptLaws.NumberFirst | script/script.h:359-374 | a byte in front of a number counts one and the number 256 times as much, with the sign in the top bit of the last byte |
| Script.GetOpOfPush | script/script.cpp:279-329 | reading a pushed vector anywhere in a script returns it and consumes exactly its encoding |
| ScriptLaws.PushLayout | script/script.h:462-488 | a push is the length itself up to 75, then 76, 77 or 78 with one, two or four length bytes, lowest first |
| ScriptLaws.PushEval | script/interpreter.cpp:345-349 | a push of up to 520 bytes leaves its data unless minimal pushes are asked for and it is not the builder's push or has an opcode of its own |
| ScriptLaws.PushOnlyFirst | script/script.cpp:232-252 | a first instruction keeps a script push-only exactly when it is at most 0x60 |
| ScriptLaws.UnreadableIsNotPushes | script/script.cpp:232-252 | a script that cannot be read is not push-only |
| Script.FindAndDelete | script/interpreter.cpp:254-280 | the two-cursor loop deletes every copy at an instruction boundary, and shortens the script by exactly the copies found |
| Script.DeleteKeepsScript | script/interpreter.cpp:254-280 | nothing found leaves the script unchanged |
| ScriptLaws.CopyIsDeleted | script/interpreter.cpp:254-280 | a copy in front is deleted and the rest treated alone |
| ScriptLaws.OtherIsKept | script/interpreter.cpp:254-280 | an instruction in front that begins no copy is kept and the rest treated alone |
| ScriptLaws.UnreadableIsKept | script/interpreter.cpp:254-280 | what cannot be read is kept |
| Script.GetSigOpCount | script/script.cpp:149-171 | the counting loop equals the recursive count, stopping at the first unreadable instruction |
| ScriptLaws.RoughCountFirst | script/script.cpp:149-171 | a first instruction adds one for CHECKSIG and its variant, twenty for CHECKMULTISIG and its variant, nothing otherwise |
| ScriptLaws.AccurateFirst | script/script.cpp:149-171 | accurately counted, CHECKMULTISIG adds the small number before it |
| ScriptLaws.MultisigCounts | script/script.cpp:149-171 | a multisig script of n keys counts n accurately and 20 otherwise |
| Pushes.PushIsMinimal | script/interpreter.cpp:229-252 | a pushed vector is minimally pushed if and only if it is not a one-byte value with an opcode of its own |
| Pushes.PushedNumberEvaluates | script/script.h:394-409 | push_int64 of any number but the minimum evaluates, under every flag set, to the number's serialization on the stack |
| InterpreterLoop.TestTruth | script/interpreter.cpp:36-48 | the scan of an element decides its truth, negative zero included |
| SmallScripts.TruthIsNonzero | script/interpreter.cpp:36-48 | an element is true exactly when it is not zero as a number |
| InterpreterLoop.StripAll | script/interpreter.cpp:991-1000 | the loop over stack positions deletes every signature's push from the code |
| InterpreterLoop.MatchLoop | script/interpreter.cpp:1002-1030 | the index loop over the stack never leaves it and equals the recursive matching of signatures to keys |
| InterpreterLoop.PopArguments | script/interpreter.cpp:1032-1040 | popping the arguments checks exactly the signature elements for emptiness and leaves what lies below them |
| InterpreterLoop.RunMultisig | script/interpreter.cpp:957-1064 | the whole opcode after its counts were read; the late test for an empty stack cannot succeed |
| InterpreterLoop.EvalScript | script/interpreter.cpp:282-1085 | the main loop equals the recursive run of the machine, with every limit and error; the laws of HashLocks, KeyPayments, Separators, SmallScripts, StackWords, Expressions, TimeLocks and ScriptLaws say what the opcodes do |
| SoftFork.EvalIsSoft | script/interpreter.h:31-35 | a successful evaluation ends in the very same state under any smaller flag set |
| SoftFork.WitnessIsSoft | script/interpreter.cpp:1420-1471 | a witness accepted under a flag set is accepted under any smaller one |
| SoftFork.VerifyScriptIsSoft | script/interpreter.cpp:1473-1597 | what is accepted under a flag set is accepted under every smaller set that is admitted, and aborted by the flag assertion under every other |
| Verify.ScriptHashNeedsArgument | script/interpreter.cpp:1526-1544 | a pay-to-script-hash output fails on an empty stack |
| Verify.AssertsHold | script/interpreter.cpp:1526-1594 | the assertion on a non-empty stack never fires, and the flag assertions fire only on sets that are not well formed |
| Payments.VerifyScriptIff | script/interpreter.cpp:1473-1597 | for any two scripts, witness and admitted flags: accepted exactly when both runs succeed with a true top and the witness program takes the witness, or the pushed script redeems, or nothing is left over where the flags ask for that |
| Payments.ProgramShape | script/script.cpp:216-230 | a script is a witness program exactly when it is a version opcode 0 to 16 and one push of 2 to 40 bytes |
| Payments.ScriptHashOutputShape | script/script.cpp:197-204 | a script is pay-to-script-hash exactly when it is HASH160, a push of 20 bytes and EQUAL |
| Payments.PayToProgramIff | script/interpreter.cpp:1420-1547 | a witness program of any version and length as output: under WITNESS spent exactly by an empty script and a witness it takes, where version 0 takes none for lengths other than 20 and 32 and later versions take any unless discouraged; without WITNESS by any script that leaves room |
| Payments.UnknownProgram | script/interpreter.cpp:1445-1453 | the error for a version-0 program of another length and for a discouraged version, and acceptance of a later version otherwise |
| Payments.PayToNestedProgramIff | script/interpreter.cpp:1526-1568 | the same for a program of any version and length behind a script hash |
| Multisig.GreedyIsComplete | script/interpreter.cpp:1002-1030 | the greedy pass succeeds if and only if an order-preserving injection of signatures into keys exists with every check true |
| Multisig.CleanEncodingsMatch | script/interpreter.cpp:1011-1014 | with no failing encoding the pass is never refused |
| Multisig.MatchedIff | script/interpreter.cpp:1002-1030 | the pass is refused if and only if a pair it tries is badly encoded; signature i is tried with key j when the keys before j serve exactly the signatures before i and enough keys are left |
| Multisig.MultisigMeaning | script/interpreter.cpp:957-1064 | both opcodes consume exactly keys + signatures + 3 elements and push, or demand, that an assignment exists for the stripped code |
| Conditionals.FlatRefinesNested | script/interpreter.cpp:307-349 | running the bytes of a nested program gives the outcome its nesting denotes, with all limits enforced in skipped branches |
| Conditionals.SuccessIsNested | script/interpreter.cpp:469-508 | a run that succeeds has read a well-nested program |
| Conditionals.SuccessIffNested | script/interpreter.cpp:1077-1082 | a script succeeds if and only if it is the flattening of a nested program that does |
| ExpressionLimits.ExpressionEvaluates | script/interpreter.cpp:776-877 | the script compiled from any arithmetic expression with conditionals leaves the expression's value under every flag set, fails with an unknown error when an operand that matters leaves four bytes, and fails when its size, its opcode count or the stack it needs is over the limit |
| Expressions.DeadRun | script/interpreter.cpp:345-350 | a compiled expression in a branch not taken changes nothing but the opcode count |
| Expressions.ReadBackIff | script/script.h:223-248 | a number's own encoding is read back within a size if and only if its magnitude leaves the sign bit free |
| StackWords.OpcodeIsDefined | script/interpreter.cpp:552-728 | thirteen stack opcodes equal their definitions by copy, bring-up and discard, and fail exactly when those do |
| StackWords.DepthFromStack | script/interpreter.cpp:680-696 | PICK and ROLL copy or bring up the depth on top of the stack, with every way they fail |
| StackWords.TurnsReturn | script/interpreter.cpp:600-717 | two swaps, three rotations, two pair swaps and three pair rotations restore the stack |
| StackWords.AltRoundTrip | script/interpreter.cpp:534-550 | what goes to the alternate stack comes back |
| StackWords.DepthReachesBottom | script/interpreter.cpp:634-640 | DEPTH, 1SUB, ROLL brings up the bottom element |
| StackWords.SizeAndIfDup | script/interpreter.cpp:623-740 | SIZE pushes the length as a readable number and keeps the element; IFDUP copies exactly a true one |
| TimeLocks.LockEval | script/interpreter.cpp:388-459 | a whole locking script is ignored without its flag and otherwise passes if and only if its five-byte argument is not negative and its lock is open |
| Payments.PayToKeyHashIff | script/interpreter.cpp:1473-1597 | a key-hash output is spent if and only if the input leaves a signature that checks and a key with that hash |
| Payments.PayToScriptHashIff | script/interpreter.cpp:1526-1568 | a script-hash output is spent if and only if the input only pushes and ends in a script with that hash which accepts, nested witness programs included |
| Payments.PayToWitnessKeyHashIff | script/interpreter.cpp:1420-1471 | a witness key-hash output is spent if and only if the program is not zero and the witness is a signature that checks and a key with that hash |
| Payments.PayToWitnessScriptHashIff | script/interpreter.cpp:1420-1471 | a witness script-hash output is spent if and only if the program is not zero and the last witness element hashes to it and accepts the others |
| Payments.SignedCode | script/interpreter.cpp:915-934 | the code a key-hash signature covers is the script itself, unless the signature repeats the hash |
| MultisigPayments.PayToMultisigIff | script/standard.cpp:305-312 | a multisig output is spent if and only if the input leaves a dummy and signatures assignable in order to the keys, where every pair tried follows the encoding rules |
| MultisigPayments.PayToWitnessMultisigIff | script/interpreter.cpp:1420-1471 | the same behind a witness script hash, with exactly dummy, signatures and script as witness |
| MultisigPayments.MultisigCompletesIff | script/interpreter.cpp:957-1064 | on any stack and under any flags both opcodes complete exactly when the counts are in range, the pairs tried follow the rules, the dummy is empty under NULLDUMMY, and without an assignment the opcode is the plain one with empty signatures under NULLFAIL |
| KeyPayments.PayToPubKeyIff | script/interpreter.cpp:915-947 | an output to a key is spent exactly by a signature for it over the output script without that signature's push |
| KeyPayments.CodeOf | script/interpreter.cpp:925-934 | a witness signature covers the code as it is; before segwit its own pushes are deleted, which a constant script code refuses |
| KeyPayments.PayAfterSeparatorIff | script/interpreter.cpp:905-947 | behind a code separator the signature covers CHECKSIG alone; constant script code forbids it |
| KeyPayments.PayToRefusalIff | script/interpreter.cpp:936-947 | CHECKSIG NOT is satisfied exactly by a signature that follows the rules and does not check, under NULLFAIL only by the empty one |
| HashLocks.HashLockIff | script/interpreter.cpp:879-903 | an output of RIPEMD160, SHA1, SHA256, HASH160 or HASH256, a digest and EQUAL is spent exactly by an input that leaves an element with that digest |
| HashLocks.WitnessHashLockIff | script/interpreter.cpp:879-903 | the same behind a witness script hash |
| Separators.RunMoves | script/interpreter.cpp:905-913 | a run past a prefix, with its code past it, does what the rest does alone |
| Separators.SeparatorStarts | script/interpreter.cpp:905-913 | what follows an executed separator runs as if it were the whole script |
| Separators.OnlySeparatorsMove | script/interpreter.cpp:905-913 | no other opcode, and no separator in a branch not taken, moves the start of the code |
| SmallScripts.ChoiceEval | script/interpreter.cpp:469-508 | IF takes its first arm exactly on a true condition and NOTIF on a false one; under MINIMALIF only the empty element and the byte 1 are conditions |
| SmallScripts.NopEval | script/interpreter.cpp:385-467 | NOP does nothing; NOP1 and NOP4 to NOP10 do nothing unless discouraged |
| SmallScripts.OpcodeKinds | script/interpreter.cpp:323-338 | exactly fifteen opcodes fail as disabled, and exactly the undefined ones as bad |
| SmallScripts.StackLimit | script/interpreter.cpp:1071-1074 | one more element fits below a thousand |
| SmallScripts.ScriptLimit | script/interpreter.cpp:300-301 | a script is looked at up to 10000 bytes |
| SignatureEncoding.ValidIff | script/interpreter.cpp:108-171 | a signature passes if and only if it is the strict encoding of two canonical integers and a hash type |
| SignatureEncoding.EncodingIsUnique | script/interpreter.cpp:98-107 | two passing encodings with the same hash type are equal if and only if their numbers are |
| SignatureEncoding.RulesIff | script/interpreter.cpp:190-227 | a signature and a key pass the encoding checks if and only if each follows the rules the flags impose |
| OpcodeLaws.VariantIsThenVerify | script/interpreter.cpp:744-773 | each of the four VERIFY variants is its opcode followed by VERIFY, except for the name of the error |
| OpcodeLaws.SuccessIsClean | script/interpreter.cpp:307-350 | a run that succeeds has read the whole script, which holds no disabled opcode, no VERIF and no push over 520 bytes, executed or not |
| OpcodeLaws.UnspendableIsNeverSpent | script/script.h:558-561 | an output that begins with RETURN or is longer than 10000 bytes is never spent |
| ScriptCode.SerializeScriptCode | script/interpreter.cpp:1111-1132 | the script without its code separators; the announced size is the written one if and only if what cannot be read is nothing, an opcode alone, or a push with all its length bytes and no data |
| ScriptLaws.KeptFirst | script/interpreter.cpp:1111-1132 | a first instruction is written unless it is a separator |
| ScriptCode.TruncatedExample | script/interpreter.cpp:1111-1132 | a push cut short: two bytes announced, one written |
| SigBudget.SignatureChecksAreBudgeted | script/script.cpp:149-171 | signature checks in any run are at most the accurate count of the script and at most 201 |
| SigBudget.RunStaysWithin | script/interpreter.cpp:1071-1074 | after every completed instruction of any run both stacks hold at most 1000 elements of at most 520 bytes |
| LedgerSafety.ConnectKeepsInv | blockchain.h:464-482 | connecting an applicable transaction keeps: no double spend, no repetition, every entry resolves, exactly the unspent outputs are unused |
| LedgerSafety.CheckedIsFresh | blockchain.h:976-1244 | a transaction that passes its checks was never connected before, unless its id collides with one that was |
| LedgerSafety.BlockKeepsInv | blockchain.h:1276-1294 | a checked block, all of whose checks ran against the state before it, keeps the invariant if and only if its coinbase id is new, as long as no ids of the history and the block collide |
| LedgerSafety.CoinbaseRevives | blockchain.h:464-482 | connecting a coinbase makes every output under its id usable, and of the spent outputs makes exactly those usable |
| LedgerSafety.LedgerIsSafe | blockchain.h:1297-1368 | after any run of checked blocks without colliding ids no output was spent twice, no transaction connected twice and every entry resolves to an output in range, if and only if every coinbase was new |
| LedgerSafety.GenesisIsSafe | blockchain.h:1276-1294 | the unchecked genesis block starts such a run |
| LedgerDoubleSpend.DoubleSpendsAreRepeats | blockchain.h:1276-1368 | in any run of checked blocks, whatever the ids, an output spent twice belongs to an id connected twice |
| LedgerDoubleSpend.NoRepeatNoDoubleSpend | blockchain.h:1276-1368 | so a run that repeats no id spends nothing twice |
| LedgerExamples.SafeRunExample | blockchain.h:976-1368 | concrete rules and a run with a spend that meet every assumption of the run theorems |
| LedgerExamples.DoubleSpendExample | blockchain.h:1331-1368 | genesis coinbase, spent once mature, repeated and spent again: every block passes, no ids collide, and an output is spent twice |
| LedgerSpends.SpendsWereAuthorised | blockchain.h:1087-1196 | over any run of checked blocks every input of every transaction but the coinbase spends an output from before its block, whose script agreed and which was mature |
| LedgerSpends.SpendsAreAuthorised | blockchain.h:1087-1196 | with new coinbases and no colliding ids the final index still holds that output |
| LedgerValue.FeesAreExact | blockchain.h:1192-1243 | each transaction lowers the total unspent value by exactly its fee, the one computed before the block and in the money range unless outputs under the coinbase's own id are spent |
| LedgerValue.BlockConservesValue | blockchain.h:1276-1294 | a block raises the total by the coinbase outputs less the fees and less what was unspent under the coinbase's id, which is nothing for a new coinbase |
| LedgerValue.CoinbaseValue | blockchain.h:464-482 | a coinbase, new or not, raises the total by its outputs less what it overwrites |
| LedgerUndo.CacheAllForm | blockchain.h:464-482 | the database after any prefix of connected transactions, entry by entry |
| LedgerUndo.DisconnectUndoesConnect | blockchain.h:484-501 | disconnecting the transactions in any order restores the database exactly |
| LedgerStore.CheckShape | blockchain.h:1331-1368 | the loop with two sets and a count accepts exactly distinct ids, one leading coinbase, inputs distinct over the block and few signature operations |
| LedgerAccepts.TxOkIff | blockchain.h:976-1244 | a transaction passes exactly when it is a coinbase of 2 to 100 script bytes, or different inputs each unused, known, mature and authorised cover one output or more, all in the money range; the fee is the difference |
| LedgerAccepts.BlockOkIff | blockchain.h:1248-1368 | a block passes exactly when such a coinbase comes first and such payments follow, with different ids and nothing spent twice |
| LedgerStore.CountSigOps | tx.h:501-510 | the two loops count the signature operations of a transaction modulo 2^32 |
| LedgerSigOps.LimitIsExact | blockchain.h:1363-1367 | the 32-bit test after each transaction is the limit of 20000 on the true count unless one transaction has nearly 2^30 |
| LedgerSigOps.BlocksDoNotWrap | blockchain.h:1363-1367 | scripts of a million bytes per transaction, the block limit, keep the test exact |
| LedgerStore.BlockChain.CacheUTXO | blockchain.h:464-482 | the stored map becomes the connected one |
| LedgerStore.BlockChain.UnCacheUTXO | blockchain.h:484-501 | the stored map becomes the disconnected one |
| LedgerStore.BlockChain.SumOutputs | blockchain.h:1016-1036 | the running sum of outputs stays in 64 bits and is rejected exactly when a value or the sum leaves the money range |
| LedgerStore.BlockChain.SumInputs | blockchain.h:1166-1196 | the running sum of inputs stays in 64 bits and is rejected exactly when a value or the sum leaves the money range |
| LedgerStore.BlockChain.CheckTransaction | blockchain.h:976-1244 | accepts exactly the coinbases and payments that stand, said without the checks, with the difference of claims and payments as fee |
| LedgerStore.BlockChain.CheckTransactions | blockchain.h:1248-1273 | every transaction is checked against the state before the block |
| LedgerStore.BlockChain.ProcessTransactions | blockchain.h:1276-1294 | index and database become the processed ones |
| LedgerStore.BlockChain.AcceptBlock | blockchain.cpp:201-224 | on the longest chain a block is connected if and only if it is a standing coinbase followed by standing payments, and otherwise nothing changes |
| Merkle.ComputeMerkleRoot | block.cpp:87-131 | the in-place level loop computes the recursive root; the mutation flag is never set |
| Merkle.RootIsTreeRoot | block.cpp:87-131 | the level-by-level root is the root of the binary tree with the last element doubled |
| Merkle.SmallRoots | block.cpp:87-131 | left before right, and an odd one with itself |
| Merkle.EqualRootsNest | block.cpp:87-131 | of two duplicate-free lists with equal roots one is a level of the other's tree, or two different pairs of the trees have one hash |
| Merkle.RootCommits | blockchain.h:1331-1372 | two different duplicate-free lists with equal roots exhibit a colliding pair of their trees or a first leaf that is a node hash of the other tree, for every node hash function |
| Merkle.RepetitionBreaksCommitment | block.cpp:87-131 | doubling the last of three leaves keeps the root |
| Limbs.MulAddMod | arith_uint256.cpp:70-84 | the carry chain of limbs computes the sum and product modulo the width; partial sums stay in 64 bits |
| Limbs.ShiftLeftValue | arith_uint256.cpp:24-39 | shifting limbs left by any amount multiplies by a power of two modulo the width |
| Limbs.ShiftRightValue | arith_uint256.cpp:41-56 | shifting limbs right by any amount divides by a power of two |
| Limbs.NegateValue | arith_uint256.h:83-90 | complement and increment negate modulo the width |
| ArithUint256.BaseUint.AddAssign | arith_uint256.h:141-151 | addition modulo 2^256, also onto itself |
| ArithUint256.BaseUint.PlusPlus | arith_uint256.h:179-186 | the carry runs through full limbs only |
| ArithUint256.BaseUint.Negate | arith_uint256.h:83-90 | unary minus modulo 2^256 |
| ArithUint256.BaseUint.SubAssign | arith_uint256.h:153-157 | subtraction modulo 2^256 |
| ArithUint256.BaseUint.ShiftLeftAssign | arith_uint256.cpp:24-39 | the value times 2^shift modulo 2^256 |
| ArithUint256.BaseUint.ShiftRightAssign | arith_uint256.cpp:41-56 | the value divided by 2^shift |
| ArithUint256.BaseUint.MulAssign32 | arith_uint256.cpp:58-68 | the product with a 32-bit number modulo 2^256 |
| ArithUint256.BaseUint.MulAssign | arith_uint256.cpp:70-84 | the product modulo 2^256 if and only if the factor is another object or the product is zero; zero otherwise |
| ArithUint256.SquareInPlace | arith_uint256.cpp:70-84 | one multiplied by itself in place is zero |
| ArithUint256.BaseUint.CompareTo | arith_uint256.cpp:112-122 | the sign of the difference of the values |
| ArithUint256.BaseUint.EqualTo | arith_uint256.cpp:124-136 | equality with a 64-bit number |
| ArithUint256.BaseUint.Bits | arith_uint256.cpp:174-187 | the position above the highest bit set |
| ArithUint256.BaseUint.DivRound | arith_uint256.cpp:100-107 | one round keeps quotient times divisor plus remainder and halves the bound on the remainder |
| ArithUint256.BaseUint.DivAssign | arith_uint256.cpp:86-110 | the floor of the quotient; division by zero is refused with the target already cleared |
| CompactTarget.SetCompact | arith_uint256.cpp:207-225 | the decoded number modulo 2^256, its sign flag, and an overflow flag set exactly when it does not fit |
| CompactTarget.OverflowTest | arith_uint256.cpp:221-223 | the three-way size test decides whether mantissa times 256^(size - 3) reaches 2^256 |
| CompactTarget.GetCompact | arith_uint256.cpp:227-248 | the leading bytes with size and sign; both assertions hold on every number |
| CompactTarget.EncodedDecodes | arith_uint256.cpp:207-248 | decoding an encoding never overflows or turns negative, differs only below the mantissa, and encodes the same |
| CompactTarget.RoundTripIffCanonical | arith_uint256.cpp:207-248 | a word survives decoding and encoding if and only if it is canonical |
| ProofOfWork.UintToArith256 | arith_uint256.cpp:257-263 | the little-endian number of the bytes |
| ProofOfWork.CheckProofOfWork | blockchain.h:1517-1542 | accepts exactly when the sign bit is clear, mantissa times 256^(exponent - 3) is positive and within the limit, and the hash is at most that |
| ProofOfWork.LimitedSpanClamps | blockchain.h:1489-1494 | the interval is clamped to a quarter and four times the timespan if and only if it is not negative |
| ProofOfWork.RetargetIffFits | blockchain.h:1496-1504 | the new target is the scaled and capped one if and only if the product fits or what wraps still reaches the cap |
| ProofOfWork.RetargetIsLimited | blockchain.h:1488-1504 | a retarget that does not wrap moves the target by at most a factor of four |
| ProofOfWork.RetargetWraps | blockchain.h:1496-1504 | with the regression-test limit, blocks at half speed divide the target instead of doubling it |
| ProofOfWork.CalculateNextWorkRequired | blockchain.h:1483-1507 | the bits of the capped, scaled target, or the old ones without retargeting |
| ProofOfWork.EncodedTargetIsUsable | blockchain.h:1517-1542 | the bits of a positive target within the limit are accepted, and are never easier than the target |
| Sha256.ZeroBytesIsLeast | sha256_cpu.cpp:552-557 | the padding is the shortest that leaves room for the length, as section 5.1.1 of FIPS 180-4 asks |
| Sha256Cpu.BitFunctionsAgree | sha256_cpu.cpp:14-24 | the selections and shifts equal the functions of section 4.1.2 of FIPS 180-4 |
| Sha256Cpu.RoundIsStep | sha256_cpu.cpp:26-34 | a round on renamed variables is a step that moves them |
| Sha256Cpu.EightRounds | sha256_cpu.cpp:54-61 | eight rounds on rotating names are eight steps, after which the names are in place again |
| Sha256Cpu.NextWord | sha256_cpu.cpp:71-124 | updating a word in place continues the 64-word schedule |
| Sha256Cpu.TransformBlock | btc_sha256_gpu.cpp:484-567 | one pass of the transform is the compression function of section 6.2.2 of FIPS 180-4 |
| Sha256Cpu.Transform | sha256_cpu.cpp:49-132 | consecutive blocks are folded into the state |
| Sha256Stream.Sha256Hasher.Write | sha256_cpu.cpp:527-550 | the state has folded the whole blocks written so far and the buffer holds the rest, for every cut of the input |
| Sha256Stream.Sha256Hasher.Finalize | sha256_cpu.cpp:552-566 | the digest of the padded message |
| Sha256Stream.Sha256Hasher.Reset | sha256_cpu.cpp:568-572 | nothing is written |
| Sha256Stream.DoubleHash256.Finalize | hash.h:56-60 | the hash of the hash of what was written |
| Sha256Stream.HashPieces | hash.h:49-70 | however a message is cut into pieces, its double hash is that of the whole |
| Sha256Stream.PadBlockHeaderData | btc_sha256_gpu.cpp:243-256 | the buffer holds the padded 80-byte header |
| Sha256Stream.HashTest | btc_sha256_gpu.cpp:569-607 | on the padded buffer the two-block form equals the double hash of the header |
| Sha256Examples.AbcDigest | sha256_cpu.cpp:26-132 | the hash of the three bytes abc is the one NIST publishes for FIPS 180-4 |
| Bech32Code.StepLinear | keyio.cpp:52-107 | a checksum step is linear in word and symbol |
| Bech32Code.ConstantsAreMultiples | keyio.cpp:101-105 | each of the five constants is, group by group, a times the one before in the field of 32 elements |
| Bech32Code.EvalStep | keyio.cpp:76-105 | at a root of the generator a step multiplies by the root and adds the symbol |
| Bech32Errors.DetectsThreeErrors | keyio.cpp:53-65 | changing one to three symbols, no two more than 1022 apart, always changes the checksum |
| Bech32Four.DetectsFourErrors | keyio.cpp:61-64 | changing one to four symbols, no two more than 88 apart, always changes the checksum |
| Bech32Four.PairIsEqual | keyio.cpp:58-64 | of four terms that cancel at three consecutive roots, any two agree after multiplication by their factors' sums with the other two |
| Bech32Classes.ClassIsUnique | keyio.cpp:58-64 | a nonzero field element has one class modulo 33, the power of e^31 by which raising to the 32nd power multiplies it |
| Bech32Distances.ClassOfGap | keyio.cpp:58-64 | the class of 1 + e^n for every distance n up to 88 |
| Bech32Residues.NoCongruences | keyio.cpp:58-64 | no three distances up to 88 satisfy the three congruences that four cancelling terms imply |
| Bech32Errors.DetectsBursts | keyio.cpp:52-107 | any change confined to six consecutive symbols changes the checksum |
| Bech32.Round | keyio.cpp:91-105 | a round on the 32-bit variable and any byte, its conditional xors one after another, is a step on a 30-bit word |
| Bech32.PolyMod | keyio.cpp:52-108 | the word after feeding in every byte, which never leaves 30 bits |
| Bech32.ValuesAreSymbols | keyio.cpp:52-108 | on five-bit values it is the run of the code over their symbols |
| Bech32.ExpandHrp | keyio.cpp:116-127 | high bits, zero, low bits |
| Bech32.VerifyChecksum | keyio.cpp:130-136 | accepts exactly the sequences that leave the word 1 |
| Bech32.CreateChecksum | keyio.cpp:139-149 | the six values of the checksum function |
| Bech32.ChecksumIsUnique | keyio.cpp:130-149 | six values complete a sequence to a valid one if and only if they are its checksum |
| Bech32.ThreeChangesDetected | keyio.cpp:130-136 | no sequence that differs from a valid one in one to three values within 1023 is valid |
| Bech32.FourChangesDetected | keyio.cpp:130-136 | no sequence that differs from a valid one in one to four values within 89 is valid |
| Bech32.BurstDetected | keyio.cpp:130-136 | no sequence that differs from a valid one within six consecutive values is valid |
| Bech32Text.Encode | keyio.cpp:152-165 | name, separator, values and checksum in the character set |
| Bech32Text.CharIsInAlphabet | keyio.cpp:35 | the character of a value is the one at that place of qpzry9x8gf2tvdw0s3jn54khce6mua7l |
| Bech32Text.RevIsPlace | keyio.cpp:38-47 | the entry of a byte is the place of its lower case in that string, or -1 |
| Bech32Text.Decode | keyio.cpp:169-200 | the loops accept exactly what the decoding function accepts |
| Bech32Text.DecodeIffEncode | keyio.cpp:152-200 | a text decodes to a pair if and only if its lower-case form is the encoding of that pair, in one case and within 90 characters |
| Bech32Text.RoundTrip | keyio.cpp:152-200 | every encoding of a printable lower-case name that fits decodes to what was encoded |
| Bech32Typos.TypoDetected | keyio.cpp:130-200 | a decodable text with one to four data characters replaced, or any within six in a row, by other characters than the separator never decodes |
| Bech32Typos.SeparatorTypo | keyio.cpp:169-200 | a data character replaced by a separator: the text fails or is read under a longer name |
| ConvertBits.Convert | utilstrencodings.h:154-174 | padded, the digits regrouped and filled with zero bits; unpadded, the whole groups, accepted if and only if what is left over is short of a digit and zero, which for wider digits means the input is such a regrouping with the result as its preimage |
| ConvertBits.RegroupingIsUnique | utilstrencodings.h:154-174 | a sequence has one regrouping |
| ConvertBits.RegroupingIsInjective | utilstrencodings.h:154-174 | regrouping to narrower digits is injective |
| Address.DecodeDestination | keyio.cpp:206-247 | the destination of the decoded name, version and program, or none |
| Address.AddressIff | keyio.cpp:206-247 | a text is read as a destination if and only if it is an address of it |
| Address.AddressMeans | keyio.cpp:219-244 | version 0 stands for a key hash of 20 bytes or a script hash of 32, versions 1 to 16 for programs of 2 to 40 bytes, anything else for nothing |
| AddressExamples.MinerAddress | peer_logic_man.h:201-203 | the miner's own address is read as a version-0 key hash, byte by byte |
| AddressExamples.PublishedAddress | keyio.cpp:169-200 | the first address of BIP 173 decodes to its name, version and program, and is refused for its name |
| AddressExamples.ShortText | keyio.cpp:169-200 | the shortest valid text of BIP 173, in upper case, decodes to the name a and no data |
| AddressExamples.MinerScript | script/standard.cpp:258-302 | the miner's script is 0, 20 and the key hash |
| Address.DestinationHasProgram | keyio.cpp:206-247 | every text read as a destination is the address of some version and program |
| Address.AddressTypo | keyio.cpp:206-247 | an address with one to four characters replaced anywhere, or any within six in a row, is no address: addresses of one length differ in at least five |
| Address.WitnessRoundTrip | script/standard.cpp:258-302 | from a witness program to its address, destination, script and back to the destination |
| Standard.FindMultisig | script/standard.cpp:91-107 | the scanning loop equals the recursive match |
| Standard.SolverRecoversMultisig | script/standard.cpp:109-172 | Solver recovers threshold and keys of every multisig script with 1 to 16 valid keys |
| ScriptLaws.SolverIff | script/standard.cpp:109-172 | key, key hash, script hash, witness and data outputs are recognised exactly in their one form |
| ScriptLaws.KeyDestination | script/standard.cpp:174-190 | an output to a key belongs to the hash of that key |
| ScriptLaws.MultisigIff | script/standard.cpp:91-107 | a script is an m-of-n template exactly when it is m, one push for each valid key, n and CHECKMULTISIG, for 1 <= m <= n <= 16 |
| Standard.ExtractOfScript | script/standard.cpp:174-216 | the script of a destination leads back to it |
| Standard.ScriptOfExtract | script/standard.cpp:174-216 | a script with a destination is that destination's script, unless it carries a whole key |
| VarInt.ReadOfEncoded | serialize.h:372-392 | a written number is read back with what follows untouched, for every value of the type |
| VarInt.AcceptedIsEncoded | serialize.h:372-392 | every accepted byte string starts with the one encoding of its number |
| VarInt.EncodedMeans | serialize.h:293-300 | the documented formula: the last byte plus 128 times the digits before it, each raised by one and marked |
| VarInt.DocumentedEncodings | serialize.h:308-313 | the eleven encodings the comment lists |
| VarInt.WriteVarInt | serialize.h:354-369 | the digits collected backwards are written in order and never overrun the buffer |
| VarInt.ReadVarInt | serialize.h:372-392 | the loop equals the recursive reader, overflow failures included |
| VarInt.GetSizeOfVarInt | serialize.h:337-348 | the length of the encoding |
| Serialize.SizeIsOneToOne | serialize.h:224-290 | sizes are read back, only canonical sizes up to the limit are accepted, and the length is as announced |
| TxLayout.SizeIs | serialize.h:235-258 | a size is one byte below 253, or 253, 254 or 255 and two, four or eight bytes, lowest first |
| Serialize.VectorIsOneToOne | serialize.h:684-739 | a vector of one-to-one elements is one-to-one |
| TxWire.WrittenIsRead | tx.h:321-401 | a transaction is read back with nothing left over, with its witness or, when none is written, without it |
| TxLayout.WriteIsLayout | tx.h:321-401 | every transaction is written as version, marker and flag if it has a witness, inputs, outputs, stacks and lock time, each byte given |
| TxLayout.InputOffsets | tx.h:152-154 | id at 0, index at 32, script size at 36, script, sequence, with the numbers as sums of byte times 256^i |
| TxLayout.OutputOffsets | tx.h:213-214 | eight bytes of value before the script |
| TxLayout.OneInOneOut | tx.h:321-401 | the whole of a transaction with one input and one output, with and without witness |
| TxLayout.ValidIff | tx.h:321-401 | the transactions with a wire form are exactly those within the widths of their fields and 2^25 elements |
| TxWire.RoundTripIff | tx.h:341-354 | with witnesses allowed a transaction is read back if and only if it has an input or no output |
| TxWire.OutputAloneExample | tx.h:341-354 | a valid transaction with an output and no input that is not read back |
| TxWire.AcceptedIff | tx.h:341-372 | an accepted byte string is the written one if and only if its extended form has flag 1 and not only empty stacks behind the outputs |
| TxWire.UnknownFlagAccepted | tx.h:345-372 | under any other flag byte every well-formed body is accepted and dropped, and is never what is written |
| TxWire.SuperfluousAccepted | tx.h:341-372 | flag 1 with only empty stacks is accepted as the transaction without witness, and is never what is written |
| TxWire.UnknownFlagExample | tx.h:345-372 | twelve bytes with flag 2 are accepted as an empty transaction |
| TxWire.SuperfluousExample | tx.h:341-372 | one input with flag 1 and an empty witness is accepted and not written so |
| TxWire.IdentityIgnoresWitness | tx.h:422-429 | the bytes hashed to the id are equal if and only if the transactions are equal up to witnesses |
| Prevector.Prevector.ChangeCapacity | prevector.h:166-195 | contents stay, and the size field tells which storage is live |
| Prevector.Prevector.Insert | prevector.h:372-397 | the contents with the bytes inserted |
| Prevector.Prevector.Erase | prevector.h:403-425 | the contents without the range, in the same storage |
| Prevector.Prevector.PushBack | prevector.h:427-434 | the contents with one byte more |
| Prevector.Prevector.Resize | prevector.h:328-343 | the contents cut off or filled with zeros |
| Prevector.Prevector.ShrinkToFit | prevector.h:351-353 | the contents in direct storage exactly when they fit |
| Prevector.Prevector.Assign | prevector.h:240-249 | the contents replaced |
| Prevector.Prevector.Swap | prevector.h:453-456 | contents and capacities change places, for an object with itself too |

## Left out

- Signatures, hashes and lock times inside scripts: CheckSig, the hash opcodes' functions, CheckLockTime and CheckSequence are parameters; of SignatureHash only SerializeScriptCode is modelled.
- The lax DER parser, key handling and everything in secp256k1; the low-S test is a parameter.
- Reorganisation, orphan blocks and candidate chains (blockchain.cpp:234-408): ledger runs extend the longest chain.
- The walk back through blocks in GetNextWorkRequired, median time, block weight limits and subsidy: no coinbase bound is checked by the code.
- LedgerValue.FeesAreExact: when outputs under the id of the block's own coinbase are spent, the fee is stated for the state it is taken in, not for the one it was checked in.
- LevelDB, networking, mining threads, OpenCL and logging; databases are finite maps.
- Prevector.Prevector.Insert: its argument is a value, so a reference into the vector's own storage, which dangles once the capacity changes (prevector.h:372-397), is not covered.
- Prevector.Prevector.PushBack: the same of its argument (prevector.h:427-434).
- Prevector: iterators and elements other than bytes; the direct and the indirect storage are separate fields, not a union, and sizes that would wrap the 32-bit fields are excluded by preconditions.
- Sha256Cpu.TransformBlock: the eight groups of rounds the source writes out are one loop.
- Serialize: the chunked resizing of vectors while reading only limits allocation and is not modelled.
