# A verified model of the QVM execution core

This project models the metered register machine of `qtv-vm` and proves its guarantees: what a run
may read and write, what it pays, where its control can go, and what the code around it (decoder,
assembler, container verifier and serializer, Merkle opcode, abort-stub rewriting) promises.
Everything is checked by `dafny verify dfyconfig.toml`.

## How it is built

- `Bytes`, `Isa`, `Sweep`, `Meter`: words and big-endian bytes, instructions with their encoder and
  decoder, the linear sweep that fixes jump targets, and the prices.
- `Machine`, `Alu`, `Crypto`, `Local`, `MachineOps`: the machine as a value and as an object, and the
  opcodes that touch only the machine, as functions and as methods proved against them.
- `Semantics`: one instruction (`Trans`), one turn of the run loop (`Next`), a whole run (`Run`) and
  the states it passes through (`Trace`). An instruction is described by what it charges in all and
  what it then does, a fault coming with what was charged before it; the value of the storage row
  it reads is an argument. The run needs no fuel: the meter left bounds it.
- `Opcodes`, `Services`: what each opcode does to a run, in registers, bytes and meter, stated without
  the functions that define it: every way a turn goes on and every fault.
- `Interpreter`: the interpreter object with the source's fields. Its methods charge step by step, in
  the source's order, and `Execute` is proved to return what `Run` says.
- `Metering`, `Storage`, `Confinement`, `Commute`, `Safety`, `Calls`: theorems about every run and
  every reachable state, and about whole entry calls and schedules of them. `Repayment` has
  calls that pay twice, and not at all, for creating a row.
- `Container`, `Deploy`: canonical bytes with their parser, the deploy-time verifier, dispatch.
- `Abort`, `Simulation`, `RewrittenCalls`, `Revival`: stub rewriting, what it keeps of runs,
  containers and calls, and where it does not.
- `Merkle`: completeness and soundness of the Merkle opcode.
- `Asm`: the two-pass assembler.

The hash is never taken to be injective. Every result that would need it returns the two colliding
inputs instead, and says which computation hashed each of them, so it cannot be met by the
collisions any hash has.

## Where code and documentation part, and where a promise needs a condition

- README.md:26 says the leaf price is charged once, on the first write that creates a row. The code
  departs from this in two ways. A row created while free slots are left, without a keyed
  authorisation, pays nothing (`interp.rs:667`); `Repayment.PaysNothing` is such a call. And a row
  dirtied late, for the first time past the eight free slots by a store not charged for creating it,
  pays as well (`interp.rs:670-674`), whether it writes zero or changes a row that exists; if it is
  zero, or is later set to zero, and is then made non-zero, it pays twice (`Repayment.PaysTwice`).
  `Confinement.PaidOnFirstCreation` proves that the promise is kept if and only if a run does
  neither, `Confinement.PaidOncePerCreation` the same of the counts alone, and
  `Confinement.LeavesPerRow` gives the exact count for every row of every run. What a manifest
  settles beforehand is in `Confinement.SmallManifestPaysOnce`, `FreeTurnsAreFew` and
  `KeyedRowsPayOnCreation`.
- README.md:32 says the declared sets let entries be scheduled in parallel. A keyed row's key is a
  digest, so declared lists that do not conflict are enough unless the calls hash two preimages to
  one digest, or one to a declared slot, or the host preloads a row the entry did not declare.
  `Calls.CallsParallel` proves the schedule, or shows which of these happened.
- Rewriting stubs differs from the original in two ways. At a patched division the original divides
  and goes on when the divisor is not zero, while the rewritten code always halts
  (`Simulation.OriginalDivides`; `Revival.RewritingStopsARun` is such a program). And the no-ops
  written become jump targets, so an original run that faults by jumping inside a patched division
  goes on in the rewritten code (`Revival.RewritingRevivesAFault`). A halting run is kept if and only
  if it reaches no patched division (`Simulation.UntouchedHaltsAlike`), and away from the divisions
  the second way is the only one (`Simulation.StepRewritten`). `RewrittenCalls.TameCallsKept` is what
  can be checked of a container beforehand: no `Ret`, and no target or entry at a patched division.
- README.md:32 says distinct containers never share an identifier. Beyond the hash itself this needs
  the lists of one of the two to be shorter than 2^32 - 1, where recorded lengths saturate:
  `Containers.CanonicalBinds` proves it there, whatever the other holds, and `Deploy.DeployedIsBound`
  for every deployable container. `Containers.OverlongCollides` is a collision at the bound.

## Model

| member | source | states |
|---|---|---|
| `Isa.DecodeExact` | crates/qtv-vm/src/isa.rs:373-702 | decoding succeeds at an offset with an instruction and a length if and only if exactly that instruction's encoding stands there, inside the code |
| `Isa.DecodeLocal` | crates/qtv-vm/src/isa.rs:470-702 | a decode depends on no byte but those it consumed |
| `Isa.OpCodesRoundTrip` | crates/qtv-vm/src/isa.rs:63-113 | the opcode byte table and the byte-to-opcode table are inverse, and no other byte is an opcode |
| `Isa.EncodesAsDocumented` | crates/qtv-vm/src/isa.rs:373-461 | every instruction's bytes, literally: its opcode, then its registers in order, numbers big-endian |
| `Isa.ProgramDecodes` | crates/qtv-vm/src/isa.rs:373-467 | a program encoded after any bytes is read back by the linear decode, instruction by instruction, to the end |
| `Isa.ListingEncodes` | crates/qtv-vm/src/isa.rs:470-702 | the bytes a linear decode consumed are the encoding of what it read |
| `Isa.EncodeAllInjective` | crates/qtv-vm/src/isa.rs:373-461 | two programs with the same bytes are the same program |
| `Isa.EncodeTo` | crates/qtv-vm/src/isa.rs:373-461 | the encoder appends exactly the instruction's encoding to the byte vector |
| `Isa.Decode` | crates/qtv-vm/src/isa.rs:470-660 | the decoder over a moving cursor computes the decoding function, the length being how far the cursor moved |
| `Isa.Cursor.Byte` | crates/qtv-vm/src/isa.rs:667-672 | one byte is read and the cursor moves by one, or the input is truncated |
| `Isa.Cursor.Reg` | crates/qtv-vm/src/isa.rs:674-680 | a register byte is read, and refused from 16 up |
| `Isa.Cursor.Take` | crates/qtv-vm/src/isa.rs:682-701 | fixed-width reads take the next bytes in order or fail as truncated |
| `Bytes.BigEndian` | crates/qtv-vm/src/isa.rs:682-701 | byte j of an n-byte number holds the bits from 8(n - 1 - j) up |
| `Sweep.SweepBoundaries` | crates/qtv-vm/src/interp.rs:74-91 | the constructor's loop collects exactly the boundaries of the linear sweep below 2^32 |
| `Sweep.StartsAreListed` | crates/qtv-vm/src/interp.rs:74-91 | the boundary set is the set of offsets of the linear decode below 2^32 |
| `Sweep.StartsApart` | crates/qtv-vm/src/interp.rs:74-91 | swept instructions do not overlap |
| `Meter.PriceList` | crates/qtv-vm/src/meter.rs:64-118 | the fixed price of every instruction |
| `Meter.BlockPrices` | crates/qtv-vm/src/meter.rs:48-58 | a hashed region or a message pays forty for each started block of 136 bytes, and for one more when it ends on a block |
| `Meter.LevelPrices` | crates/qtv-vm/src/meter.rs:60-62 | a path pays fifty for each level, up to the largest word |
| `Machines.WriteThenRead` | crates/qtv-vm/src/state.rs:65-88 | a written region is read back and every other byte keeps its value |
| `Machines.StoreThenLoad` | crates/qtv-vm/src/state.rs:56-106 | a stored word is loaded back, and a store and a load at one offset are in bounds together |
| `Machines.Machine.PushWord` | crates/qtv-vm/src/state.rs:44-50 | push appends below the depth bound and otherwise changes nothing |
| `Machines.Machine.PopWord` | crates/qtv-vm/src/state.rs:52-54 | pop removes the last word, or reports an empty stack unchanged |
| `Machines.Machine.MemWrite` | crates/qtv-vm/src/state.rs:72-88 | an in-bounds write replaces exactly its bytes, any other write changes nothing |
| `Machines.Machine.MemStore` | crates/qtv-vm/src/state.rs:90-106 | a word store is a big-endian write |
| `Machines.Machine.MemLoad` | crates/qtv-vm/src/state.rs:56-63 | a word load reads eight big-endian bytes in bounds |
| `Arithmetic.BitsAreBitwise` | crates/qtv-vm/src/interp.rs:521-532 | each bit of an and, or or xor result is the operation on that bit of the operands |
| `Arithmetic.ProductWords` | crates/qtv-vm/src/interp.rs:484-491 | the wrapping product and the high word are the two words of the whole product |
| `Arithmetic.WideDivision` | crates/qtv-vm/src/interp.rs:492-519 | the wide quotient and remainder give back the 128-bit dividend, with the remainder below the divisor |
| `Arithmetic.AluIsMeant` | crates/qtv-vm/src/interp.rs:456-557 | every three-register opcode on all words: the exact overflow and zero-divisor faults, and otherwise a result fixed by its relation to the operands (sums, differences, products, quotients and remainders, wrapping, bits, shifts, comparisons) |
| `Opcodes.AluTurn` | crates/qtv-vm/src/interp.rs:456-557 | the same for a turn of the run, which changes the result register and nothing else but program counter and meter |
| `Opcodes.WideTurn` | crates/qtv-vm/src/interp.rs:492-520 | the 128-bit divisions: numbers and results in register pairs, low word first |
| `Opcodes.MovTurn` | crates/qtv-vm/src/interp.rs:446-449 | a register is copied |
| `Opcodes.LdiTurn` | crates/qtv-vm/src/interp.rs:450 | a word is loaded |
| `Opcodes.NopTurn` | crates/qtv-vm/src/interp.rs:444 | only program counter and meter move |
| `Opcodes.HaltTurn` | crates/qtv-vm/src/interp.rs:443 | the run halts with only the program counter moved |
| `Opcodes.LdcTurn` | crates/qtv-vm/src/interp.rs:451-454 | a constant is loaded from the pool, or the turn faults |
| `Opcodes.NotTurn` | crates/qtv-vm/src/interp.rs:533-536 | the complement: operand and result add up to the largest word |
| `Opcodes.PushTurn` | crates/qtv-vm/src/interp.rs:558-563 | a push appends the register to a stack of at most 1024 words, or overflows |
| `Opcodes.PopTurn` | crates/qtv-vm/src/interp.rs:564-567 | a pop takes the last word, or underflows |
| `Opcodes.MLoadTurn` | crates/qtv-vm/src/interp.rs:568-571 | a word load reads eight bytes in bounds, big-endian |
| `Opcodes.MStoreTurn` | crates/qtv-vm/src/interp.rs:572-577 | a word store replaces eight bytes in bounds, big-endian |
| `Opcodes.JmpTurn` | crates/qtv-vm/src/interp.rs:578-583 | a jump to a boundary goes there and any other faults |
| `Opcodes.JzTurn` | crates/qtv-vm/src/interp.rs:584-591 | jumps exactly when the register is zero, and else goes on six bytes further |
| `Opcodes.JnzTurn` | crates/qtv-vm/src/interp.rs:592-599 | jumps exactly when the register is not zero |
| `Opcodes.CallTurn` | crates/qtv-vm/src/interp.rs:600-609 | jumps with the offset of the next instruction pushed |
| `Opcodes.RetTurn` | crates/qtv-vm/src/interp.rs:610-617 | pops the top word and jumps to it |
| `Opcodes.CallThenRet` | crates/qtv-vm/src/interp.rs:600-617 | a return that finds the stack a call left goes on right after the call, with the stack as it was before it |
| `Crypto.ClimbPath` | crates/qtv-vm/src/crypto.rs:130-139 | the loop over the siblings computes the climb from the leaf |
| `Crypto.MerkleVerifyRegion` | crates/qtv-vm/src/crypto.rs:96-142 | the opcode's work on a region: malformed regions fault, empty, too deep or out-of-range claims are refused, others are compared with the root |
| `Merkle.LeafAtIsLeaf` | crates/qtv-vm/src/crypto.rs:131-138 | choosing children by the bits of an index reads the leaves from left to right |
| `Merkle.RootOfTree` | crates/qtv-vm/src/crypto.rs:23-36 | the root of a list of 2^depth leaves, hashed from literal bytes (a zero and the leaf, or a one and the two halves), is that of its perfect tree |
| `Merkle.TruePathClimbs` | crates/qtv-vm/src/crypto.rs:23-36 | the true path of any index climbs from its leaf to the root |
| `Merkle.Judged` | crates/qtv-vm/src/crypto.rs:96-142 | a climb of any length that ends at the root of a perfect tree is the true one, or two distinct inputs, one hashed for the tree and one by the climb, have one digest |
| `Merkle.OpcodeAcceptsTrueClaims` | crates/qtv-vm/src/crypto.rs:96-142 | for every list of 2 to 2^64 leaves (depth 1 to 64) and every index the opcode writes 1 on root, index, leaf and true path |
| `Merkle.OpcodeAcceptsOnlyTruth` | crates/qtv-vm/src/crypto.rs:96-142 | whenever the opcode writes 1 against the root of a list of 2^depth leaves, depth, index, leaf and path are the true ones, or an explicit collision is returned, shorter and longer paths included |
| `Merkle.OpcodeRefuses` | crates/qtv-vm/src/crypto.rs:108-129 | a region of any other shape faults; an empty path, one of more than 64 levels, or an index past its leaves writes 0 |
| `MachineOps.RunData` | crates/qtv-vm/src/interp.rs:444-577 | data movement, arithmetic, stack and memory opcodes as methods on the machine compute their functions |
| `MachineOps.RunCrypto` | crates/qtv-vm/src/crypto.rs:52-164 | the verify, Merkle and address opcodes as methods on the machine, a panicking primitive becoming a fault |
| `MachineOps.RunHash` | crates/qtv-vm/src/crypto.rs:38-50 | the hash opcode writes the digest of the region as it was before the write |
| `Services.LoadTurn` | crates/qtv-vm/src/interp.rs:619-641 | a load in bounds of a readable row goes through with the row's value; one of any other row is undeclared |
| `Services.StoreTurn` | crates/qtv-vm/src/interp.rs:642-683 | a store in bounds to a writable row pays the exact leaf price and goes through, or runs out of meter; one to any other row is undeclared |
| `Services.SendTurn` | crates/qtv-vm/src/interp.rs:685-695 | a transfer records recipient and amount; its exact price, cap, new recipient and faults |
| `Services.EmitTurn` | crates/qtv-vm/src/interp.rs:696-722 | an event records selector and data; its exact price, cap, minted account, record price and faults |
| `Services.HashTurn` | crates/qtv-vm/src/interp.rs:723-737 | the digest of the region as it was is written; exact price; and the digest is authorised by the first eight bytes of the region |
| `Services.VerifyMlTurn` | crates/qtv-vm/src/crypto.rs:52-73 | key, signature and message in a row; 1 exactly when the key is not degenerate and the primitive accepts; exact price and faults |
| `Services.VerifySlhTurn` | crates/qtv-vm/src/crypto.rs:75-94 | the same for SLH-DSA, without the degenerate key test |
| `Services.MerkleTurn` | crates/qtv-vm/src/interp.rs:748-753 | the Merkle opcode's exact price around its result |
| `Services.AddrTurn` | crates/qtv-vm/src/crypto.rs:144-164 | the digest of the scheme's number and the key is written; exact faults |
| `Services.FetchesExactly` | crates/qtv-vm/src/interp.rs:625-637 | what is surfaced as fetched is exactly the rows the run looked up before writing them |
| `Semantics.OutcomeIsLast` | crates/qtv-vm/src/interp.rs:304-316 | a halting run surfaces the last state of its trace |
| `Interp.Interpreter.Execute` | crates/qtv-vm/src/interp.rs:289-319 | the run loop over the mutable object returns exactly the outcome or the fault of the run function |
| `Interp.Interpreter.Step` | crates/qtv-vm/src/interp.rs:439-759 | one step of the object does what the transition function says, each charge checked in the source's order |
| `Interp.Interpreter.StepLoad` | crates/qtv-vm/src/interp.rs:619-641 | a load checks the manifest, then looks up written, cached and loader values in that order |
| `Interp.Interpreter.StepStore` | crates/qtv-vm/src/interp.rs:642-683 | a store checks the manifest, fetches the prior value, charges and marks, then writes |
| `Interp.Interpreter.MarkDirty` | crates/qtv-vm/src/interp.rs:664-676 | the leaf price is charged, and the created and dirty sets grow, exactly as the store rule says |
| `Interp.Interpreter.LookupRow` | crates/qtv-vm/src/interp.rs:650-663 | written value, else cached value, else fetched and cached |
| `Interp.Interpreter.StepSend` | crates/qtv-vm/src/interp.rs:685-694 | a transfer is charged, capped, billed for a new recipient and recorded |
| `Interp.Interpreter.StepEmit` | crates/qtv-vm/src/interp.rs:696-721 | an event is checked, charged, capped, billed for a minted holder and for records past the fourth, and recorded |
| `Interp.Interpreter.StepHash` | crates/qtv-vm/src/interp.rs:723-737 | a hash is charged before it is done, and authorises the digest of the preimage it read before overwriting it |
| `Interp.Interpreter.TaintKeyedFromHash` | crates/qtv-vm/src/interp.rs:395-433 | a digest is authorised for read, and for write, by the declared base at the head of its preimage, at the read price once and within the cap |
| `Interp.Interpreter.ChargeEffect` | crates/qtv-vm/src/interp.rs:333-352 | an effect's bytes are charged before the cap on retained bytes is checked |
| `Interp.Interpreter.ChargeDurableTarget` | crates/qtv-vm/src/interp.rs:365-373 | each new target after the first pays a leaf |
| `Interp.Interpreter.Charge` | crates/qtv-vm/src/interp.rs:321-331 | a charge past the limit changes nothing and runs out of meter |
| `Interp.Interpreter.Open` | crates/qtv-vm/src/interp.rs:216-271 | opening an entry on the object gives the fault or the starting state of the opening function, checks in the source's order |
| `Interp.Interpreter.OpenFor` | crates/qtv-vm/src/interp.rs:197-206 | the genesis selector is unknown here; any other opens |
| `Interp.Interpreter.OpenGenesis` | crates/qtv-vm/src/interp.rs:208-214 | the genesis call opens the genesis selector on the object |
| `Interp.Interpreter.WithMemory` | crates/qtv-vm/src/interp.rs:283-287 | as much call data as fits is copied to the start of memory |
| `Calls.Perform` | crates/qtv-vm/src/interp.rs:197-319 | opening by either door, attaching storage, a loader if there is one and data, and running the object computes the whole call |
| `Metering.ExactThreshold` | crates/qtv-vm/src/interp.rs:289-352 | a run that halts having used u halts alike under every limit of at least u and runs out of meter under every smaller one; any other fault stays under larger limits |
| `Calls.CallThreshold` | crates/qtv-vm/src/interp.rs:216-352 | the same threshold for a whole entry call, opening included |
| `Metering.StepsAreBounded` | crates/qtv-vm/src/interp.rs:289-331 | every run takes at most the meter left plus one steps, and the meter never passes the limit |
| `Metering.ExactLedger` | crates/qtv-vm/src/interp.rs:321-433 | at every reachable state the meter is the starting charge, the fixed and length-scaled prices of what was executed, one leaf price per paying store, and the bill of the recorded effects and authorisations; the effect and key byte counters, the event counter and the durable targets are those of what was recorded, write authorisations are within read ones, and both byte totals are capped |
| `Calls.CallLedger` | crates/qtv-vm/src/interp.rs:233-237 | the same for a call: it starts from the dispatch and code-scan price, and a run that halts has used exactly its bill |
| `Metering.FetchesArePaid` | crates/qtv-vm/src/interp.rs:623-663 | a run has used at least 100 for every row it fetched |
| `Storage.StepView` | crates/qtv-vm/src/interp.rs:619-683 | a load returns the view of its row, a store changes the view of exactly its row, nothing else does |
| `Storage.LazyStorage` | crates/qtv-vm/src/interp.rs:307-314 | the cache always agrees with the loader, reads never enter the written layer, and the written layer differs from its start only on dirty rows |
| `Storage.LazyRefinesPlain` | crates/qtv-vm/src/interp.rs:619-683 | the lazily loaded run computes, row for row, what a machine with one total store computes |
| `Confinement.WriteConfinement` | crates/qtv-vm/src/interp.rs:642-649 | in every reachable state of an entry run a changed row is a declared scalar write, or the digest of a preimage the run hashed, of at least eight bytes headed by a declared keyed-write base |
| `Confinement.RunAuthorised` | crates/qtv-vm/src/interp.rs:395-433 | at every state of a run a key is authorised for writing (reading) if and only if the run hashed a preimage of at least eight bytes whose first eight are a base declared for writing (either), with the key for digest |
| `Services.LoadAccess` | crates/qtv-vm/src/interp.rs:619-641 | over a run, a load in bounds is undeclared if and only if its key is neither a declared slot nor the digest of a preimage the run hashed under a declared base; otherwise it goes through |
| `Services.StoreAccess` | crates/qtv-vm/src/interp.rs:642-649 | the same for stores and write bases; a permitted one can only run out of meter |
| `Calls.CallConfinesWrites` | crates/qtv-vm/src/interp.rs:642-649 | write confinement for the outcome of a whole call |
| `Confinement.CreationIsPaidFor` | crates/qtv-vm/src/interp.rs:664-682 | rows gone from zero to non-zero number at most the charged rows plus eight, all outside the scalar write set are among the charged rows, these are dirty, and the count of leaf prices lies between its two bounds |
| `Confinement.LeavesPerRow` | crates/qtv-vm/src/interp.rs:664-676 | over any run a row pays the leaf price once if it was ever charged for being created and once more if it was dirtied late (first, past the eight free slots, by a store not charged for creating it), and never otherwise; the price is paid in all as often as there are charged and late rows |
| `Confinement.PaidOncePerCreation` | crates/qtv-vm/src/interp.rs:664-676 | one leaf price for each row some store turned from zero to non-zero and none for any other: this holds if and only if no row is late and every such row was charged; a row pays twice if and only if it is late and charged, and a created row pays nothing if and only if it was never charged |
| `Confinement.PaidOnFirstCreation` | crates/qtv-vm/src/interp.rs:664-676 | every turn of a run pays for a row exactly when it is the first to create it, if and only if the run dirties no row late and creates none while it is free (a scalar not charged before, with free slots left) |
| `Confinement.TurnedRows` | crates/qtv-vm/src/interp.rs:664-676 | charged rows were created, created rows are dirty, a late row that is ever created is charged for it, and a created row that was never charged was free |
| `Confinement.FreeTurnsAreFew` | crates/qtv-vm/src/interp.rs:664-676 | at most eight rows are created for nothing, all declared scalar writes |
| `Confinement.KeyedRowsPayOnCreation` | crates/qtv-vm/src/interp.rs:664-676 | an entry with no scalar write that dirties at most eight rows pays for each row exactly when it first creates it |
| `Confinement.SmallManifestPaysOnce` | crates/qtv-vm/src/interp.rs:664-676 | under a manifest of at most eight scalar writes and no keyed write no row is late, so each pays at most once, and exactly when it was charged for being created |
| `Repayment.PaysTwice` | crates/qtv-vm/src/interp.rs:667-674 | a whole call that halts having paid the leaf price twice for its ninth declared slot |
| `Repayment.PaysNothing` | crates/qtv-vm/src/interp.rs:664-669 | a whole call that creates its first declared slot and halts without paying the leaf price for it |
| `Commute.TouchedIsDeclared` | crates/qtv-vm/src/interp.rs:619-649 | every row a run touches was declared, or is a digest it was authorised for |
| `Commute.NonInterference` | crates/qtv-vm/src/interp.rs:619-683 | from stores that agree on the rows the first run touches, both runs give the same fault or the same control state, meter, effects and dirty set with the same values in the dirty rows, and agree on every row they agreed on; from one starting state they give the same outcome in every field |
| `Commute.FootprintNonInterference` | crates/qtv-vm/src/interp.rs:395-433 | the same from agreement on the declared slots and the digests of preimages headed by a declared base |
| `Commute.DisjointJobsCommute` | crates/qtv-vm/src/interp.rs:273-319 | two prepared entries, with any attached storage, that write no row the other touches or preloads give equal results and the same final store in either order |
| `Commute.DisjointJobsSerialise` | crates/qtv-vm/src/interp.rs:273-319 | any number of such entries, in any order: each gives the result it gives alone, and the store is that of running all on the first store and merging their dirty rows |
| `Commute.UnrelatedJobsCommute` | crates/qtv-vm/src/interp.rs:395-433 | prepared entries whose manifests do not conflict are disjoint and commute with equal results, unless two preimages they hashed collide, one hashes to a declared slot, or one wrote a row preloaded into the other undeclared, which is then shown |
| `Commute.UnrelatedJobsSerialise` | crates/qtv-vm/src/interp.rs:395-433 | the same for any number of entries in any order, or two of them that meet |
| `Commute.ListsDecide` | crates/qtv-vm/src/interp.rs:239-254 | two entries' manifests conflict if and only if their declared slot and base lists do: the encoding of slots as keys neither merges nor splits any |
| `Calls.CallsCommute` | crates/qtv-vm/src/interp.rs:197-319 | two calls of entries whose declared lists do not conflict, given any storage and preloaded rows, with or without a loader: each gives an equal result in either order and the store ends the same, or the meeting is shown |
| `Calls.CallsParallel` | crates/qtv-vm/src/interp.rs:197-319 | any number of calls whose declared lists do not conflict, in any order: every call gives the result it gives alone, every row a call writes alone ends with the value it gives it, every other row is kept; or two calls meet, which is shown |
| `Safety.OnlySweptExecute` | crates/qtv-vm/src/interp.rs:289-319 | for any code every state a run reaches stands on a boundary of the sweep or where the sweep stopped, and every executed instruction is at a boundary |
| `Safety.VerifiedRunsSafely` | crates/qtv-vm/src/container.rs:103-157 | no run of a deployed container faults with a missing constant, only `Ret` jumps badly, and decoding fails only by running off the end |
| `Calls.CallIsSafe` | crates/qtv-vm/src/container.rs:103-157 | the same for whole calls, genesis included: refused only as an unknown selector or for want of meter, and a run that faults does so in the last state of its trace in one of those ways |
| `Safety.ProgramIsSwept` | crates/qtv-vm/src/interp.rs:188-190 | a program run from offset 0 with no container executes only swept instructions |
| `Deploy.Verify` | crates/qtv-vm/src/container.rs:103-157 | the verifier returns the first error in its own order |
| `Deploy.VerifyExact` | crates/qtv-vm/src/container.rs:103-157 | the verifier finds no error if and only if sizes fit, the code decodes fully, constants and static targets are in range, entries are on boundaries with bounded access lists, and selectors are distinct |
| `Deploy.DeployableMeans` | crates/qtv-vm/src/container.rs:103-157 | deployable on the listing alone: at most 65536 bytes, 4096 constants and 256 entries, code that decodes to its end, constants in the pool, every jump and call to a listed instruction, entries of distinct selectors at instructions with at most 4096 declared slots and bases |
| `Deploy.ErrorIsFirst` | crates/qtv-vm/src/container.rs:103-157 | the reported error is the first there is in the verifier's order, with its culprit |
| `Deploy.ScanCode` | crates/qtv-vm/src/container.rs:114-138 | the verifier's start set is the interpreter's boundary set |
| `Deploy.OpeningAgrees` | crates/qtv-vm/src/interp.rs:216-271 | in a deployed container a selector opens if and only if it is declared and the limit is at least 4 plus 9 times the code length; it starts at the declared offset and is never malformed |
| `Deploy.OpeningExact` | crates/qtv-vm/src/interp.rs:216-271 | opening any container: sizes, the one entry that holds the selector, its lists, the meter, its offset, in that order |
| `Deploy.ManifestMeans` | crates/qtv-vm/src/interp.rs:239-254 | each manifest set comes from its own declared list |
| `Deploy.DispatchAgrees` | crates/qtv-vm/src/interp.rs:197-214 | at the two doors: an entry call opens so any selector but genesis, the genesis call that one alone |
| `Bytes.ScalarKeyInjective` | crates/qtv-vm/src/abi.rs:9-13 | distinct slots have distinct keys |
| `Bytes.ScalarKeyIsNumber` | crates/qtv-vm/src/abi.rs:9-13 | the key of a slot is the slot as a 32-byte big-endian number |
| `Containers.Serialize` | crates/qtv-vm/src/container.rs:68-90 | the serializer appends the canonical bytes |
| `Containers.PutEntry` | crates/qtv-vm/src/container.rs:81-88 | one entry's bytes: selector, offset and its four slot lists |
| `Containers.PutLen` | crates/qtv-vm/src/container.rs:167-170 | a length as four bytes, saturating |
| `Containers.PutSlots` | crates/qtv-vm/src/container.rs:172-177 | a slot list as its length and its words |
| `Containers.CanonicalLayout` | crates/qtv-vm/src/container.rs:68-90 | the bytes of a container of one entry, field by field |
| `Containers.WordStands` | crates/qtv-vm/src/container.rs:172-177 | word k of a list stands at byte 8k, big-endian |
| `Containers.EntriesAppend` | crates/qtv-vm/src/container.rs:81-88 | entries follow one another |
| `Containers.CanonicalParses` | crates/qtv-vm/src/container.rs:68-90 | a parser undoes the serializer whatever bytes follow |
| `Containers.CanonicalInjective` | crates/qtv-vm/src/container.rs:68-90 | containers whose lists fit four-byte lengths are equal when their bytes are, and neither is a prefix of the other |
| `Containers.CanonicalBinds` | crates/qtv-vm/src/container.rs:68-90 | a container with every list shorter than 2^32 - 1 shares its bytes with no other container whatever, and neither is a prefix of the other |
| `Deploy.DeployedIsBound` | crates/qtv-vm/src/container.rs:103-157 | so for every deployable container |
| `Containers.IdentifierBinds` | crates/qtv-vm/src/container.rs:92-94 | another container shares such a container's identifier only through a collision of their bytes |
| `Containers.OverlongCollides` | crates/qtv-vm/src/container.rs:167-170 | at length 2^32 - 1 this fails: a container whose code has that length shares its bytes with one whose code is longer |
| `Abort.SplitsAbortCode` | crates/qtv-vm/src/abort.rs:260-270 | a packed rule and line are unpacked again, for every rule |
| `Abort.Rewrite` | crates/qtv-vm/src/abort.rs:290-336 | the rewriting loop returns nothing for code that does not decode fully or has no stub, and otherwise the code with each matched division patched |
| `Abort.RewrittenWhen` | crates/qtv-vm/src/abort.rs:290-336 | a program is rewritten if and only if some instruction of it ends a stub, literally: a load of a tagged word, a load of zero and their division; or, behind any instruction, a load of zero divided by itself |
| `Abort.RewrittenBytes` | crates/qtv-vm/src/abort.rs:326-331 | each byte of the result: 0, 1, 1, 1 for an instruction that ends a stub, and the original's for every other |
| `Abort.RewrittenIsProgram` | crates/qtv-vm/src/abort.rs:291-297 | code that does not decode to its end is not rewritten |
| `Abort.CompiledStubHalts` | crates/qtv-vm/src/abort.rs:290-336 | a compiled stub is found wherever it stands in a program, its end included, and its division, twenty bytes in, becomes 0, 1, 1, 1 |
| `Abort.LegacyStubHalts` | crates/qtv-vm/src/abort.rs:312-325 | the legacy pair is found behind any instruction |
| `Abort.StubIs` | crates/qtv-vm/src/abort.rs:272-288 | the instructions of a compiled stub |
| `Abort.CodesAre` | crates/qtv-vm/src/abort.rs:15-57 | the code of every rule |
| `Abort.FromCodeExact` | crates/qtv-vm/src/abort.rs:108-113 | a code no rule has reads as the unknown rule |
| `Abort.PatchedDecodes` | crates/qtv-vm/src/abort.rs:290-336 | the rewritten code has the same length and decodes to the same instructions with each matched division replaced by a halt and three no-ops |
| `Abort.PatchedBoundaries` | crates/qtv-vm/src/abort.rs:326-331 | the rewritten code's jump targets are the original's and the insides of the patched divisions |
| `Simulation.StubSimulation` | crates/qtv-vm/src/abort.rs:290-336 | the rewritten run keeps lock step with the original up to the first patched division, where it halts unchanged and the original divides, faulting if and only if the divisor is zero or the meter is short; a run that reaches none gives the same result unless it ends with a bad jump inside a patched division |
| `Simulation.OriginalDivides` | crates/qtv-vm/src/interp.rs:468-471 | at a patched division the original, with the meter covering it, faults with a division by zero if the divisor is zero, and otherwise writes the quotient and goes on |
| `Simulation.StepRewritten` | crates/qtv-vm/src/abort.rs:290-336 | away from the patched divisions a turn differs if and only if the original faults by jumping inside one |
| `Simulation.UntouchedHaltsAlike` | crates/qtv-vm/src/abort.rs:290-336 | an original run that halts gives the same outcome rewritten if and only if it reaches no patched division |
| `Simulation.TameRunsAreKept` | crates/qtv-vm/src/abort.rs:290-336 | in code that never returns and has no static target at a patched division, a run that meets one faults there, so every halting run gives the same outcome rewritten |
| `Simulation.StubLeavesReason` | crates/qtv-vm/src/abort.rs:338-344 | a run that first meets a patched division by falling through its stub faults in the original; rewritten, it halts with registers from which the stub's rule and line are read |
| `Simulation.CompiledStubReason` | crates/qtv-vm/src/abort.rs:272-288 | a compiled stub is recognised and gives back its rule and line |
| `Revival.RewritingRevivesAFault` | crates/qtv-vm/src/abort.rs:326-331 | a program that jumps into the division of its own stub faults, and its rewritten form halts |
| `Revival.RewritingStopsARun` | crates/qtv-vm/src/abort.rs:326-331 | a program that jumps to the division of its own stub with a divisor of one halts, and its rewritten form halts with another result |
| `RewrittenCalls.RewrittenDeploys` | crates/qtv-vm/src/abort.rs:290-336 | a deployable container is still deployable with its code rewritten |
| `RewrittenCalls.OpeningKept` | crates/qtv-vm/src/interp.rs:197-271 | rewriting changes neither what opens nor its price, unless an entry starts inside a patched division |
| `RewrittenCalls.CallSimulates` | crates/qtv-vm/src/abort.rs:290-336 | a call into the rewritten container simulates the call into the original |
| `RewrittenCalls.HaltingCallKept` | crates/qtv-vm/src/abort.rs:290-336 | a halting call gives the same result on the rewritten container if and only if it meets no patched division |
| `RewrittenCalls.TameCallsKept` | crates/qtv-vm/src/abort.rs:290-336 | on a deployable container whose code never returns and whose targets and entries avoid patched divisions, every call gives the same result rewritten, but those that meet a patched division: they fault dividing by zero or for want of meter, and halt rewritten |
| `Asm.Assemble` | crates/qtv-vm/src/asm.rs:19-48 | the two loops compute the assembly function, first error included |
| `Asm.AssemblesExactly` | crates/qtv-vm/src/asm.rs:19-48 | assembly succeeds if and only if lines parse, labels are declared once, named targets are declared, numbers fit and so does the code |
| `Asm.AssemblyIsCorrect` | crates/qtv-vm/src/asm.rs:19-48 | the output decodes to the instruction lines in order, and every label is the offset of the next instruction after it, or the code length |
| `Asm.LineStands` | crates/qtv-vm/src/asm.rs:406-425 | every instruction line is in its place in the program: a plain one as it is, a jump as the jump it names, to its number or its label's offset |
| `Asm.AssemblyFailsAt` | crates/qtv-vm/src/asm.rs:19-48 | the error reported is that of the first line at which the lines cannot be laid out, or else the first undeclared label |

## Left out

- SHA3-256, ML-DSA and SLH-DSA: parameters of the model (`Crypto.Prims`), with a fixed digest length and verifiers that may accept, reject or panic; the fixed verify context and the key and signature sizes belong to that external crate, which is not part of this model.
- `catch_unwind`: only its result is modelled, a panicking primitive becomes `CryptoFault`.
- The rules before the current ones (`strict` off): reachable only from the test module here.
- `SystemProgram::verify`: a table lookup on an opaque digest. A run that starts at offset 0 with no manifest is covered by `Safety.ProgramIsSwept` and by every other result that does not ask for a manifest.
- Registers of 16 and above in an instruction value: the type of registers stops at 15, so an instruction the decoder would refuse cannot be written down; the decoder's refusal of such bytes is modelled.
- Overflow checks on 64-bit counters: the model's counters are unbounded and compared with the same limits, which gives the same faults because each limit is itself below 2^64 and region lengths are at most 65536; the saturating products of the price schedule are written out.
- `Rule::name`, `title`, `help`, `rule_of_fault`: text and one-branch mappings.
- Assembler text: comments, spacing, number and register spelling and the mnemonic table. Lines arrive split into tokens, a line the parser rejects for its own sake being `Unparsed`.
- The fuzz harness and the price calibration tests: test drivers and finite constant checks.
- `Interp.Interpreter.Open`: the entries matching a selector are a function of the container rather than a lazily advanced iterator.
