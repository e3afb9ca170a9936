# Models of an Android hooking stack

This project models the parts of the stack in which a small slip corrupts a
running process, and proves what each of them is for:

- Dobby's ARM64 prologue relocator, with a small A64 machine and a simulation
  between the original prologue and its relocated image (`A64`, `Relocator`,
  `RelocationSim`);
- LSPlant's two lock-free protocols, over every interleaving of any number of
  threads (`TrampolinePool`, `DebuggableGuard`, with `Finite` for set sizes);
- LSPlant's hook registry, method records and class-initialisation snapshots as
  one state machine (`HookRegistry`, `ClassInit`), and the same tables updated
  in place (`RegistryClass`);
- the DEX builder: instruction formats and their decoder (`DexCode`), virtual
  instructions (`DexInstructions`), the label-patching encoder (`DexEncoder`),
  round trips (`DexRoundTrip`), a Dalvik machine (`DalvikMachine`, `StubRun`)
  and the hook stub run on it from its encoded units (`HookStub`,
  `StubCorrect`);
- class ordering for DEX output (`ClassOrder`), the scanner's walk over code
  units (`DexWalk`) and the lazily filled cross-reference caches (`DexCache`);
- TINYSTL's hash map on the heap (`HashTable`);
- SHA-1, block function and streaming (`Sha1`, `Sha1Stream`);
- Dobby's near allocator (`NearAllocator`) and the Java dispatch engine
  (`CoreEngine`).

`Wrappers` holds the option type they share.

`dafny verify dfyconfig.toml` checks all files together.

## How the model is built

Code that changes things step by step is a class or a method with loops, tied
by its postconditions to functions on values; the laws are lemmas about those
functions. The two concurrent protocols are state machines whose steps are the
program's atomic operations, under sequential consistency. Big hypotheses (a
finished relocation, an accepted program, a consistent registry) are subset
types, so that they are established once and then carried.

Callbacks, the system's memory mapping, the runtime's own writes and generated
methods are parameters: every theorem holds for all of them within the stated
constraints.

## Where the code does not do what one would expect

- Trampoline counter. A thread can push an exhausted counter past the page
  twice: once while the thread that installed the page still holds the lock,
  and once more after it let go. Slots + threads is therefore not a bound.
  Each failed allocation allows as many more increments as there are threads.
  No run of T threads with at most F failed allocations carries into the page
  address exactly when slots + 2 * T + F * T fits the page
  (`TrampolinePool.CarryExact`); after enough failures a trampoline outside
  every page is handed out (`TrampolinePool.FailuresBreakSlots`).
- B.AL and B.NV have no opposite condition (`RelocationSim.InversionExact`), a
  32-bit literal load is relocated to a 64-bit one
  (`RelocationSim.LdrNarrowExact` says exactly when that is harmless), and the
  S and D literal loads are taken for loads of a general-purpose register
  (`Relocator.SimdTaken`).
- A load from a label that already has a place encodes the byte offset where
  words are counted and overwrites opcode bits (`Relocator.PlacedLoadExact`).
  The relocator places its labels only after all loads, so it never gets there.
- Register operands above the width of their field are truncated without
  notice (`DexCode.DecodeExact` gives the exact condition). The hook stub is
  right for an argument list exactly when its last parameter begins at argument
  slot 253 or before. In the one other case a method can have, a parameter at
  slot 254, the stub's aput-object names register v0, which holds the index
  constant, and the verifier rejects the class (`StubCorrect.StubExact`).
- A method unhooked between the snapshot and the restore of its class gets its
  stale trampoline back, and one hooked in that window loses its trampoline
  (`ClassInit.UnhookedInWindow`, `ClassInit.HookedInWindow`). A restore of all
  classes of the thread inside the window uses up the snapshot: whatever the
  runtime installs afterwards stays (`ClassInit.PoppedInWindow`,
  `ClassInit.HookSurvives`).
- A restore that pops a hooked method together with its backup, as one for all
  classes of a thread can, leaves the backup with the runtime's code or back in
  the interpreter, depending on which of the two the table yields first
  (`ClassInit.BackupFollows`).
- The reader of the memory map can list its last region twice; that makes no
  gap (`NearAllocator.RepeatNoGap`).
- The near allocator takes one page more than it needs when a block ends on a
  page boundary, and maps it over whatever is there. When the block fills its
  gap, that page is the next region's, and can be handed out twice
  (`NearAllocator.TakenPages`, `NearAllocator.HandedOutTwice`). The mapping of
  a new executable arena is not checked; a failure makes an arena at address 0
  (`NearAllocator.Allocator.AllocateExec`).
- An update of the hash state whose length and the bytes buffered so far add up
  to 2^32 or more wraps and copies past the 64-byte buffer
  (`Sha1Stream.Context.Update` says exactly when).
- A first-hit query on callers or fields stops scanning as soon as the cache is
  not empty, whatever it holds, and can miss a hit (`DexCache.MissedCaller`,
  exact condition in `DexCache.DexHelper.FindFirst`).

## Model

| member | source | states |
|---|---|---|
| Relocator.Masks | native/dobby/source/InstructionRelocation/arm64/InstructionRelocationARM64.cc:121-149 | for every top byte, the range predicates of the model agree with the seven mask-and-compare tests |
| Relocator.TurboAssembler.Ldr | native/dobby/source/core/assembler/assembler-arm64.h:527-536 | a load through an unplaced label emits the zero-offset word and records its own byte offset with that label only; through a placed one it emits the shifted byte offset |
| Relocator.PlacedLoadExact | native/dobby/source/core/assembler/assembler-arm64.h:440-443 | the word emitted for a placed label loads from it if and only if the label lies at the load itself |
| Relocator.TurboAssembler.Mov | native/dobby/source/core/assembler/assembler-arm64.h:537-549 | the four emitted words are the MOVZ/MOVK chain whose run leaves exactly the given address (with RelocationSim.MovRuns) |
| Relocator.TurboAssembler.PseudoBind | native/dobby/source/core/assembler/assembler-arm64.cc:6-21 | exactly the waiting loads change, each to the distance from itself to the label; all other words stay |
| Relocator.TurboAssembler.RelocBind | native/dobby/source/core/assembler/assembler.cc:31-45 | the buffer ends as the code with all literals bound in order, one eight-byte value each |
| Relocator.TurboAssembler.LiteralLdrBranch | native/dobby/source/core/codegen/codegen-arm64.cc:10-21 | a jump through the pool to the given address is appended |
| Relocator.TurboAssembler.RelocateWord | native/dobby/source/InstructionRelocation/arm64/InstructionRelocationARM64.cc:173-322 | the code and the label each kind of word asks for; refusal exactly for literal loads with opc 2 or 3 |
| Relocator.Relocate | native/dobby/source/InstructionRelocation/arm64/InstructionRelocationARM64.cc:151-344 | succeeds exactly when no word is a literal load with opc 2 or 3, and the image is the one the simulation is about |
| Relocator.SimdTaken | native/dobby/source/InstructionRelocation/arm64/InstructionRelocationARM64.cc:192-210 | an S or D literal load becomes a load of the general-purpose register of the same number |
| Relocator.BoundEntry | native/dobby/source/core/assembler/assembler-arm64.cc:6-21 | binding labels one after the other leaves each load with the distance to its own literal, which holds its value |
| RelocationSim.PoolEntries | native/dobby/source/core/assembler/assembler.cc:40-45 | every back-patched load of an image reaches exactly its own literal holding the recorded target |
| RelocationSim.ImageSize | native/dobby/source/InstructionRelocation/arm64/InstructionRelocationARM64.cc:159-344 | an image of n words takes at most 20 n + 16 bytes, so 19-bit literal offsets suffice up to a megabyte |
| RelocationSim.LdrDecodes | native/dobby/source/InstructionRelocation/arm64/inst_decode_encode_kit.h:31-46 | an encoded literal offset decodes to itself for every aligned offset in range |
| RelocationSim.MovRuns | native/dobby/source/core/assembler/assembler-arm64.h:475-549 | running the MOVZ/MOVK chain changes one register, to the full 64-bit value |
| RelocationSim.InversionExact | native/dobby/source/InstructionRelocation/arm64/InstructionRelocationARM64.cc:242-251 | flipping the low condition bit inverts the test for all flags if and only if the condition is below 14 |
| RelocationSim.LdrNarrowExact | native/dobby/source/InstructionRelocation/arm64/InstructionRelocationARM64.cc:192-210 | a relocated W load matches the original if and only if the word above the literal is zero or the destination is XZR or X17 |
| RelocationSim.WordSimulated | native/dobby/source/InstructionRelocation/arm64/InstructionRelocationARM64.cc:173-322 | every supported word, from any state: within five steps the relocated code has the same registers (but X17, and LR after a call), flags, memory and next location |
| RelocationSim.PrologueSimulated | native/dobby/source/InstructionRelocation/arm64/InstructionRelocationARM64.cc:151-344 | whole runs, entered at any word: when the original leaves the copied range by jump, call or falling off its end, the image leaves to the same place in the same state; what is asked of stores, register jumps and X17 is asked only at the states the run visits |
| TrampolinePool.SlotStep | native/lsplant_jni/lsplant.cc:643-671 | every atomic step without a counter carry keeps mutual exclusion, page ownership and distinct slots |
| TrampolinePool.TrampolinesDisjoint | native/lsplant_jni/lsplant.cc:628-680 | in every interleaving without a carry, any two returned trampolines are different and their byte ranges are disjoint |
| TrampolinePool.TrampolineInPage | native/lsplant_jni/lsplant.cc:628-680 | every returned trampoline lies wholly inside one allocated page |
| TrampolinePool.CounterBound | native/lsplant_jni/lsplant.cc:640-669 | the counter stays below slots + 2 * threads, plus one increment per thread for each failed allocation, and so never carries when that fits the page |
| TrampolinePool.CeilingReached | native/lsplant_jni/lsplant.cc:640-669 | that bound is tight: for every number of threads and of failures for which it fits the page, some run reaches the last value below it |
| TrampolinePool.CarryExact | native/lsplant_jni/lsplant.cc:640-669 | for every number of threads and of failed allocations, no run carries into the page address if and only if slots + 2 * threads + failures * threads fits the page |
| TrampolinePool.FailuresBreakSlots | native/lsplant_jni/lsplant.cc:652-657 | one thread whose allocations fail for a whole page of increments is handed a trampoline outside every page |
| DebuggableGuard.TraceInv | native/lsplant_jni/art/runtime/runtime.cxx:92-138 | every step of every interleaving keeps count, live guards, transition and runtime state in agreement |
| DebuggableGuard.CountMeaning | native/lsplant_jni/art/runtime/runtime.cxx:92-138 | count 0: nobody live or in transition; 1: exactly one in transition, none live; k >= 2: k - 1 live and the runtime debuggable |
| DebuggableGuard.LiveSeesDebuggable | native/lsplant_jni/art/runtime/runtime.cxx:92-114 | a constructed guard always sees a debuggable runtime |
| DebuggableGuard.DestructorNeverWaits | native/lsplant_jni/art/runtime/runtime.cxx:116-138 | the destructor's wait is unreachable and neither of its subtractions wraps |
| DebuggableGuard.WaiterHasMover | native/lsplant_jni/art/runtime/runtime.cxx:92-138 | whenever a guard waits, the one in transition can move |
| HookRegistry.RecordRoundTrip | native/lsplant_jni/art/runtime/art_method.cxx:72-208 | the records of target and backup made by a hook, combined as unhooking does, give the original record except for the named flag bits |
| HookRegistry.PropagateBack | native/lsplant_jni/lsplant.cc:880-887 | replacing the first occurrence of an id by one that is not in the table, and back, restores the table |
| HookRegistry.HookKeeps | native/lsplant_jni/common.cxx:142-153 | hooking with a fresh backup keeps the registry an involution with one reflected side per pair, and the class table the partition of the targets |
| HookRegistry.UnHookKeeps | native/lsplant_jni/lsplant.cc:903-938 | so does unhooking anything |
| HookRegistry.HookUnHookRoundTrip | native/lsplant_jni/lsplant.cc:682-730 | unhooking after hooking restores registry, class table, proxies, id table and every record field except the named flag bits |
| HookRegistry.DeoptimizeSpares | native/lsplant_jni/lsplant.cc:949-964 | deoptimizing any method leaves every hooked method's own entry point alone |
| HookRegistry.InstrumentSpares | native/lsplant_jni/art/runtime/instrumentation.cxx:14-58 | a code update of the three instrumentation hooks changes a hooked method's own entry point if and only if it names that method, not deoptimized, passes the very code it has, and the runtime then installs something else |
| ClassInit.EventKeeps | native/lsplant_jni/common.cxx:119-165 | every event, runtime writes, snapshots and class- or thread-keyed restores included, keeps the registry consistent |
| ClassInit.RunKeeps | native/lsplant_jni/common.cxx:119-153 | over every run with fresh backups the registry is an involution and the class table its partition |
| ClassInit.MethodRestored | native/lsplant_jni/art/runtime/class_linker.cxx:108-128 | in whatever order a snapshot is visited, a method that is nobody's backup is settled as soon as the loop passes it and stays so |
| ClassInit.BackupFollows | native/lsplant_jni/art/runtime/class_linker.cxx:108-128 | the exact final entry point of a target's backup after any restore: what the runtime had put on the target, if that is not deoptimized and has changed; a backup popped as well keeps that when it was visited before its target, and is settled by its own visit otherwise |
| ClassInit.RestoreEvent | native/lsplant_jni/art/runtime/class_linker.cxx:108-128 | for a restore by class or by thread, whatever it popped, the exact final entry point of every method |
| ClassInit.WindowExact | native/lsplant_jni/art/runtime/class_linker.cxx:108-128 | over every run between snapshot and restore of a class, what any method that is nobody's backup ends with: the saved entry point, re-deoptimized where due, if it was saved and its thread's snapshots were not popped before; otherwise what it had |
| ClassInit.WindowBackup | native/lsplant_jni/art/runtime/class_linker.cxx:112-121 | over every such run, what the backup of any target ends with, visited by the restore or not |
| ClassInit.HookSurvives | native/lsplant_jni/art/runtime/class_linker.cxx:108-128 | a static method hooked at the snapshot and until the restore has its trampoline back if and only if its thread's snapshots were not all popped in between, or nothing has overwritten the entry point since |
| ClassInit.PoppedInWindow | native/lsplant_jni/art/runtime/class_linker.cxx:237-252 | snapshot, restore of the whole thread, runtime write, restore of the class: a hooked method ends with the runtime's code |
| ClassInit.UnhookedInWindow | native/lsplant_jni/art/runtime/class_linker.cxx:108-128 | snapshot, unhook, runtime write, restore: the method ends with the stale trampoline although it is no target |
| ClassInit.HookedInWindow | native/lsplant_jni/art/mirror/class.cxx:30-56 | snapshot, hook, runtime write, restore: the method ends with the runtime's code, or with its entry point from before if it had been deoptimized then |
| RegistryClass.Registry.Hook | native/lsplant_jni/lsplant.cc:809-901 | the tables become those of the state machine's hook step; refusal exactly for registered methods or without a trampoline |
| RegistryClass.Registry.UnHook | native/lsplant_jni/lsplant.cc:903-938 | the tables become those of the unhook step; success exactly for targets |
| RegistryClass.Registry.Deoptimize | native/lsplant_jni/lsplant.cc:949-964 | the tables become those of the deoptimize step |
| RegistryClass.Registry.PropagateId | native/lsplant_jni/lsplant.cc:880-887 | only the first occurrence of an id in the internal table is replaced |
| RegistryClass.Registry.BackupClassMethods | native/lsplant_jni/art/mirror/class.cxx:30-56 | the hooked and deoptimized static methods of the class, and no others, are saved with their entry points; an earlier snapshot stays |
| RegistryClass.Registry.PopBackup | native/lsplant_jni/art/mirror/class.cxx:132-161 | by class, every thread loses its snapshot of the class; by thread, that thread loses all; the first one met wins for each method, and nothing else changes |
| RegistryClass.Registry.RestoreBackup | native/lsplant_jni/art/runtime/class_linker.cxx:108-128 | for a class or for a thread, a legal restore event: every popped method is restored exactly once |
| DexCode.DecodeExact | native/lsplant_jni/external/dex_builder/slicer/dex_bytecode.cc:147-290 | an instruction packed in any of the twelve formats decodes to its own fields if and only if every field fits its bits |
| DexCode.JumpDecodes | native/lsplant_jni/external/dex_builder/slicer/dex_bytecode.cc:182-185 | a branch displacement decodes to itself if and only if it fits 16 signed bits |
| DexInstructions.ReadBack | native/lsplant_jni/external/dex_builder/dex_builder.cc:502-799 | reading the lowered forms of any fitting virtual instruction gives back its operation, registers, index and result kind |
| DexEncoder.PatchResolves | native/lsplant_jni/external/dex_builder/dex_builder.cc:811-825 | patching a label's waiting references turns the code with unknown label into the code with known label |
| DexEncoder.MethodBuilder.AllocRegister | native/lsplant_jni/external/dex_builder/dex_builder.cc:433-446 | the lowest register not in use; a new one only when all are in use |
| DexEncoder.MethodBuilder.LabelValue | native/lsplant_jni/external/dex_builder/dex_builder.cc:827-841 | the displacement of a bound label, otherwise 0 and a reference to patch |
| DexEncoder.MethodBuilder.BindLabel | native/lsplant_jni/external/dex_builder/dex_builder.cc:811-825 | the label is bound here and exactly its waiting fields are patched |
| DexEncoder.MethodBuilder.EncodeInstructions | native/lsplant_jni/external/dex_builder/include/dex_builder.h:1000-1005 | one pass leaves every branch resolved to its label wherever that is bound, and the largest argument count |
| DexRoundTrip.RoundTrip | native/lsplant_jni/external/dex_builder/dex_builder.cc:502-841 | decoding the finished code at any instruction's address gives the instruction back |
| DexRoundTrip.Disassembles | native/lsplant_jni/external/dex_builder/dex_builder.cc:502-841 | reading the finished code of any program, labels and branches included, from its first unit lists exactly its instructions in order, branches with the addresses of their labels |
| DexRoundTrip.BranchLands | native/lsplant_jni/external/dex_builder/dex_builder.cc:679-692 | a decoded forward or backward branch leads to the place where its label is bound if and only if the distance fits 16 signed bits |
| StubRun.CodeRuns | native/lsplant_jni/external/dex_builder/slicer/dex_bytecode.cc:104-290 | interpreting encoded straight-line code from its first unit is executing its instructions in order |
| HookStub.BuildBoxIfPrimitive | native/lsplant_jni/external/dex_builder/dex_builder.cc:457-483 | the boxing call of each kind of parameter, short or range by register number |
| HookStub.BuildHook | native/lsplant_jni/lsplant.cc:351-407 | the instruction list of the hook method for any shorty |
| StubCorrect.StubFits | native/lsplant_jni/lsplant.cc:376-406 | every instruction of the stub fits its format when each parameter begins at slot 253 or before |
| StubCorrect.StubFitsOnly | native/lsplant_jni/lsplant.cc:379-387 | and not when the last parameter begins later; StubExact says what becomes of it |
| StubCorrect.StubRuns | native/lsplant_jni/lsplant.cc:376-406 | the stub's instructions box every argument into its place, call back once and unbox the answer |
| StubCorrect.HookStubCorrect | native/lsplant_jni/lsplant.cc:351-407 | interpreting the encoded stub, for all return types and all arguments up to slot 253, calls back exactly once with the boxed arguments and returns the answer of the right kind, or throws when it is of another kind |
| StubCorrect.StubExact | native/lsplant_jni/lsplant.cc:351-407 | for every argument list a method can have, the encoded stub does what it is for if and only if the last parameter begins at slot 253 or before; with one at slot 254 it gets stuck in storing that argument |
| StubCorrect.GenerateHook | native/lsplant_jni/lsplant.cc:336-407 | building and encoding the hook method of any shorty a method can have gives the code the previous rows are about; an empty shorty is refused |
| ClassOrder.Sorter.TopSort | native/lsplant_jni/external/dex_builder/slicer/dex_ir.cc:221-238 | a class is indexed after everything it uses, indexes already given stay, and the index stays below the number of classes |
| ClassOrder.Sorter.SortAll | native/lsplant_jni/external/dex_builder/slicer/dex_ir.cc:240-251 | for every acyclic graph the indexes are a permutation in which superclasses and interfaces come first |
| ClassOrder.IndexItemsKeeps | native/lsplant_jni/external/dex_builder/slicer/dex_ir.cc:204-212 | sorting by index and renumbering by position changes no index |
| DexWalk.LengthsAgree | native/lsplant_jni/external/dex_builder/include/slicer/reader.h:30-41 | the scanner's length table agrees with every format the builder emits |
| DexWalk.PayloadStep | native/lsplant_jni/external/dex_builder/dex_helper.cc:256-265 | switch and array payloads are skipped exactly, if and only if an array's size does not overflow 32 bits |
| DexWalk.WalkAssembled | native/lsplant_jni/external/dex_builder/dex_helper.cc:215-266 | in a file of less than 2^32 bytes, the scanner visits every assembled instruction once, in order, and nothing else |
| DexCache.DexHelper.ScanMethod | native/lsplant_jni/external/dex_builder/dex_helper.cc:168-264 | walking over its units, a method is recorded once per matching instruction, at most once ever; a string match is reported exactly when a string of the range is used |
| DexCache.DexHelper.FindAll | native/lsplant_jni/external/dex_builder/dex_helper.cc:424-485 | whatever was cached, each passing method is reported once per matching instruction, as an uncached scan would |
| DexCache.DexHelper.FindCallees | native/lsplant_jni/external/dex_builder/dex_helper.cc:388-422 | the passing callees of a method in instruction order, or the first of them |
| DexCache.DexHelper.FindFirstText | native/lsplant_jni/external/dex_builder/dex_helper.cc:313-386 | an exact string query finds a first hit exactly when there is one |
| DexCache.DexHelper.FindFirst | native/lsplant_jni/external/dex_builder/dex_helper.cc:424-485 | a first-hit query is sound, and succeeds if and only if the cache holds a passing method, or is empty and there is a hit, or the first passing method left to scan is one |
| DexCache.DexHelper.FirstIsComplete | native/lsplant_jni/external/dex_builder/dex_helper.cc:446-473 | nothing is missed when the cache is empty or holds a passing method |
| DexCache.DexHelper.FirstCanMiss | native/lsplant_jni/external/dex_builder/dex_helper.cc:460-473 | otherwise a hit behind the first passing method left to scan is missed |
| DexCache.MissedCaller | native/lsplant_jni/external/dex_builder/dex_helper.cc:424-485 | a concrete file and history in which a caller is missed |
| HashTable.Redirect | native/dobby/external/TINYSTL/hash_base.h:185-190 | the entries from a bucket downwards that hold one pointer, and only those, hold the other |
| HashTable.NodeInsert | native/dobby/external/TINYSTL/hash_base.h:160-191 | the node joins the end of its bucket; list, order and bucket entries stay consistent |
| HashTable.NodeErase | native/dobby/external/TINYSTL/hash_base.h:193-207 | exactly the node leaves; list, order and bucket entries stay consistent |
| HashTable.HashFind | native/dobby/external/TINYSTL/hash_base.h:283-290 | searching one bucket's segment decides membership in the whole table |
| HashTable.LastHeadNull | native/dobby/external/TINYSTL/hash_base.h:160-191 | the entry behind the last bucket is null |
| HashTable.HeadAfterInsert | native/dobby/external/TINYSTL/hash_base.h:185-190 | after an insertion every entry points at the first node of its bucket or a later one |
| HashTable.HeadAfterErase | native/dobby/external/TINYSTL/hash_base.h:196-200 | after a removal every entry points at the first node of its bucket or a later one |
| HashTable.UnorderedMap.Find | native/dobby/external/TINYSTL/unordered_map.h:189-200 | null exactly for absent keys, otherwise the node with the map's value |
| HashTable.UnorderedMap.Insert | native/dobby/external/TINYSTL/unordered_map.h:222-243 | the map gains the pair exactly when the key was absent; growth keeps all nodes |
| HashTable.UnorderedMap.Rehash | native/dobby/external/TINYSTL/unordered_map.h:203-219 | eight times the buckets exactly above the load limit, with the same nodes and the same map |
| HashTable.UnorderedMap.Erase | native/dobby/external/TINYSTL/unordered_map.h:269-275 | exactly the node's key leaves the map |
| HashTable.UnorderedMap.SetValue | native/dobby/external/TINYSTL/hash_base.h:208-214 | a write to the value behind an iterator changes the map at that key and keeps it consistent |
| HashTable.UnorderedMap.Index | native/dobby/external/TINYSTL/unordered_map.h:277-280 | operator[] adds the initial value exactly for absent keys and returns the key's node |
| HashTable.UnorderedMap.Assign | native/dobby/external/TINYSTL/unordered_map.h:277-280 | assigning through operator[] maps the key to the value and changes nothing else |
| HashTable.UnorderedMap.Copy | native/dobby/external/TINYSTL/unordered_map.h:92-105 | the copy holds the same map in new nodes and iterates in the same order |
| HashTable.UnorderedMap.Clear | native/dobby/external/TINYSTL/unordered_map.h:173-186 | the map is empty and has nine bucket entries again |
| HashTable.RepresentsSize | native/dobby/external/TINYSTL/unordered_map.h:159-170 | the number of nodes is the number of keys |
| Sha1.SwapBytes | native/lsplant_jni/external/dex_builder/slicer/sha1.cpp:82-86 | the two rotations and masks turn a little-endian load into the big-endian word |
| Sha1.CodeForm | native/lsplant_jni/external/dex_builder/slicer/sha1.cpp:93-98 | the macros' Boolean functions are Ch, Parity and Maj of section 4.1.1 of FIPS 180-4 |
| Sha1.NextWord | native/lsplant_jni/external/dex_builder/slicer/sha1.cpp:82-91 | each step of the circular sixteen-word schedule gives the word of the eighty-word schedule |
| Sha1.Five | native/lsplant_jni/external/dex_builder/slicer/sha1.cpp:125-149 | five macros with rotated names are five rounds of section 6.1.2 of FIPS 180-4 |
| Sha1.Transform | native/lsplant_jni/external/dex_builder/slicer/sha1.cpp:103-159 | the block function is the standard's compression |
| Sha1Stream.CountAdd | native/lsplant_jni/external/dex_builder/slicer/sha1.cpp:183-186 | carry test and shifted-out bits keep the two counter words equal to the bit length modulo 2^64 |
| Sha1Stream.Context.Update | native/lsplant_jni/external/dex_builder/slicer/sha1.cpp:178-198 | for any split of a message, state, buffer and counter are those of the concatenation, if and only if the buffered bytes and the length add up to less than 2^32 |
| Sha1Stream.Context.Pad | native/lsplant_jni/external/dex_builder/slicer/sha1.cpp:226-237 | the appended bytes are the padding of section 5.1.1 of FIPS 180-4 |
| Sha1Stream.Context.Final | native/lsplant_jni/external/dex_builder/slicer/sha1.cpp:203-245 | the digest is the serialized SHA-1 of the whole message |
| Sha1Stream.DigestReads | native/lsplant_jni/external/dex_builder/slicer/sha1.cpp:238-241 | the digest bytes read big-endian give the five words |
| NearAllocator.Allocator.AllocIn | native/dobby/source/MemoryAllocator/MemoryAllocator.cc:5-14 | a block is the next bytes of its arena exactly when they fit; arenas and blocks stay disjoint if they were |
| NearAllocator.Allocator.AllocateExec | native/dobby/source/MemoryAllocator/MemoryAllocator.cc:35-53 | a block at the cursor of the first arena with room, or at the start of a new one; disjointness is kept exactly when a new mapping, 0 if it failed, is apart from all arenas |
| NearAllocator.Allocator.NearInArenas | native/dobby/source/MemoryAllocator/NearMemoryAllocator.cc:48-108 | in range and inside one arena; fails exactly when no arena has room in range |
| NearAllocator.FindGap | native/dobby/source/MemoryAllocator/NearMemoryAllocator.cc:118-153 | the chosen place lies between two regions and inside the range; none exactly when no gap has room |
| NearAllocator.RepeatNoGap | native/dobby/source/Backend/UserMode/PlatformUtil/Linux/ProcessRuntimeUtility.cc:31-34 | a region listed twice in a row never gives the near allocator a place |
| NearAllocator.TakenPages | native/dobby/source/MemoryAllocator/NearMemoryAllocator.cc:155-162 | the pages taken for a block stay inside its gap if and only if the block does not end, page-aligned, at the next region |
| NearAllocator.TakenApart | native/dobby/source/Backend/UserMode/UnifiedInterface/platform-posix.cc:134-146 | the fixed mapping is apart from every arena if and only if it stays in the gap or the page beyond is no arena's |
| NearAllocator.Allocator.NearInGaps | native/dobby/source/MemoryAllocator/NearMemoryAllocator.cc:110-187 | the block lies in range in a new arena of exactly the pages taken; disjointness is kept exactly when these stay in the gap or the page beyond is no arena's; fails exactly when no gap has room or the mapping fails |
| NearAllocator.Allocator.AllocateNear | native/dobby/source/MemoryAllocator/NearMemoryAllocator.cc:189-201 | within the search range and inside one arena, an existing one whenever that has room; arenas and blocks stay disjoint if and only if the new arena, if there is one, does not overrun its gap onto another; a failure changes nothing |
| NearAllocator.HandedOutTwice | native/dobby/source/MemoryAllocator/NearMemoryAllocator.cc:155-187 | a concrete history in which the same page is handed out twice |
| CoreEngine.InsertStable | core/src/mq/core/CoreEngineImpl.java:147-149 | a new entry comes last among its equals and the others keep their order |
| CoreEngine.AddAndSort | core/src/mq/core/CoreEngineImpl.java:148-149 | adding at the end and sorting stably is inserting behind the last entry of at least that priority |
| CoreEngine.Engine.Add | core/src/mq/core/CoreEngineImpl.java:132-152 | fails exactly when the native hook does; keeps hooked-iff-entries, descending priority and registration order on ties |
| CoreEngine.Engine.Unhook | core/src/mq/core/CoreEngineImpl.java:176-188 | removes one registration; with a working native unhook the member is unhooked exactly with its last entry |
| CoreEngine.DispatchPlain | core/src/mq/core/CoreEngineImpl.java:267-298 | BEFORE in list order, the original unless skipped, AFTER in reverse; a throwable left at the end is thrown, otherwise the result is returned, null for void methods and constructors |
| CoreEngine.ReplayOnce | core/src/mq/core/CoreEngineImpl.java:408-424 | however often a replacing callback proceeds, the original is reached at most once, and never after someone proceeded |
| CoreEngine.RunReplace | core/src/mq/core/CoreEngineImpl.java:245-262 | a replacing callback's calls and result follow its moves step by step |
| CoreEngine.ChainOnce | core/src/mq/core/CoreEngineImpl.java:245-266 | the original is called at most once along a whole chain of replacements |
| CoreEngine.DispatchReplace | core/src/mq/core/CoreEngineImpl.java:245-266 | replacing callbacks run in list order up to the first that raises or leaves the original uncalled, and the last result counts, null for void methods and constructors |
| CoreEngine.Dispatch | core/src/mq/core/CoreEngineImpl.java:233-298 | the original is called at most once, whatever the callbacks do; trace and outcome are those of the two rows above or of plain dispatch |

## Left out

- ARM32, Thumb, x86 and x64 relocators: a second instruction set repeats the ARM64 argument.
- SIMD, LDRSW and PRFM literal loads, B.AL/B.NV and branches into the copied range: the relocator does not treat them faithfully; the simulation excludes them.
- RelocationSim.PrologueSimulated: assumes of the states the run visits that no word's effect there depends on X17, that the image is left as it is, and that jumps and calls leave the copied range; both regions lie below the end of the address space.
- relocated_offset_map, instruction cache maintenance and code patching: bookkeeping without a consumer here, or platform calls.
- Memory orders weaker than sequential consistency, and lost or spurious wake-ups in the two atomic protocols.
- mmap, memfd, ashmem and the user-supplied executable allocator: fresh-page oracles that may fail.
- JNI wrappers, reflection, symbol hooks and the building of classes around a hook: foreign calls. The order of the statements inside Hook that only move JNI references is not modelled.
- Interning of DEX strings, types and methods, the DEX writer and reader, and LEB128: a parameter that gives every entry its own 16-bit index.
- DexEncoder.MethodBuilder.EncodeInstructions: the encoder's assertions are preconditions, so the range 32768 to 65535 of 16-bit constants, which trips one of them, is outside the model.
- The decoder's formats for opcodes the builder never emits, and code that is not straight-line in the interpreter.
- The generated backup method: it only returns a zero of the right kind.
- DexCache.DexHelper.ScanMethod: a read past the end of a truncated method gives 0, and the headers of compact DEX files are not modelled.
- Prefix string search and queries over several DEX files at once: the former is not complete in the source, the latter repeats a query per file.
- Jit movements beyond recording them.
- ClassOrder.Sorter.TopSort: cyclic class graphs, on which the source recurses for ever, are excluded.
- HashTable.UnorderedMap.Clear: freeing of nodes is not modelled; allocation always succeeds.
- Move construction and swap of the hash map, and the set built on the same nodes.
- Sha1Stream.Context.Update: says nothing about the context after an overrun of its buffer.
- NearAllocator.Allocator.AllocateNear: near data blocks, which repeat the executable ones, and address sums that wrap inside the gap tests are not modelled.
- CoreEngine.Engine.Unhook: an entry is removed by identity, which is unique because every registration makes a new one; concurrent calls are serialized by the holder's lock.
- ELF and Mach-O resolvers, import tables, syscall monitors, the zygisk module, logging and the web interface.
