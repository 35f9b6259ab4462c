# Pone: a verified model of its compilers and runtime

Pone compiles a Perl-like language to C and brings its own runtime. This project models the
parts of it that carry hard guarantees and proves those guarantees with Dafny 4.11:

* **The PEG compiler `greg`** (`Peg*.dfy`). A grammar tree is translated to straight code with
  labels, gotos, save/restore of the position and of the queue of deferred actions. `Peg` gives
  the meaning of grammars, `PegLaws` the laws it obeys, `PegCompiler` the translation, `PegMachine` a small-step machine that
  runs emitted code. The main theorem, `PegMachine.CompilerCorrect`, is an equivalence in both
  directions for every grammar, rule and input. `PegActions` proves that the queue a parse leaves
  nests and that every action reads the variables of its own rule, `PegConsumes` that the left-recursion test is sound and exact, `PegBuffer` that the buffered
  matcher does what matching on the whole input does, and `PegRuntime` that emitted code running
  on the buffer takes the same steps as on the whole input.
* **The hash table `pone_khash.h`** (`Probe`, `RoundUp`, `KFlags`, `KHash`, `KHashTable`). Power of
  two capacities, triangular probing, tombstones, in-place rehash with a kick-out loop. The table
  refines a finite map over every run and for every hash function.
* **The memory manager** (`Memory`, `World`). Arenas, free list, temporaries, scopes, marking over a
  possibly cyclic heap, sweep. A collection keeps exactly what is reachable and frees every other
  slot, a saved temporary survives until its scope is popped, and the scope a throw goes back to
  is always alive.
* **Control and scoping** (`Scoping`, `ScopingLaws`, `ScopingProof`, `ScopingFragment`, `CompileContext`,
  `Exceptions`). Blocks, `my`, assignment, logical operators, `if`, `while`, `next`, `last` become
  scope pushes, pops and assignments by distance. For every program the emitted calls do what the
  program means on every run on which no assignment misses the frame it is meant for, and that is
  the exact condition; programs with `my` directly in its block never miss. Calls, tries and throws
  through the handler stack mean structured exceptions.
* **The channel** (`Channel`). A step relation over any number of threads with a mutex, two condition
  variables and spurious wakeups, as IEEE Std 1003.1-2008 allows for `pthread_cond_wait`.
* **Deep copy** (`Copy`) and **quicksort** (`Sort`).

Code that updates objects or arrays is modelled by classes, arrays and loops, each method proved
against a specification function or a predicate of the old and the new state; the emitted programs,
the channel's interleavings and the lemmas about them are datatypes, functions and relations.

`dafny verify dfyconfig.toml` checks all of it.

## Where the code falls short of what one would expect

* `yySet` offsets are assigned while an action of the rule is printed
  (3rd/greg/compile.c:344-353, 886). A rule that has variables but no action keeps offset 0 and
  stores just above its frame, which is even outside the buffer when the frame ends where the
  buffer does. `PegActions.ParseBalanced` has the exact condition for a whole parse: all stores are
  inside their frames exactly when none is at offset 0, and offset 0 is that of rules without an
  action (`PegActions.SetInsideIffArmed`); `PegActions.UnarmedStoreMisses` is a grammar that shows it.
* A failing literal leaves `pos` advanced exactly when the input ends inside the literal
  (3rd/greg/compile.c:596-611; `PegMatch.StringAtLeavesAdvanced`). The enclosing save and restore
  repair it, which is part of `PegMachine.CompilerCorrect`.
* `kroundup32` gives 0 above 2^31, so a table of 2^31 buckets that has to double asks for 4 buckets
  and stays as it is (`RoundUp.RoundsUp`, `KHashTable.GrowthWraps`). It still works until all of its
  buckets are live; then an insertion of an absent key answers 0 and returns another key's bucket.
  `Put` states both sides of that condition, and `KHashTable.FullTableMisreports` gets there.
* A negative channel limit lets a sender and a receiver wait for each other for good
  (`Channel.NegativeLimitBlocks`); with a limit of 0 or more it cannot happen (`Channel.NoDeadlock`).
* The branches of an `if` open no scope, so a `my` in a branch that is not taken still redirects later
  assignments (`ScopingFragment.MyInBranchMisses`); and `my $x = ($x = 2)` assigns the new `$x`, not the
  outer one (`ScopingFragment.SelfInitMisses`). The exact condition is a test of one frame before the
  assignment: by `ScopingProof.AssignHitsIff` and `ScopingProof.AssignAgreesIff` an assignment does what
  it means exactly when the frame at the distance the compiler computed already has the variable.
  `ScopingProof.RunCorrect` makes that a theorem about whole runs, and `ScopingFragment.SureCorrect`
  gives a test that needs no run.
* A class method is a Code without a scope, so its `return` leaves its own scope on the chain
  (`Exceptions.MethodLeaks`). A call of such a Code leaves the scope in place exactly when its body
  closes what it opens and nothing else (`Exceptions.RestoresIff`).
* The collector marks the scopes of the handlers below `err_handler_idx`, while a push writes at
  `err_handler_idx + 1` (src/exc.c:26-28 against src/world.c:178-180), so the innermost handler's
  scope is not a root of its own. It is alive all the same, because the call inside the try saves
  its caller's scope as a temporary (src/code.c:73-75): `World.HandlerScopeLive`.
* The list of callers is a temporary and nothing else holds it (src/world.c:68, 182-185). It is alive until
  the world is released (`World.CallersLive`); a release drops it, and if a collection has been asked for,
  `world->caller_stack` then points to a free slot (`World.ReleasedWorldLosesCallers`).
* An object is copied with its instance variables shared (`Copy.ObjectsShare`), an opaque value with
  its body; all other values that can be copied share nothing.

## Model

| member | source | states |
|---|---|---|
| PegMachine.CompilerCorrect | 3rd/greg/compile.c:175-407 | for every grammar, rule, input, position and queue: the emitted function returns 1 at (p', q') exactly when the rule matches there with that action queue, returns 0 exactly when it fails, and on 0 position and queue are as before |
| PegMachine.RuleRun | 3rd/greg/compile.c:365-407 | for each depth of evaluation the run halts with the outcome of the grammar, or is still running after at least that many steps |
| PegMachine.HaltMeans | 3rd/greg/compile.c:365-407 | whatever a halting run ends with is an outcome of the grammar |
| PegMachine.NeverStuck | 3rd/greg/compile.c:175-407 | after any number of steps emitted code is not stuck: every restore finds its save, every goto its label |
| PegMachine.SimNode | 3rd/greg/compile.c:175-331 | code of a node with failure label ko falls through at (p', q') when the node matches with that outcome, reaches ko with the queue only extended when it fails, and leaves older save slots alone |
| PegMachine.SimRule | 3rd/greg/compile.c:365-407 | a rule's function, entered at (p, q), reaches its return with the rule's outcome, including rules that omit the failure exit |
| PegMachine.SafeNeverFails | 3rd/greg/compile.c:379-380 | an expression `e?` or `e*` never fails, which is why its rule needs no failure exit |
| PegCompiler.RuleJumpsResolved | 3rd/greg/compile.c:365-407 | labels in a rule's function are pairwise different and every goto has its label there |
| PegCompiler.CompileShape | 3rd/greg/compile.c:175-331 | the code of a node defines distinct labels fresh from the counter and jumps only to them or to ko |
| PegCompiler.ProgramAt | 3rd/greg/compile.c:406-407 | each rule's function is that rule compiled with the label counter where the rules before it left it |
| PegCompiler.LastInstr | 3rd/greg/compile.c:379-401 | a rule's function ends with the return of a success exactly if its expression is an option or a repetition, else with that of a failure |
| PegCompiler.ActionQueued | 3rd/greg/compile.c:225-227 | a rule counts as having an action exactly when its function queues one |
| PegLayout.RuleLaidOut | 3rd/greg/compile.c:365-407 | where in a rule's function its prologue, body, pop and exits stand |
| Peg.EvalForward | 3rd/greg/compile.c:175-331 | a match never moves backwards, stays within the input, and only appends to the queue |
| PegLaws.PeekForLaw | 3rd/greg/compile.c:259-281 | `&e` means `!!e` |
| PegLaws.QueryLaw | 3rd/greg/compile.c:283-295 | `e?` means `e / ''` |
| PegLaws.PlusLaw | 3rd/greg/compile.c:311-325 | `e+` means `e e*` |
| PegLaws.LiteralLaw | 3rd/greg/compile.c:202-219 | a literal means the sequence of its parts |
| PegLaws.ClassLaw | 3rd/greg/compile.c:185-223 | a literal of one byte means the class of that byte, and `.` the class of all |
| PegMatch.StringAtPrefix | 3rd/greg/compile.c:596-611 | byte-by-byte comparison succeeds exactly on a prefix and then stands behind it |
| PegMatch.StringAtFails | 3rd/greg/compile.c:596-611 | a failing test ends at the end of the input when the rest of the input is a proper prefix of the literal, and at the start in every other case |
| PegMatch.StringAtLeavesAdvanced | 3rd/greg/compile.c:596-611 | the literal test fails with the position advanced exactly when the input ends inside the literal |
| PegActions.ParseBalanced | 3rd/greg/compile.c:383-391 | in the queue of any successful parse of any grammar pushes and pops nest and none stays open, every store goes to its variable's place in the frame of its rule or to offset 0, and all go to their places exactly when none is at offset 0, in particular when every rule with variables has an action |
| PegActions.StrictIff | 3rd/greg/compile.c:706-718 | of a queue that nests, the stores at offset 0 are exactly those that miss their frames |
| PegActions.SetInsideIffArmed | 3rd/greg/compile.c:344-353 | a store goes to the place where the actions of its rule read the variable exactly when the rule has an action |
| PegActions.NameStores | 3rd/greg/compile.c:189-200 | a match of `name:rule` ends with a store for that variable |
| PegActions.SetInPlace | 3rd/greg/compile.c:717-718 | a store disturbs neither the variables of the other open rules nor the other variables of its own |
| PegActions.InPlaceShows | 3rd/greg/compile.c:344-353 | so an action that reads variable i just where `#define` puts it finds the last value stored in it since its rule was entered |
| PegActions.UnarmedStoreMisses | 3rd/greg/compile.c:871-893 | a grammar whose rule has a variable and no action and stores outside its frame |
| PegActions.ValueStack.YyPush | 3rd/greg/compile.c:706-716 | moves the top up by a frame, keeping the contents through growth of the buffer |
| PegActions.ValueStack.YyDone | 3rd/greg/compile.c:664-677 | running the queue of any successful parse ends with `val` at the bottom; without stores at offset 0 every store is inside the buffer, and then each is still there unless overwritten, and every action sees in each variable of its rule the last value stored |
| PegConsumes.ConsumesSound | 3rd/greg/compile.c:810-868 | if the answer for a node is 1, every successful match of it strictly advances, whatever rules are flagged and however the rules recurse |
| PegConsumes.RuleConsumesSound | 3rd/greg/compile.c:816-829 | the same for a rule under its reached flag |
| PegConsumes.ConsumesExact | 3rd/greg/compile.c:810-868 | the answer is 0 exactly when there is a derivation that consumes nothing, taking predicates and lookahead to hold and a flagged rule as reached |
| PegBuffer.Greg.constructor | 3rd/greg/compile.c:735-746 | an empty buffer of the starting size over the whole input |
| PegBuffer.Greg.Grow | 3rd/greg/compile.c:544-548 | doubling ends with room for 512 bytes, contents kept |
| PegBuffer.Greg.YyRefill | 3rd/greg/compile.c:541-553 | answers 1 exactly when the input has more, keeps the place, and the buffer is still that part of the input |
| PegBuffer.Greg.YyMatchDot | 3rd/greg/compile.c:555-560 | the same answer and new place as matching any byte on the whole input |
| PegBuffer.Greg.YyMatchChar | 3rd/greg/compile.c:577-594 | the same answer and new place as matching a byte on the whole input |
| PegBuffer.Greg.YyMatchString | 3rd/greg/compile.c:596-611 | the same answer and new place as the literal test on the whole input, also when it runs out |
| PegBuffer.Greg.YyMatchClass | 3rd/greg/compile.c:613-630 | the same answer and new place as the class test on the whole input |
| PegBuffer.Greg.YyCommit | 3rd/greg/compile.c:679-689 | shifting the buffer down keeps the place in the input, the places of the captured text and what is buffered, and empties the action queue |
| PegBuffer.Greg.Reset | 3rd/greg/compile.c:185-331 | restoring a saved position that is in the buffer |
| PegBuffer.Greg.YyBegin | 3rd/greg/compile.c:467-469 | the captured text begins at the place in the input |
| PegBuffer.Greg.YyEnd | 3rd/greg/compile.c:470-472 | the captured text ends at the place in the input |
| PegRuntime.StepOn | 3rd/greg/compile.c:175-407 | every step of emitted code on the buffer is the step on the whole input, and every saved position stays in the buffer |
| PegRuntime.CallOn | 3rd/greg/compile.c:732-755 | a rule called on the buffer goes through the same configurations as on the whole input, so the compiler theorem holds of it |
| PegRuntime.ParseFrom | 3rd/greg/compile.c:732-755 | a whole parse on the buffer: it succeeds or fails as the grammar says, runs exactly the queue of the match with every action seeing its variables and `val` back at the bottom, and the next parse begins behind the match, or at the same place after a failure |
| PegRuntime.ReadyLabelled | 3rd/greg/compile.c:365-407 | compiled grammars are machines the buffered runtime can run |
| Probe.FirstDistinct | include/pone_khash.h:51-53 | the first 2^k probe positions are pairwise different |
| Probe.BucketTri | include/pone_khash.h:233-239 | after j steps the probe is at the hash plus 1 + 2 + ... + j, modulo the number of buckets |
| Probe.Visits | include/pone_khash.h:51-53 | every bucket is among the first 2^k probe positions |
| Probe.FirstReturn | include/pone_khash.h:233-240 | the probe is back at its start after 2^(k+1) - 1 steps and not before |
| Probe.BackMeansAll | include/pone_khash.h:320-329 | being back at the start means every bucket has been inspected |
| RoundUp.RoundsUp | include/pone_khash.h:176-176 | on 32-bit words the result is the power of two in [x, 2x) for x from 1 to 2^31, and 0 for all other x |
| RoundUp.OnlyPower | include/pone_khash.h:176-176 | there is only one power of two in [x, 2x) |
| RoundUp.MaskIsWrap | include/pone_khash.h:233-239 | masking with 2^k - 1 is the remainder by 2^k |
| KHash.UpperRounds | include/pone_khash.h:192-192 | the load limit is 0.77 of the buckets, rounded to the nearest whole |
| KFlags.EitherMeans | include/pone_khash.h:165-167 | a two-bit field reads as live exactly when neither bit is set |
| KFlags.PlaceSets | include/pone_khash.h:169-169 | clearing the empty bit of a proper empty field makes it live |
| KFlags.OccupySets | include/pone_khash.h:170-170 | clearing both bits makes a field live |
| KFlags.DeleteSets | include/pone_khash.h:171-171 | setting the deleted bit of a live field makes it deleted |
| KFlags.FreshFlags | include/pone_khash.h:255-255 | words filled with 0xaa are flags that are all empty |
| KFlags.PlaceFlags | include/pone_khash.h:169-169 | on the array of words, where bucket i is in word i >> 4, the macro sets one empty flag to live and keeps all others |
| KFlags.OccupyFlags | include/pone_khash.h:170-170 | on the array of words the macro sets one flag to live and keeps all others |
| KFlags.DeleteFlags | include/pone_khash.h:171-171 | on the array of words the macro sets one live flag to deleted and keeps all others |
| KHashTable.FindEmpty | include/pone_khash.h:278-281 | finds an empty bucket on the key's probe sequence with none empty before it |
| KHash.Place | include/pone_khash.h:277-292 | placing the entry in hand, taking out what was there, keeps: each entry is in hand, in the new table once and findable, or still waiting in the old one |
| KHashTable.KickOut | include/pone_khash.h:277-292 | the kick-out loop ends with nothing in hand and more entries placed |
| KHashTable.MoveAll | include/pone_khash.h:268-294 | after all old buckets are visited the new table holds exactly the same map, every key findable, no tombstone |
| KHashTable.Rebuild | include/pone_khash.h:252-298 | the same with growing before and cutting down after |
| KHashTable.Table.constructor | include/pone_khash.h:212-214 | a new table is the empty map |
| KHashTable.Table.Get | include/pone_khash.h:230-243 | finds the bucket of a key, with its value, exactly when the key is in the map; otherwise the end bucket |
| KHashTable.Table.Rehash | include/pone_khash.h:252-304 | rebuilding with n buckets, larger, equal or smaller, keeps the map and leaves no tombstone and n_occupied == size |
| KHashTable.Table.Resize | include/pone_khash.h:244-306 | the map is unchanged; when the entries fit the table has the rounded size, no tombstones and n_occupied == size, otherwise nothing changes |
| KHashTable.Table.MakeRoom | include/pone_khash.h:310-318 | below the load limit nothing changes; at it the table is rehashed without tombstones and has room, except that the table of 2^31 buckets that would have to double stays as it is |
| KHashTable.Table.FindSlot | include/pone_khash.h:319-335 | the live bucket of the key, else a reachable dead one while the key is absent, else, when every bucket is live, a bucket of another key |
| KHashTable.Table.Put | include/pone_khash.h:307-348 | for every table: the bucket and the answer 0, 1 or 2 are truthful exactly when the key is present or fewer than 2^31 buckets are live; then the key is live at the bucket and all other entries are unchanged |
| KHashTable.Table.SetValue | include/pone_khash.h:516-516 | storing through a live bucket updates exactly that key |
| KHashTable.Table.Del | include/pone_khash.h:349-355 | removes exactly the key of a live bucket; the end bucket and dead buckets are left alone |
| KHashTable.EmptyBucketRemains | include/pone_khash.h:244-306 | a table in use has an empty bucket exactly while n_occupied < n_buckets, and always below 2^31 buckets |
| KHashTable.RunAll | include/pone_khash.h:212-355 | for every hash function and every run of assignments, removals and resizes the table is the finite map those operations build, as long as that map has no more than 2^31 keys |
| KHashTable.SizeAtMost | include/pone_khash.h:249-250 | no table holds more than 2^31 keys, so the bound on runs is the largest possible |
| KHashTable.FullTableMisreports | include/pone_khash.h:330-347 | after 2^31 different keys an insertion of another one answers 0 |
| KHashTable.LiveAtMostUsed | include/pone_khash.h:310-311 | `size` never exceeds `n_occupied` |
| KHashTable.GrowthWraps | include/pone_khash.h:315-315 | doubling 2^31 buckets asks for 4 |
| Memory.MarksThen | src/gc.c:42-45 | marking from one set of roots and then another marks from both |
| Memory.MarksNode | src/gc.c:5-40 | setting a value's mark and marking what it refers to is marking from that value, also round a cycle |
| Memory.MarksExact | src/gc.c:5-40 | from no marks on values that refer to something, what ends up marked is exactly what is reachable |
| Memory.ClosedIff | src/gc.c:5-40 | a heap is closed exactly when nothing dangles, field by field: string source, array elements, map keys and values, code scope, instance variables and class, scope variables and parent |
| Memory.MarksCover | src/gc.c:14-39 | marking from what a value refers to marks each of those fields |
| World.World.MarkValue | src/gc.c:5-40 | terminates on a cyclic heap and marks exactly what the value leads to through unmarked values |
| World.World.StrMark | src/str.c:6-10 | marks from a string's source; the source is marked |
| World.World.CodeMark | src/code.c:4-8 | marks from a code's scope; the scope is marked |
| World.World.AryMark | src/array.c:6-11 | marks from every element; each element, from the first on, is marked |
| World.World.MapMark | src/map.c:9-14 | marks from every key and value; each of them is marked |
| World.World.ObjMark | src/obj.c:5-16 | marks from every instance variable and the class; each of them is marked |
| World.World.LexMark | src/scope.c:16-30 | marks from every variable and the enclosing scope; each of them is marked |
| World.World.UniverseMark | src/universe.c:124-139 | marks from the roots the universe holds |
| World.World.WorldMark | src/world.c:164-186 | marks from scope, error variable, code, handler scopes and temporaries |
| World.World.GcMark | src/gc.c:42-45 | marks from all roots |
| World.SweptSound | src/gc.c:47-105 | after the sweep every slot is live or on the free list once, what was marked is unchanged, every other slot is free |
| World.World.Collect | src/gc.c:47-105 | the two loops establish that |
| World.World.GcRun | src/gc.c:107-118 | what is reachable from the roots is unchanged, every other slot is free, nothing that a value holds dangles, no slot stays marked, and the whole state is sound again |
| World.NothingDangles | src/gc.c:47-105 | at every moment no field of any live value refers to a freed slot |
| World.RootsAre | src/world.c:164-186 | the roots are exactly the scope, the error variable, the code, the handler scopes below the index, the temporaries and those of the universe |
| World.UniverseAre | src/universe.c:124-139 | the roots of the universe are exactly `inc`, `args` and every signal channel |
| World.World.ValFree | src/alloc.c:64-74 | puts a slot at the head of the free list |
| World.World.TakeSlot | src/alloc.c:25-52 | returns a slot that is not live: the head of the free list, else the next of the last arena, else the first of a new one, asking for a collection then |
| World.World.ObjAlloc | src/alloc.c:13-60 | never returns a live slot, changes no other value, and the new value is a temporary |
| World.World.SaveTmp | src/scope.c:95-106 | appends to the temporaries |
| World.World.PushScope | src/scope.c:51-67 | a new scope inside the current one; the savestack records the number of temporaries |
| World.World.PopScope | src/scope.c:74-93 | back to the enclosing scope, temporaries cut to the recorded number |
| World.World.constructor | src/world.c:24-76 | a new world: one arena with the outermost scope and the list of callers, the latter a temporary, and no handler |
| World.World.BottomHandler | src/thread.c:19-19 | a worker records its scope for the bottom handler |
| World.World.HandlerPush | src/exc.c:26-28 | a try records the current scope one past the index |
| World.World.HandlerPop | src/exc.c:31-35 | the innermost handler is dropped |
| World.World.CallEnter | src/code.c:63-79 | a call runs a requested collection, saves the caller's scope, if there is one, as a temporary and enters the code's scope |
| World.World.ReturnTo | src/code.c:85-87 | a call that returns puts the saved scope back, or none if there was none |
| World.World.LeaveScope | src/module.c:155-158 | loading a module saves the current scope and goes on in none |
| World.CallersLive | src/world.c:68-68 | until the world is released its list of callers is live |
| World.ReleasedWorldLosesCallers | src/world.c:79-93 | a world released with a collection asked for has its list of callers in a free slot |
| World.World.Mutate | src/op.c:34-60 | a value changed in place, keeping references live, leaves the world sound |
| World.HandlerScopeLive | src/code.c:73-75 | the scope of the innermost handler is live at every moment |
| World.ControlledCall | src/code.c:73-75 | the call inside a try makes its handler's scope held by a temporary |
| World.ControlledPop | src/scope.c:74-93 | popping scopes opened inside the try keeps every handler scope held |
| World.ControlledCollected | src/gc.c:107-118 | so does a collection |
| World.World.Throw | src/exc.c:48-67 | takes value and the innermost handler's scope, which is live, and rewinds neither stack |
| World.World.Release | src/world.c:79-93 | no temporary, no saved mark and no code is left; the heap is unchanged unless a collection was asked for, which then keeps what is reachable and frees the rest |
| World.TemporarySurvives | src/scope.c:51-106 | over every run of allocations, scopes, early returns, throws and collections a temporary stays in place and alive until a savestack entry pushed before it is popped; the savestack stays non-decreasing and bounded by the number of temporaries |
| CompileContext.Context.Find | src/compile.c:238-249 | the distance to the innermost declaration, none nearer, or none at all |
| CompileContext.Context.Define | src/compile.c:94-103 | declares in the innermost scope |
| CompileContext.Context.PushVarsStack | src/compile.c:81-88 | a new empty innermost scope |
| CompileContext.Context.PopVarsStack | src/compile.c:90-92 | the innermost scope is gone, the others unchanged |
| CompileContext.Context.Expr | src/compile.c:544-570 | the walk over an expression emits its translation and advances the operator counter, or aborts exactly where the translation is undefined |
| CompileContext.Context.Statement | src/compile.c:613-880 | the walk over a statement emits its translation with the declarations and the counter of the translation, and leaves the loop stack as it was |
| CompileContext.Context.Leave | src/compile.c:613-624 | one pop for each scope opened since the loop began, then the jump |
| CompileContext.Context.BlockOf | src/compile.c:988-997 | a block's translation; the scope stack is as before |
| ScopingProof.AssignHitsIff | src/op.c:34-60 | an assignment at distance `find_lex(x)` is an assignment to the innermost frame that has x exactly when the frame at that distance has x, and then a lookup of x reads the value |
| ScopingProof.LookupReads | src/op.c:8-18 | a lookup reads the innermost frame that has the name |
| ScopingProof.LookupGlobal | src/op.c:20-31 | where no frame has it a lookup reads the globals, and finds nothing where they have not either |
| ScopingProof.UpdateWrites | src/op.c:34-60 | assignment in the meaning of programs changes the innermost frame that has the name and nothing else |
| ScopingProof.AssignUpWrites | src/op.c:34-60 | assignment at a distance changes that name in that frame and nothing else |
| ScopingProof.FoundAt | src/compile.c:238-249 | `find_lex` finds the innermost declaration |
| ScopingLaws.LogicalLaw | src/compile.c:541-570 | the operands of the logical operators, which is given when, by truth or definedness |
| ScopingLaws.MyLaw | src/compile.c:828-842 | a variable just declared is read with its value, whatever else has the name |
| ScopingLaws.BlockLaw | src/compile.c:988-997 | a declaration in a block is gone behind it |
| ScopingLaws.IfLaw | src/compile.c:763-790 | exactly one branch runs |
| ScopingLaws.NextLaw | src/compile.c:613-618 | `next` at the end of a body does nothing |
| ScopingLaws.LastLaw | src/compile.c:619-624 | `last` leaves the loop, and a false condition does not enter it |
| ScopingLaws.WhileLaw | src/compile.c:712-721 | a loop is its body in a scope and then the loop |
| ScopingProof.AssignAgreesIff | src/compile.c:871-880 | in states that agree, an assignment and its code leave states that agree exactly when that frame has the variable |
| ScopingProof.LookupLike | src/op.c:8-32 | a lookup of a program variable is the same with and without operator temporaries |
| ScopingProof.ExprCorrect | src/compile.c:544-570 | the emitted expression has the value of the source expression, or throws when it does, and leaves the same variables, if none of its assignments misses |
| ScopingProof.LogicalCorrect | src/compile.c:544-570 | `or`, `and` and defined-or through a temporary evaluate each operand as often as the source does and read back the right one |
| ScopingProof.MyCorrect | src/compile.c:828-842 | a declaration with initialiser, where the new variable is declared but not yet there while the initialiser runs |
| ScopingProof.LeaveCorrect | src/compile.c:613-624 | `next` and `last` from any nesting leave the scopes open when the loop began |
| ScopingProof.BlockCorrect | src/compile.c:988-997 | a block is entered and left at the same depth, whichever way it is left |
| ScopingProof.WhileCorrect | src/compile.c:712-721 | a loop and its code end alike, after the same number of rounds |
| ScopingProof.StmtCorrect | src/compile.c:712-880 | from states that agree any statement and its code end alike, the scope chain as deep as the compiler counts, if no assignment of the run misses |
| ScopingProof.RunCorrect | src/compile.c:255-267 | every program and its code both finish with the same variables, both throw, or both run on, on every run on which no assignment misses; no `next` or `last` escapes |
| ScopingFragment.SureCorrect | src/compile.c:238-267 | the same for every run of a program that sends each assignment to a frame which surely has the variable, counting after an `if` what both branches declare |
| ScopingFragment.AllSure | src/compile.c:238-267 | in such a program no assignment of any run misses |
| ScopingFragment.AllPlainSure | src/compile.c:828-880 | programs with every `my` directly in its block, an initialiser assigning its variable only if the block has declared it before, are such programs |
| ScopingFragment.ProgramCorrect | src/compile.c:255-267 | so these end as their code does, on every run |
| ScopingProof.StmtDeclares | src/compile.c:81-103 | what a statement declares at compile time depends on the statement alone |
| ScopingProof.StmtBelow | src/compile.c:81-103 | compiling a statement changes at most the innermost scope of the compiler's stack, which loses nothing |
| ScopingProof.TemporariesDistinct | src/compile.c:544-570 | no two logical operators of a program share a temporary |
| ScopingFragment.MyInBranchMisses | src/compile.c:763-790 | a `my` in a branch that does not run diverts a later assignment |
| ScopingFragment.SelfInitMisses | src/compile.c:828-842 | an assignment to the variable being declared is diverted to it |
| ScopingFragment.NeitherPlain | src/compile.c:828-842 | neither example has its `my` directly in its block with such an initialiser |
| Exceptions.World.HandlerPush | src/exc.c:4-29 | the new innermost handler remembers scope and call depth |
| Exceptions.World.HandlerPop | src/exc.c:31-35 | drops the innermost handler |
| Exceptions.World.Throw | src/exc.c:48-67 | jumps to the innermost handler with its scope, the call stack cut to its depth, the handler gone and the value in the error variable |
| Exceptions.World.VCall | src/code.c:60-95 | follows the meaning of the call and gives the value its body returned, or nil; a call of a Code that carries a scope, if it returns, leaves scope, call depth and handlers as at entry |
| Exceptions.World.Try | src/exc.c:77-87 | for any code: always comes back with call depth and handlers as at entry, and the scope too if the code carries one or the body threw; with the body's value if it returned one, and nil and the thrown value in the error variable if it threw |
| Exceptions.World.Do | src/code.c:60-95 | every command leaves the runtime where structured exceptions say: the handler reached by a throw is the innermost enclosing try |
| Exceptions.World.DoAll | src/code.c:60-95 | the same for every nesting of calls, scopes, early returns, tries and throws, including all that the program observed on the way |
| Exceptions.CalleeSees | src/code.c:60-95 | a called body sees the scope its Code carries and its call site on top of the callers, and its value is the value of the call |
| Exceptions.CaughtSees | src/exc.c:48-87 | after a try whose body threw inside a further call, the thrown value is in the error variable and scope and callers are those of the try |
| Exceptions.RestSkipped | src/compile.c:970-975 | nothing after a return or a throw is run |
| Exceptions.RestoresIff | src/code.c:89-94 | a body that ends normally ends in the scope it began in exactly when it closes what it opens and nothing else, counting what calls without a scope leave |
| Exceptions.BodyMoves | src/code.c:89-94 | where on the chain a body ends: as far below and above its start as its commands count, on scopes created meanwhile |
| Exceptions.MethodLeaks | src/compile.c:1069-1073 | a class method that opens a scope and returns leaves it behind |
| Channel.StepKeeps | src/channel.c:23-98 | every step of every thread keeps mutual exclusion, conservation and no lost wakeup |
| Channel.AlwaysInv | src/channel.c:23-98 | so they hold at every moment of every interleaving |
| Channel.FifoDelivery | src/channel.c:31-40 | received is a prefix of sent in lock order, `num` is the difference and at most limit + 1 |
| Channel.MessagesKept | src/channel.c:31-40 | no step of any thread changes the message another or the same thread carries, and only a call gives it one |
| Channel.MessageHandedOver | src/channel.c:37-38 | what a step appends to sent is the stepping thread's own message, and a thread gets rid of its message in no other way, except that a try-send may give up at the limit |
| Channel.MessageTaken | src/channel.c:91-92 | what a receiver takes is the oldest message of the buffer |
| Channel.CarriesItsCall | src/channel.c:23-74 | at every moment of every run the message a thread carries is the one of its last call |
| Channel.SentAsCalled | src/channel.c:23-74 | every message ever appended to sent is the one its sender was last called with |
| Channel.TrySendWithinLimit | src/channel.c:61-68 | a try-send succeeds exactly below the limit and never fills past it |
| Channel.NoDeadlock | src/channel.c:86-94 | with a limit of 0 or more, while a sender and a receiver are inside their calls some thread can move, without spurious wakeups |
| Channel.WaitersMove | src/channel.c:31-40 | a waiting sender and a waiting receiver imply a woken thread or a holder of the mutex |
| Channel.NegativeLimitBlocks | src/channel.c:121-132 | below 0 there is a run after which neither can ever move |
| Copy.World.ValCopy | src/obj.c:79-120 | the copy is equal to the original through arrays and maps, made only of new cells and singletons, and no old cell changed |
| Copy.EqualLooks | src/obj.c:79-120 | no path of indices and keys tells a value and its copy apart |
| Copy.World.AryCopy | src/array.c:14-20 | the same for an array, element by element |
| Copy.World.MapCopy | src/map.c:16-25 | the same for a map, in whatever order its table is walked |
| Copy.World.ObjCopy | src/obj.c:68-76 | a new object of the same class with the same instance variables |
| Copy.ObjectsShare | src/obj.c:68-76 | the copy of an object shares the values of its instance variables |
| Copy.World.MapAssignKey | src/map.c:69-82 | sets one key, turned into a string if it is none; an equal key object already there is kept |
| Copy.AssignedMeans | src/map.c:69-82 | one key gets the value and all other entries stay |
| Copy.StillEqual | src/channel.c:37-37 | whatever later happens to cells that are not the copy's own, the copy still equals what was sent |
| Copy.AcyclicWithin | src/obj.c:79-120 | a value that contains no code, no scope and not itself can be copied, whatever else the heap holds |
| Sort.CmpSwap | src/sort_r.h:47-59 | swaps exactly when the first is greater, and permutes |
| Sort.Insertion | src/sort_r.h:68-74 | a sorted permutation of the range |
| Sort.MedianOfThree | src/sort_r.h:79-92 | the place of a median of first, middle and last |
| Sort.MoveLeft | src/sort_r.h:103-108 | the left cursor's sweep brings the pivot to it and keeps both sides on their side of the pivot |
| Sort.MoveRight | src/sort_r.h:109-114 | the right cursor's sweep likewise |
| Sort.Partition | src/sort_r.h:99-115 | the cursors meet at the pivot's final place |
| Sort.SortSimple | src/sort_r.h:62-120 | terminates with a sorted permutation of the range and the rest untouched, for every total preorder |
| Sort.SortAll | src/sort_r.h:62-120 | the whole array is sorted and has the same elements |
| Sort.StrCmpMeans | src/op.c:382-396 | zero exactly for equal strings, negative exactly when the first is before the second in dictionary order of bytes |
| Sort.ByStringIsTotalPreorder | src/array.c:257-259 | comparing values by their strings is a total preorder |

## Left out

- Text: the printed C of both compilers is an instruction datatype; literals are decoded byte strings (one byte becomes a character test, otherwise a string test), character classes are sets of bytes.
- User code in grammars: a predicate is an arbitrary boolean function of its number and the position; an action is an opaque entry of the queue; error blocks, `YYACCEPT`, captured text and `begin`/`end` are not modelled.
- A queued store names its variable besides its offset, which the thunk in the source does not; only the offset decides where it goes.
- 3rd/greg/tree.c: grammar trees are given, as the constructors build them; rules that are used but not defined are excluded.
- Save variables of emitted code are slots of one activation; C block scoping of `yypos`/`yythunkpos` is not modelled.
- PegConsumes.ConsumesSound: the reached flags are a set passed down instead of flags set and cleared; the warning that is printed is not modelled.
- A one-byte literal of 128 or more: `yymatchChar` compares a character constant, negative where `char` is signed, with an unsigned byte (3rd/greg/compile.c:580) and never matches there; the model matches it.
- KHashTable.Table: flags are a three-valued array (that the packed words refine it under every macro is KFlags); failure of `malloc` and return code -1 are not modelled; the load limit 0.77 is computed with integers, rounding as the source does.
- KHashTable.Table.Put: the value of a new entry is whatever the bucket held until it is assigned, as in the source.
- World.World.GcRun: the heap is closed, which means this world's arenas and the static singletons; values of other worlds would keep their mark. Buffers and tables owned by a value, finalizers and reference counts of opaque values, the debug options for stress collection and for not reusing slots are not modelled.
- World.World.HandlerPush: asks that the try before it has begun its call of a Code that carries a scope, as emitted tries do (src/compile.c:1022), and that the bottom handler has its scope, which only a worker sets (src/thread.c:19); `pone_world_new` leaves it unset, and the main world, which only compiles, never opens a try.
- World.World.CallEnter: the entry pushed on the caller stack is an allocation and a mutation like any other.
- World.World.PopScope: a try's body pops no scope opened before it, which emitted code guarantees by its block structure; this is asked, not proved from the compiler.
- ScopingProof.RunCorrect: closures, `for`, list declarations, operators whose operands C may evaluate in either order, and the check that a variable belongs to the running thread are not modelled.
- ScopingProof.WhileCorrect: the postfix form `stmt while cond` (src/pone.y:172), whose body has no scope, is not modelled; runs are cut off after a number of rounds, the same on both sides, and compared for every such number.
- CompileContext.Context: emitted code is returned instead of appended to a buffer.
- Exceptions.World: function bodies are trees of what they do; the capacity of the handler arrays, the collection a call may start and the temporary it saves are in the World model. The bottom handler is any handler.
- Channel.AlwaysInv: closed channels, the collection of the channel's own world after a send, and fairness are not modelled.
- Copy.World.ValCopy: the process aborts on code and scopes, so these are excluded; reference counts of opaque bodies are not modelled; a map cell is the finite map its table refines; two parts of a value that share a cell are copied separately.
- Sort.SortAll: elements are array entries, not byte ranges; where the platform has `qsort_r` the source uses that instead. `memcmp` is the difference of the first differing bytes.
- Stack overflow of recursive marking, recursive copying and recursive sorting.
- Sockets, files, time, regular expressions, HTTP, signals, dynamic loading, worker reuse, JSON, the surface grammar, `inject_return`, floating point and `Map#size` (it counts assignments, src/map.c:81).
