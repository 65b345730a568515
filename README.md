# RuneLite GPU bookkeeping, Mage Training Arena and deobfuscator pool entries in Dafny

This project models four groups of sequential logic from a RuneLite client tree and its bytecode deobfuscator. It proves properties of each model.

- **GPU plugin frame bookkeeping** (`GpuPlugin.java`):
  - **Draw callbacks.** `drawScenePaint`, `drawSceneModel` and `draw(Renderable, ...)` append 8-word draw descriptors to three queues: unordered, small and large. Each descriptor records the start of its output range, taken from the running `targetBufferOffset`. Module `GpuPlugin`.
  - **Frame and scene lifecycle.** This covers the end-of-frame reset, the `drawScene` and login-screen resets, and the pending/current scene swap. Also in `GpuPlugin`.
  - **Buffer growth.** `updateBuffer` grows a buffer to `max(1024, nextPowerOfTwo(size))`. Modules `GpuPlugin` and `GpuBits`.
  - **Flags word.** The bit layout of a descriptor's flags word (`GpuBits`).
  - **Culling.** The integer tests `tileInFrustum` and `isVisible` (`GpuFrustum`).
  - **Tile heights.** The packing in `uploadTileHeights` (`GpuTileHeights`).
  - **Radix sort, host side.** The BVH build's host arithmetic: work-group counts, the per-pass control blocks, the ping-pong between the two key/value buffers, the stub key layout, and the read-back "sorted" check (`GpuRadix`).
  - **Sort reference.** A sequential least-significant-digit radix sort stands in for what the eight device passes compute (`GpuRadixSort`).
- **Mage Training Arena plugin** (module `MageTrainingArena`):
  - the alchemy cupboard permutation table and its deduction from chat messages;
  - the cupboard id → slot map;
  - Telekinetic Theatre step tracking and target-tile selection;
  - the graveyard fruit total.
  - The constant tables have their own modules: `TelekineticPuzzle`, `AlchemyRoomCabinet` and `GraveyardBone`.
- **Tick counters.** The Tekton attack timer (`TileIndicators`) and the Master Farmer "ticks since moved" counter (`Thieving`).
- **Deobfuscator pieces:**
  - the `CONSTANT_Integer_info` and `CONSTANT_NameAndType_info` pool entries, in sections 4.4.4 and 4.4.6 of the Java Virtual Machine Specification (`PoolInteger`, `PoolNameAndType`);
  - method-descriptor argument counting, per section 4.3.3 (`PoolNameAndType`);
  - the `invokevirtual` instruction of section 6.5: operand decode/encode and its operand-stack effect (`InvokeVirtualInsn`).

Supporting modules:

- `JavaInt` gives Java `int` semantics:
  - 32-bit wrap-around;
  - `>>` as floor division;
  - `/` truncating toward zero;
  - `%` taking the sign of the dividend;
  - Guava's `constrainToRange`.
- `JavaString` gives `indexOf`, `split` and ASCII case folding.
- `ByteIo` gives the big-endian `DataInputStream`/`DataOutputStream` reads and writes.
- `Wrappers` gives `Option`.

The source mutates some objects in place: the plugins, a GL buffer and the interpreter frame. These are classes whose methods are proved to perform exactly a step function on the state. Lemmas prove the invariants of those step functions:

- every queue counter counts its queue;
- `targetBufferOffset` is the wrapped total of the output ranges handed out;
- the output ranges are contiguous and disjoint.

The pure parts are functions with lemmas. Examples:

- round trips for every encoded entry;
- `nextPowerOfTwo` exactness;
- the sort reference sorts and permutes;
- the table facts.

## Model

| member | source | states |
|---|---|---|
| JavaInt.Wrap | runelite-client/src/main/java/net/runelite/client/plugins/gpu/GpuPlugin.java:2178 | Java `int` arithmetic keeps the exact result modulo 2^32, and any result already in the `int` range unchanged |
| JavaInt.WrapAdd | runelite-client/src/main/java/net/runelite/client/plugins/gpu/GpuPlugin.java:2178 | wrapping the running offset before the next `+=` gives the same value as wrapping the exact total once |
| JavaInt.Shr | runelite-client/src/main/java/net/runelite/client/plugins/gpu/GpuPlugin.java:2019 | `a >> k` moves toward zero from a non-negative `a` and stays in [a, 0) for a negative one |
| JavaInt.Rem | runelite-client/src/main/java/net/runelite/client/plugins/magetrainingarena/MageTrainingArenaPlugin.java:252 | Java's `%` by a positive divisor is the mathematical remainder for a >= 0 and takes the sign of a otherwise |
| JavaInt.Clamp | runelite-client/src/main/java/net/runelite/client/plugins/gpu/GpuPlugin.java:2269 | `Ints.constrainToRange` returns a value in [lo, hi]: the value itself inside, lo below, hi above |
| JavaString.ToLower | runelite-client/src/main/java/net/runelite/client/plugins/tileindicators/TileIndicatorsPlugin.java:106 | `toLowerCase` keeps the length and lowers each ASCII capital by 32, leaving other characters alone |
| JavaString.IndexOf | runelite-client/src/main/java/net/runelite/client/plugins/magetrainingarena/MageTrainingArenaPlugin.java:161 | `indexOf` finds the first occurrence, and -1 (None) exactly when there is none |
| JavaString.SplitSecond | runelite-client/src/main/java/net/runelite/client/plugins/magetrainingarena/MageTrainingArenaPlugin.java:163 | element 1 of `split("You found: ")` exists only for a message containing the marker, and holds no further marker |
| JavaString.SplitSecondOfPrefixed | runelite-client/src/main/java/net/runelite/client/plugins/magetrainingarena/MageTrainingArenaPlugin.java:161-163 | a message that is the marker followed by an item name splits back to that name |
| AlchemyRoomCabinet.FindFrom | runelite-client/src/main/java/net/runelite/client/plugins/magetrainingarena/AlchemyRoomCabinet.java:25-32 | the scan over `values()` from position `i` returns a cupboard with the id (open or closed), and returns none only when no later cupboard has it |
| AlchemyRoomCabinet.GetCabinetById | runelite-client/src/main/java/net/runelite/client/plugins/magetrainingarena/AlchemyRoomCabinet.java:23-33 | a cupboard is returned only if it has the id; null (None) only if no cupboard has it |
| AlchemyRoomCabinet.Listed | runelite-client/src/main/java/net/runelite/client/plugins/magetrainingarena/AlchemyRoomCabinet.java:5-13 | every cupboard appears in `values()` |
| AlchemyRoomCabinet.OpenFollowsClosed | runelite-client/src/main/java/net/runelite/client/plugins/magetrainingarena/AlchemyRoomCabinet.java:5-13 | each cupboard's open id is its closed id plus one |
| AlchemyRoomCabinet.IdsDistinct | runelite-client/src/main/java/net/runelite/client/plugins/magetrainingarena/AlchemyRoomCabinet.java:5-13 | no object id belongs to two cupboards, so the lookup's answer does not depend on the scan order |
| AlchemyRoomCabinet.GetCabinetByIdRange | runelite-client/src/main/java/net/runelite/client/plugins/magetrainingarena/AlchemyRoomCabinet.java:23-33 | the lookup finds a cupboard exactly for the ids 23678 to 23693 |
| AlchemyRoomCabinet.GetCabinetByIdExact | runelite-client/src/main/java/net/runelite/client/plugins/magetrainingarena/AlchemyRoomCabinet.java:23-33 | looking up either id of a cupboard gives back that cupboard |
| GraveyardBone.FindFrom | runelite-client/src/main/java/net/runelite/client/plugins/magetrainingarena/GraveyardBone.java:21-28 | the scan from position `i` returns a bone with the item id, and none only when no later bone has it |
| GraveyardBone.GetBoneById | runelite-client/src/main/java/net/runelite/client/plugins/magetrainingarena/GraveyardBone.java:19-29 | a bone is returned only if it has the item id, and null only when no bone has it |
| GraveyardBone.GetBoneByIdRange | runelite-client/src/main/java/net/runelite/client/plugins/magetrainingarena/GraveyardBone.java:5-29 | the lookup finds a bone exactly for item ids 6904 to 6907, and that bone is worth `itemId - 6903` fruit |
| GraveyardBone.BoneFacts | runelite-client/src/main/java/net/runelite/client/plugins/magetrainingarena/GraveyardBone.java:5-8 | item ids are distinct, and each bone is worth 1 to 4 fruit, its item id minus 6903 |
| TelekineticPuzzle.FindFrom | runelite-client/src/main/java/net/runelite/client/plugins/magetrainingarena/TelekineticPuzzle.java:137-144 | the scan from index `i` returns the first maze whose guardian start and goal are the arguments, and none only when no later maze matches |
| TelekineticPuzzle.FindByGuardianAndEnd | runelite-client/src/main/java/net/runelite/client/plugins/magetrainingarena/TelekineticPuzzle.java:135-145 | `findByGuardianAndEnd` returns a maze of the table with that guardian start and goal, or null exactly when none has both |
| TelekineticPuzzle.KeysDistinct | runelite-client/src/main/java/net/runelite/client/plugins/magetrainingarena/TelekineticPuzzle.java:7-130 | no two mazes share both their goal and their guardian start |
| TelekineticPuzzle.FindByGuardianAndEndExact | runelite-client/src/main/java/net/runelite/client/plugins/magetrainingarena/TelekineticPuzzle.java:135-145 | looking a maze up by its own goal and guardian start returns that maze |
| TelekineticPuzzle.SharedGoal | runelite-client/src/main/java/net/runelite/client/plugins/magetrainingarena/TelekineticPuzzle.java:7-79 | PUZZLE_1 and PUZZLE_7 share the goal (145, 86) and differ in the guardian start |
| TelekineticPuzzle.AtMostTenSteps | runelite-client/src/main/java/net/runelite/client/plugins/magetrainingarena/TelekineticPuzzle.java:7-130 | no maze has more than ten steps |
| TelekineticPuzzle.AllWellFormed | runelite-client/src/main/java/net/runelite/client/plugins/magetrainingarena/TelekineticPuzzle.java:7-130 | every maze has at least seven steps, ends with the guardian on the goal, moves the guardian in straight lines from its start, and has start and goal within one 192-tile region |
| TelekineticPuzzle.WellFormed1 | runelite-client/src/main/java/net/runelite/client/plugins/magetrainingarena/TelekineticPuzzle.java:7-17 | PUZZLE_1 is well formed (the facts listed for `AllWellFormed`) |
| TelekineticPuzzle.WellFormed2 | runelite-client/src/main/java/net/runelite/client/plugins/magetrainingarena/TelekineticPuzzle.java:18-28 | PUZZLE_2 is well formed (the facts listed for `AllWellFormed`) |
| TelekineticPuzzle.WellFormed3 | runelite-client/src/main/java/net/runelite/client/plugins/magetrainingarena/TelekineticPuzzle.java:29-40 | PUZZLE_3 is well formed (the facts listed for `AllWellFormed`) |
| TelekineticPuzzle.WellFormed4 | runelite-client/src/main/java/net/runelite/client/plugins/magetrainingarena/TelekineticPuzzle.java:41-52 | PUZZLE_4 is well formed (the facts listed for `AllWellFormed`) |
| TelekineticPuzzle.WellFormed5 | runelite-client/src/main/java/net/runelite/client/plugins/magetrainingarena/TelekineticPuzzle.java:53-64 | PUZZLE_5 is well formed (the facts listed for `AllWellFormed`) |
| TelekineticPuzzle.WellFormed6 | runelite-client/src/main/java/net/runelite/client/plugins/magetrainingarena/TelekineticPuzzle.java:65-76 | PUZZLE_6 is well formed (the facts listed for `AllWellFormed`) |
| TelekineticPuzzle.WellFormed7 | runelite-client/src/main/java/net/runelite/client/plugins/magetrainingarena/TelekineticPuzzle.java:77-89 | PUZZLE_7 is well formed (the facts listed for `AllWellFormed`) |
| TelekineticPuzzle.WellFormed8 | runelite-client/src/main/java/net/runelite/client/plugins/magetrainingarena/TelekineticPuzzle.java:90-102 | PUZZLE_8 is well formed (the facts listed for `AllWellFormed`) |
| TelekineticPuzzle.WellFormed9 | runelite-client/src/main/java/net/runelite/client/plugins/magetrainingarena/TelekineticPuzzle.java:103-116 | PUZZLE_9 is well formed (the facts listed for `AllWellFormed`) |
| TelekineticPuzzle.WellFormed10 | runelite-client/src/main/java/net/runelite/client/plugins/magetrainingarena/TelekineticPuzzle.java:117-130 | PUZZLE_10 is well formed (the facts listed for `AllWellFormed`) |
| MageTrainingArena.RotateRight | runelite-client/src/main/java/net/runelite/client/plugins/magetrainingarena/MageTrainingArenaPlugin.java:91-100 | rotating right keeps the length, moves the last slot to the front and shifts every other slot one place on |
| MageTrainingArena.RowsAreRotations | runelite-client/src/main/java/net/runelite/client/plugins/magetrainingarena/MageTrainingArenaPlugin.java:91-100 | `alchemyPermutations` has eight rows of eight slots, each row the previous one rotated right by one |
| MageTrainingArena.RotatePreservesItems | runelite-client/src/main/java/net/runelite/client/plugins/magetrainingarena/MageTrainingArenaPlugin.java:91-100 | a rotation keeps the cupboard contents as a multiset |
| MageTrainingArena.RowContents | runelite-client/src/main/java/net/runelite/client/plugins/magetrainingarena/MageTrainingArenaPlugin.java:91-100 | every row holds each of the five items exactly once and three nulls |
| MageTrainingArena.RowEntry | runelite-client/src/main/java/net/runelite/client/plugins/magetrainingarena/MageTrainingArenaPlugin.java:91-100 | slot i of row r is slot (i - r) mod 8 of the first row |
| MageTrainingArena.ColumnUnique | runelite-client/src/main/java/net/runelite/client/plugins/magetrainingarena/MageTrainingArenaPlugin.java:91-100 | an item in a given cupboard occurs in only one row, so at most one row can match |
| MageTrainingArena.FindPermutationFrom | runelite-client/src/main/java/net/runelite/client/plugins/magetrainingarena/MageTrainingArenaPlugin.java:195-202 | the search returns the first row from `r` whose entry at `arrayIndex` is non-null and names the item ignoring case, and none only when no such row exists |
| MageTrainingArena.GetPermutation | runelite-client/src/main/java/net/runelite/client/plugins/magetrainingarena/MageTrainingArenaPlugin.java:193-203 | `getPermutation` returns a row of the table naming the item at `arrayIndex`, or null exactly when no row does |
| MageTrainingArena.NameDeterminesItem | runelite-client/src/main/java/net/runelite/client/plugins/magetrainingarena/MageTrainingArenaPlugin.java:197 | at most one item's name equals a given string ignoring case |
| MageTrainingArena.GetPermutationExact | runelite-client/src/main/java/net/runelite/client/plugins/magetrainingarena/MageTrainingArenaPlugin.java:193-203 | whenever row r names the item at `arrayIndex`, `getPermutation` returns row r |
| MageTrainingArena.PermutationSlot | runelite-client/src/main/java/net/runelite/client/plugins/magetrainingarena/MageTrainingArenaPlugin.java:137-150 | each cupboard's slot is one of 0..7 |
| MageTrainingArena.PermutationSlotInjective | runelite-client/src/main/java/net/runelite/client/plugins/magetrainingarena/MageTrainingArenaPlugin.java:141-149 | no two cupboards share a slot |
| MageTrainingArena.AfterChat | runelite-client/src/main/java/net/runelite/client/plugins/magetrainingarena/MageTrainingArenaPlugin.java:157-191 | the chat handler fails only on a "You found: " message with nothing after the marker, and otherwise leaves either null or a row of the table |
| MageTrainingArena.FoundIsNotFixedMessage | runelite-client/src/main/java/net/runelite/client/plugins/magetrainingarena/MageTrainingArenaPlugin.java:161-187 | a message containing "You found: " equals neither fixed message, so the three branches do not interfere |
| MageTrainingArena.ChatFound | runelite-client/src/main/java/net/runelite/client/plugins/magetrainingarena/MageTrainingArenaPlugin.java:161-171 | "You found: X" in a known cupboard sets the permutation to `getPermutation(X, slot)` |
| MageTrainingArena.ChatCupboardEmpty | runelite-client/src/main/java/net/runelite/client/plugins/magetrainingarena/MageTrainingArenaPlugin.java:172-185 | "The cupboard is empty." clears the permutation exactly when it has an item at that slot |
| MageTrainingArena.ChatEntered | runelite-client/src/main/java/net/runelite/client/plugins/magetrainingarena/MageTrainingArenaPlugin.java:186-190 | the entry message clears the permutation whatever was clicked |
| MageTrainingArena.ChatUnknownCupboard | runelite-client/src/main/java/net/runelite/client/plugins/magetrainingarena/MageTrainingArenaPlugin.java:164-178 | when the last click was not a cupboard, a find or an empty cupboard returns with nothing changed |
| MageTrainingArena.ChatOther | runelite-client/src/main/java/net/runelite/client/plugins/magetrainingarena/MageTrainingArenaPlugin.java:157-191 | any other message changes nothing |
| MageTrainingArena.WorldToRelative | runelite-client/src/main/java/net/runelite/client/plugins/magetrainingarena/MageTrainingArenaPlugin.java:250-253 | `world % 192` with Java's sign rule: within (-192, 192), congruent to the input, and of the input's sign |
| MageTrainingArena.NextStep | runelite-client/src/main/java/net/runelite/client/plugins/magetrainingarena/MageTrainingArenaPlugin.java:270-291 | the step advances by exactly one, and only when the guardian's relative position equals the goal plus this step's guardian offset |
| MageTrainingArena.StepTargets | runelite-client/src/main/java/net/runelite/client/plugins/magetrainingarena/MageTrainingArenaPlugin.java:305-326 | the next-step targets exist exactly when a next step exists |
| MageTrainingArena.Classify | runelite-client/src/main/java/net/runelite/client/plugins/magetrainingarena/MageTrainingArenaPlugin.java:340-355 | a tile fills one slot, in the priority player-current, player-next, guardian-current, guardian-next |
| MageTrainingArena.LastWith | runelite-client/src/main/java/net/runelite/client/plugins/magetrainingarena/MageTrainingArenaPlugin.java:333-357 | the index found is that of a scanned tile |
| MageTrainingArena.LastWithSpec | runelite-client/src/main/java/net/runelite/client/plugins/magetrainingarena/MageTrainingArenaPlugin.java:333-357 | the slot ends up with the last tile that fills it, and no tile fills it when none is found |
| MageTrainingArena.FillAppend | runelite-client/src/main/java/net/runelite/client/plugins/magetrainingarena/MageTrainingArenaPlugin.java:333-357 | scanning one more tile replaces a slot's tile exactly when that tile fills the slot |
| MageTrainingArena.FillWithoutNext | runelite-client/src/main/java/net/runelite/client/plugins/magetrainingarena/MageTrainingArenaPlugin.java:327-352 | without a next step no tile fills a next-target slot, so they keep the null written before the scan |
| MageTrainingArena.ScanAppend | runelite-client/src/main/java/net/runelite/client/plugins/magetrainingarena/MageTrainingArenaPlugin.java:335-356 | placing the tiles one at a time computes the whole scan |
| MageTrainingArena.TilesBeforeNull | runelite-client/src/main/java/net/runelite/client/plugins/magetrainingarena/MageTrainingArenaPlugin.java:333-337 | the tiles a scan of the plane reaches are exactly its entries up to, not including, the first null one, where `tile.getWorldLocation()` throws |
| MageTrainingArena.TilesBeforeNullAppend | runelite-client/src/main/java/net/runelite/client/plugins/magetrainingarena/MageTrainingArenaPlugin.java:333-337 | scanning two stretches of the plane reaches the second only when the first holds no null entry |
| MageTrainingArena.PlaceChangesOneSlot | runelite-client/src/main/java/net/runelite/client/plugins/magetrainingarena/MageTrainingArenaPlugin.java:340-355 | one tile changes at most the one slot it fills |
| MageTrainingArena.FruitOf | runelite-client/src/main/java/net/runelite/client/plugins/magetrainingarena/MageTrainingArenaPlugin.java:394-398 | an inventory item adds 0 to 4 fruit, and more than 0 exactly when it is a graveyard bone |
| MageTrainingArena.FruitSumBounds | runelite-client/src/main/java/net/runelite/client/plugins/magetrainingarena/MageTrainingArenaPlugin.java:392-399 | the fruit total lies between 0 and 4 per item |
| MageTrainingArena.FruitSumNoOverflow | runelite-client/src/main/java/net/runelite/client/plugins/magetrainingarena/MageTrainingArenaPlugin.java:392-399 | for an inventory of at most 28 items the `int` total cannot wrap |
| MageTrainingArena.CabinetIdsRange | runelite-client/src/main/java/net/runelite/client/plugins/magetrainingarena/AlchemyRoomCabinet.java:5-13 | exactly the ids 23678..23693 belong to a cupboard |
| MageTrainingArena.CabinetSlots | runelite-client/src/main/java/net/runelite/client/plugins/magetrainingarena/MageTrainingArenaPlugin.java:130-150 | the intended map has exactly the cupboard ids as keys, each mapped to its cupboard's slot |
| MageTrainingArena.CabinetSlotsOf | runelite-client/src/main/java/net/runelite/client/plugins/magetrainingarena/MageTrainingArenaPlugin.java:130-135 | both the open and the closed id of a cupboard map to its slot |
| MageTrainingArena.SetupPutsOf | runelite-client/src/main/java/net/runelite/client/plugins/magetrainingarena/MageTrainingArenaPlugin.java:130-150 | after the sixteen `put`s, both ids of each cupboard map to its slot |
| MageTrainingArena.SetupPutsDomain | runelite-client/src/main/java/net/runelite/client/plugins/magetrainingarena/MageTrainingArenaPlugin.java:137-150 | the `put`s add only the sixteen cupboard ids |
| MageTrainingArena.SetupPutsAt | runelite-client/src/main/java/net/runelite/client/plugins/magetrainingarena/MageTrainingArenaPlugin.java:137-150 | on each of the sixteen ids the `put`s agree with the intended map |
| MageTrainingArena.SetupPutsBuildCabinetSlots | runelite-client/src/main/java/net/runelite/client/plugins/magetrainingarena/MageTrainingArenaPlugin.java:137-150 | the sixteen `put`s, in their order, build exactly the intended map |
| MageTrainingArena.MageTrainingArenaPlugin.constructor | runelite-client/src/main/java/net/runelite/client/plugins/magetrainingarena/MageTrainingArenaPlugin.java:101-128 | the fields start as declared (last click -1, no permutation, step 0, four null target tiles) and `startUp` builds the cupboard map |
| MageTrainingArena.MageTrainingArenaPlugin.AddCabinetToHashMap | runelite-client/src/main/java/net/runelite/client/plugins/magetrainingarena/MageTrainingArenaPlugin.java:130-135 | both ids of the cupboard are mapped to `index`, open first then closed |
| MageTrainingArena.MageTrainingArenaPlugin.SetupHashMap | runelite-client/src/main/java/net/runelite/client/plugins/magetrainingarena/MageTrainingArenaPlugin.java:137-150 | the map becomes exactly the sixteen cupboard ids, each mapped to its cupboard's slot |
| MageTrainingArena.MageTrainingArenaPlugin.OnChatMessage | runelite-client/src/main/java/net/runelite/client/plugins/magetrainingarena/MageTrainingArenaPlugin.java:157-191 | the permutation becomes what `AfterChat` gives for the old permutation, the slot of the last click and the message; the split failure is reported and changes nothing |
| MageTrainingArena.MageTrainingArenaPlugin.GetCabinetObjectIds | runelite-client/src/main/java/net/runelite/client/plugins/magetrainingarena/MageTrainingArenaPlugin.java:205-218 | 16 ids: cupboard i's closed id at 2i and its open id at 2i+1, covering exactly 23678..23693; the array is `CabinetObjectIds` |
| MageTrainingArena.MageTrainingArenaPlugin.FindCurrentPuzzle | runelite-client/src/main/java/net/runelite/client/plugins/magetrainingarena/MageTrainingArenaPlugin.java:360-371 | the maze is looked up by the goal's and guardian's relative positions only while none is set and both are known |
| MageTrainingArena.MageTrainingArenaPlugin.TrackTelekineticStep | runelite-client/src/main/java/net/runelite/client/plugins/magetrainingarena/MageTrainingArenaPlugin.java:255-291 | with the title shown, the goal and guardian become the first query results, the maze is looked up, and while a step remains the step follows `NextStep`; otherwise they stay as they were |
| MageTrainingArena.MageTrainingArenaPlugin.AdvanceStep | runelite-client/src/main/java/net/runelite/client/plugins/magetrainingarena/MageTrainingArenaPlugin.java:273-291 | the step follows `NextStep` |
| MageTrainingArena.MageTrainingArenaPlugin.FindTelekineticObjects | runelite-client/src/main/java/net/runelite/client/plugins/magetrainingarena/MageTrainingArenaPlugin.java:255-305 | as written: `findTargetTiles` reads past the last step exactly when the guardian has just reached the final target, and then no target tile changes; otherwise the goal, guardian, maze, step and tiles follow `TrackTelekineticStep` and `ScanForStep`, and a null entry of the plane throws exactly when the scan runs and the plane holds one |
| MageTrainingArena.MageTrainingArenaPlugin.FindTelekineticObjectsCorrected | runelite-client/src/main/java/net/runelite/client/plugins/magetrainingarena/MageTrainingArenaPlugin.java:255-298 | while a step remains the four target tiles become `ScanForStep` of the current step, and a null entry of the plane throws exactly then; otherwise the tiles are left alone |
| MageTrainingArena.MageTrainingArenaPlugin.FindTargetTiles | runelite-client/src/main/java/net/runelite/client/plugins/magetrainingarena/MageTrainingArenaPlugin.java:300-358 | the next-target slots are nulled first when there is no next step; the tiles before the plane's first null entry are scanned, and the NullPointerException is raised exactly when the plane holds a null entry |
| MageTrainingArena.MageTrainingArenaPlugin.ScanRow | runelite-client/src/main/java/net/runelite/client/plugins/magetrainingarena/MageTrainingArenaPlugin.java:335-356 | the inner loop extends the scan by the row's tiles up to its first null entry, and throws exactly when the row holds one |
| MageTrainingArena.MageTrainingArenaPlugin.PlaceTile | runelite-client/src/main/java/net/runelite/client/plugins/magetrainingarena/MageTrainingArenaPlugin.java:337-355 | a null entry throws and changes nothing; a tile replaces the slot `Classify` gives it, and nothing else |
| MageTrainingArena.MageTrainingArenaPlugin.SumTotalFruitFromBones | runelite-client/src/main/java/net/runelite/client/plugins/magetrainingarena/MageTrainingArenaPlugin.java:373-409 | the total is the (wrapped) fruit sum of the inventory when the graveyard widget is visible, else 0, and the info box is shown exactly when it is visible |
| MageTrainingArena.MageTrainingArenaPlugin.OnMapRegionChange | runelite-client/src/main/java/net/runelite/client/plugins/magetrainingarena/MageTrainingArenaPlugin.java:411-422 | the maze, its step and all four target tiles are reset |
| MageTrainingArena.MageTrainingArenaPlugin.OnMenuEntryOptionClicked | runelite-client/src/main/java/net/runelite/client/plugins/magetrainingarena/MageTrainingArenaPlugin.java:424-427 | the object clicked is remembered |
| MageTrainingArena.MageTrainingArenaPlugin.OnGameTick | runelite-client/src/main/java/net/runelite/client/plugins/magetrainingarena/MageTrainingArenaPlugin.java:239-248 | `cabinets` is the query's answer for the sixteen cupboard ids; the fruit total and graveyard box follow `sumTotalFruitFromBones`; the goal, guardian, maze and step follow `findTelekineticObjects`; the out-of-bounds exception escapes exactly on the tick the final target is reached, and no tile changes then; while a step remains the tiles are rescanned up to the plane's first null entry, whose NullPointerException escapes; the cupboard map, last click and permutation are untouched |
| MageTrainingArena.IdsInRange | runelite-client/src/main/java/net/runelite/client/plugins/magetrainingarena/AlchemyRoomCabinet.java:5-13 | a cupboard's ids are consecutive, closed then open, within 23678..23693 |
| MageTrainingArena.CabinetOfId | runelite-client/src/main/java/net/runelite/client/plugins/magetrainingarena/AlchemyRoomCabinet.java:5-13 | each of the sixteen ids is an id of the cupboard computed from it |
| MageTrainingArena.PositionOf | runelite-client/src/main/java/net/runelite/client/plugins/magetrainingarena/AlchemyRoomCabinet.java:5-13 | each cupboard sits at its computed index in `values()` |
| MageTrainingArena.FinalStepOverruns | runelite-client/src/main/java/net/runelite/client/plugins/magetrainingarena/MageTrainingArenaPlugin.java:270-305 | in every maze, a guardian on the goal during the last step moves the step to `steps.length`, the index `findTargetTiles` then reads |
| Thieving.Tick | runelite-client/src/main/java/net/runelite/client/plugins/thieving/ThievingPlugin.java:76-103 | the farmer is the first query result, or null; with none the last location becomes null and the counter is unchanged; with one the last location becomes its location |
| Thieving.TickCounter | runelite-client/src/main/java/net/runelite/client/plugins/thieving/ThievingPlugin.java:83-96 | on first sighting the counter is unchanged, at the same location it goes up by one (or wraps at `Integer.MAX_VALUE`), at a new location it becomes 0 |
| Thieving.StillFarmerCounts | runelite-client/src/main/java/net/runelite/client/plugins/thieving/ThievingPlugin.java:85-96 | k further ticks with the farmer standing still add k to the counter, with `int` wrap-around, and keep the last location |
| Thieving.StillFarmerNoWrap | runelite-client/src/main/java/net/runelite/client/plugins/thieving/ThievingPlugin.java:62-89 | below `Integer.MAX_VALUE` the counter of a still farmer is exactly its start plus the number of ticks |
| Thieving.ThievingPlugin.constructor | runelite-client/src/main/java/net/runelite/client/plugins/thieving/ThievingPlugin.java:56-62 | no farmer, no last location, counter 0 |
| Thieving.ThievingPlugin.OnTick | runelite-client/src/main/java/net/runelite/client/plugins/thieving/ThievingPlugin.java:76-103 | the fields become `Tick` of the old fields and the query result, and a counter below `Integer.MAX_VALUE` stays non-negative |
| TileIndicators.TektonNameIgnoresCase | runelite-client/src/main/java/net/runelite/client/plugins/tileindicators/TileIndicatorsPlugin.java:106 | names equal ignoring case are both Tekton names or neither |
| TileIndicators.TektonAfterTicks | runelite-client/src/main/java/net/runelite/client/plugins/tileindicators/TileIndicatorsPlugin.java:76-81 | from a non-negative value the timer loses one per tick and stops at 0 |
| TileIndicators.TektonExpires | runelite-client/src/main/java/net/runelite/client/plugins/tileindicators/TileIndicatorsPlugin.java:76-88 | three or more ticks after a reset the timer is 0 |
| TileIndicators.TileIndicatorsPlugin.constructor | runelite-client/src/main/java/net/runelite/client/plugins/tileindicators/TileIndicatorsPlugin.java:74-84 | `ticks` starts at 0 and `tektonTicks` at 3 |
| TileIndicators.TileIndicatorsPlugin.OnTick | runelite-client/src/main/java/net/runelite/client/plugins/tileindicators/TileIndicatorsPlugin.java:75-81 | `ticks` goes up by one (wrapping) and the timer counts down one tick without going below 0, keeping 0..3 invariant |
| TileIndicators.TileIndicatorsPlugin.ResetTektonAttackTimer | runelite-client/src/main/java/net/runelite/client/plugins/tileindicators/TileIndicatorsPlugin.java:85-88 | the timer becomes 3 and nothing else changes |
| TileIndicators.TileIndicatorsPlugin.OnAnimation | runelite-client/src/main/java/net/runelite/client/plugins/tileindicators/TileIndicatorsPlugin.java:100-117 | the timer restarts at 3 exactly when the actor exists, has a name containing "tekton" ignoring case, and plays one of Tekton's attack animations; otherwise nothing changes |
| ByteIo.ReadU16 | src/main/java/info/sigterm/deob/attributes/code/instructions/InvokeVirtual.java:27 | `readUnsignedShort` succeeds exactly when two bytes remain, and moves past them |
| ByteIo.U16RoundTrip | src/main/java/info/sigterm/deob/pool/NameAndType.java:22-126 | `readUnsignedShort` gives back any 16-bit value `writeShort` wrote, whatever follows |
| ByteIo.U16BytesOfRead | src/main/java/info/sigterm/deob/pool/NameAndType.java:22-126 | `writeShort` of the value read reproduces the two bytes it was read from |
| ByteIo.ReadS32 | src/main/java/info/sigterm/deob/pool/Integer.java:19 | `readInt` succeeds exactly when four bytes remain, and moves past them |
| ByteIo.S32RoundTrip | src/main/java/info/sigterm/deob/pool/Integer.java:19-48 | `readInt` gives back any `int` `writeInt` wrote, negative values included |
| ByteIo.S32BytesValue | src/main/java/info/sigterm/deob/pool/Integer.java:48 | the four bytes `writeInt` emits denote the value written, as a signed 32-bit big-endian number |
| ByteIo.S32BytesOfRead | src/main/java/info/sigterm/deob/pool/Integer.java:19-48 | `writeInt` of the value read reproduces the four bytes it was read from |
| PoolInteger.Read | src/main/java/info/sigterm/deob/pool/Integer.java:13-20 | the stream constructor succeeds exactly when four bytes remain and consumes them; a short stream is EOFException (None) |
| PoolInteger.Write | src/main/java/info/sigterm/deob/pool/Integer.java:45-49 | `write` emits four bytes |
| PoolInteger.ReadOfWrite | src/main/java/info/sigterm/deob/pool/Integer.java:13-49 | reading back what `write` emitted gives the same entry |
| PoolInteger.WriteOfRead | src/main/java/info/sigterm/deob/pool/Integer.java:13-49 | writing an entry read from the stream reproduces its four bytes |
| PoolInteger.ValueConstructor | src/main/java/info/sigterm/deob/pool/Integer.java:22-43 | the value constructor stores its argument; `getObject` returns it and the stream carries it unchanged |
| PoolInteger.EqualsIffSameBytes | src/main/java/info/sigterm/deob/pool/Integer.java:29-49 | two entries are `equals` exactly when they write the same bytes |
| PoolNameAndType.Read | src/main/java/info/sigterm/deob/pool/NameAndType.java:16-24 | the stream constructor reads two unsigned 16-bit indices, succeeding exactly when four bytes remain |
| PoolNameAndType.Write | src/main/java/info/sigterm/deob/pool/NameAndType.java:122-127 | `write` emits four bytes |
| PoolNameAndType.WriteOfRead | src/main/java/info/sigterm/deob/pool/NameAndType.java:16-127 | writing an entry read from the stream reproduces its four bytes |
| PoolNameAndType.ReadOfWrite | src/main/java/info/sigterm/deob/pool/NameAndType.java:16-127 | reading back what `write` emitted gives the same two indices |
| PoolNameAndType.GetStackObject | src/main/java/info/sigterm/deob/pool/NameAndType.java:68-92 | as written: a zero for exactly "B", "C", "I", "Z", "D", "F" and "L", of the type the character names, except that "L" gives a long zero; null otherwise ("S", "J" and the rest) |
| PoolNameAndType.GetStackObjectConfusesLong | src/main/java/info/sigterm/deob/pool/NameAndType.java:68-92 | the long descriptor "J" gets null, while "L", which is no field descriptor, gets a long zero |
| PoolNameAndType.GetStackObjectCorrectedTyped | src/main/java/info/sigterm/deob/pool/NameAndType.java:68-92 | with "J" mapped to a long zero, a zero is produced only for a base-type descriptor and is of exactly that type, and every base type except short gets one |
| PoolNameAndType.RenderFieldShape | src/main/java/info/sigterm/deob/pool/NameAndType.java:95 | a well-formed field descriptor is non-empty, begins with '[', 'L' or a base type, and ends with ';' or a base type |
| PoolNameAndType.CloseFrom | src/main/java/info/sigterm/deob/pool/NameAndType.java:94 | the lazy ".*?\\)" stops at the first ')' reached without crossing a line terminator |
| PoolNameAndType.GroupFrom | src/main/java/info/sigterm/deob/pool/NameAndType.java:94-101 | `allParamsPattern`'s first match spans a '(' to a later ')' |
| PoolNameAndType.ParamsGroup | src/main/java/info/sigterm/deob/pool/NameAndType.java:100-104 | `m.group(1)` starts with '(' and ends with ')' |
| PoolNameAndType.SemicolonFrom | src/main/java/info/sigterm/deob/pool/NameAndType.java:95 | the first ';' from a position, with none before it |
| PoolNameAndType.ObjectMatchAt | src/main/java/info/sigterm/deob/pool/NameAndType.java:95 | "L[^;]+;" matches a non-empty span |
| PoolNameAndType.TypeMatchAt | src/main/java/info/sigterm/deob/pool/NameAndType.java:95 | the type alternative matches a non-empty span |
| PoolNameAndType.ParamMatchAt | src/main/java/info/sigterm/deob/pool/NameAndType.java:95 | `paramsPattern` matches a non-empty span |
| PoolNameAndType.FindFrom | src/main/java/info/sigterm/deob/pool/NameAndType.java:105-108 | `find()` returns a non-empty match at or after the position it resumes from |
| PoolNameAndType.GetNumberOfArgs | src/main/java/info/sigterm/deob/pool/NameAndType.java:97-112 | throws IllegalArgumentException exactly when the descriptor has no parenthesised group; otherwise the counting loop returns the number of successive `find` matches inside the group |
| PoolNameAndType.FindField | src/main/java/info/sigterm/deob/pool/NameAndType.java:95-108 | from the start of a well-formed field descriptor, `find` matches exactly up to its end (an array of arrays resumes one '[' later) |
| PoolNameAndType.ObjectMatch | src/main/java/info/sigterm/deob/pool/NameAndType.java:95 | "L<name>;" matches "L[^;]+;" up to its ';' |
| PoolNameAndType.CountParams | src/main/java/info/sigterm/deob/pool/NameAndType.java:105-109 | over rendered parameters followed by ')', the loop counts one match per parameter |
| PoolNameAndType.RenderParamsChars | src/main/java/info/sigterm/deob/pool/NameAndType.java:94 | rendered parameters hold no ')' and no line terminator, so the lazy group cannot close early |
| PoolNameAndType.CloseAfterParams | src/main/java/info/sigterm/deob/pool/NameAndType.java:94 | the group closes at the ')' after the parameters |
| PoolNameAndType.ArgCountOfMethod | src/main/java/info/sigterm/deob/pool/NameAndType.java:97-112 | for every well-formed method descriptor, `getNumberOfArgs` is the number of parameters: the return type is not counted, and an array of any dimension counts once |
| PoolNameAndType.ArgCountWithoutGroup | src/main/java/info/sigterm/deob/pool/NameAndType.java:101-102 | a descriptor with no '(' makes `getNumberOfArgs` throw IllegalArgumentException |
| PoolNameAndType.IsNonVoidOfMethod | src/main/java/info/sigterm/deob/pool/NameAndType.java:114-120 | `<init>` is always non-void; any other method is non-void exactly when its return descriptor is not V |
| PoolNameAndType.EqualsIsEquivalence | src/main/java/info/sigterm/deob/pool/NameAndType.java:48-56 | `equals` is reflexive, symmetric and transitive, and false for anything that is not a NameAndType |
| PoolNameAndType.EqualsRespected | src/main/java/info/sigterm/deob/pool/NameAndType.java:48-120 | entries that are `equals` give the same `getNumberOfArgs`, `isNonVoid` and `getStackObject` |
| InvokeVirtualInsn.Decode | src/main/java/info/sigterm/deob/attributes/code/instructions/InvokeVirtual.java:22-29 | the constructor succeeds exactly when two operand bytes remain; it resolves the big-endian index through `getMethod` and adds 2 to the length |
| InvokeVirtualInsn.Encode | src/main/java/info/sigterm/deob/attributes/code/instructions/InvokeVirtual.java:31-36 | `write` emits the base instruction's bytes followed by two operand bytes |
| InvokeVirtualInsn.DecodeOfEncode | src/main/java/info/sigterm/deob/attributes/code/instructions/InvokeVirtual.java:22-36 | decoding what `write` emitted gives back the method reference, given a pool whose `make` and `getMethod` agree |
| InvokeVirtualInsn.EncodeOfDecode | src/main/java/info/sigterm/deob/attributes/code/instructions/InvokeVirtual.java:22-36 | writing a decoded instruction reproduces its operand bytes, given a pool whose `make` inverts `getMethod` |
| InvokeVirtualInsn.Frame.Pop | src/main/java/info/sigterm/deob/attributes/code/instructions/InvokeVirtual.java:63-65 | pop removes and returns the top of the operand stack |
| InvokeVirtualInsn.Frame.Push | src/main/java/info/sigterm/deob/attributes/code/instructions/InvokeVirtual.java:69-82 | push appends one value to the operand stack |
| InvokeVirtualInsn.PopArguments | src/main/java/info/sigterm/deob/attributes/code/instructions/InvokeVirtual.java:61-63 | the argument loop leaves `args[1..count]` holding the top `count` stack values in their stack order and removes them from the stack |
| InvokeVirtualInsn.Execute | src/main/java/info/sigterm/deob/attributes/code/instructions/InvokeVirtual.java:56-86 | an argument count that throws leaves the frame untouched; otherwise the arguments and receiver are popped, and then a null receiver pushes null, a non-object receiver is ClassCastException, a found method is invoked with receiver and arguments in order, and a missing method pushes null only when non-void |
| GpuBits.SignedMax | runelite-client/src/main/java/net/runelite/client/plugins/gpu/GpuPlugin.java:2297 | `Math.max` on bit patterns is one of its arguments and, in Java's signed order, below neither |
| GpuBits.Sar | runelite-client/src/main/java/net/runelite/client/plugins/gpu/GpuPlugin.java:2306-2316 | Java's `>>` agrees with the logical shift on a value whose sign bit is clear |
| GpuBits.NextPowerOfTwo | runelite-client/src/main/java/net/runelite/client/plugins/gpu/GpuPlugin.java:2306-2316 | `nextPowerOfTwo(0)` is 0 (the decrement wraps to -1 and the increment back to 0) |
| GpuBits.IsPowerOfTwoIff | runelite-client/src/main/java/net/runelite/client/plugins/gpu/GpuPlugin.java:2318-2321 | `isPowerOfTwo(n)` holds exactly when `n` is `1 << k` for some k below 31, both directions |
| GpuBits.SingleBit | runelite-client/src/main/java/net/runelite/client/plugins/gpu/GpuPlugin.java:2318-2321 | each single bit 2^k with k < 31 passes `isPowerOfTwo` |
| GpuBits.SingleBitIsPowerOfTwo | runelite-client/src/main/java/net/runelite/client/plugins/gpu/GpuPlugin.java:2318-2321 | a non-zero value up to 2^30 with `r & (r - 1) == 0` passes `isPowerOfTwo` |
| GpuBits.NextPowerOfTwoExact | runelite-client/src/main/java/net/runelite/client/plugins/gpu/GpuPlugin.java:2306-2316 | for 1 <= v <= 2^30 the result is a power of two with v <= r < 2v, i.e. the least power of two at least v |
| GpuBits.NextPowerOfTwoSingleBit | runelite-client/src/main/java/net/runelite/client/plugins/gpu/GpuPlugin.java:2306-2316 | for 1 <= v <= 2^30 the smear leaves a result with a single bit set |
| GpuBits.NextPowerOfTwoAtLeast | runelite-client/src/main/java/net/runelite/client/plugins/gpu/GpuPlugin.java:2306-2316 | for 1 <= v <= 2^30 the result is at least v |
| GpuBits.NextPowerOfTwoBelowDouble | runelite-client/src/main/java/net/runelite/client/plugins/gpu/GpuPlugin.java:2306-2316 | for 1 <= v <= 2^30 the result is below 2v |
| GpuBits.NextPowerOfTwoFixes | runelite-client/src/main/java/net/runelite/client/plugins/gpu/GpuPlugin.java:2306-2321 | a value passing `isPowerOfTwo` is its own next power of two |
| GpuBits.NextPowerOfTwoOverflows | runelite-client/src/main/java/net/runelite/client/plugins/gpu/GpuPlugin.java:2296-2316 | for 2^30 < v < 2^31 the result wraps to `Integer.MIN_VALUE`, so `Math.max(1024, ...)` picks 1024 |
| GpuBits.FlagBits | runelite-client/src/main/java/net/runelite/client/plugins/gpu/GpuPlugin.java:2175 | the scene-buffer bit (31) and hillskew bit (26) are set exactly when asked for, and no bit below 26 is |
| GpuBits.UnpackFlags | runelite-client/src/main/java/net/runelite/client/plugins/gpu/GpuPlugin.java:2175 | the plane read back is below 4 and the radius and orientation below 4096 |
| GpuBits.FlagsRoundTrip | runelite-client/src/main/java/net/runelite/client/plugins/gpu/GpuPlugin.java:2175 | a flags word built from a plane below 4 and a radius and orientation below 4096 unpacks to exactly those fields and flags |
| GpuBits.LowFields | runelite-client/src/main/java/net/runelite/client/plugins/gpu/GpuPlugin.java:2175 | below bit 26 the word holds plane, radius and orientation, and above it the high bits unchanged |
| GpuFrustum.Max | runelite-client/src/main/java/net/runelite/client/plugins/gpu/GpuPlugin.java:2007-2009 | `Math.max` is one of its arguments and at least both |
| GpuFrustum.TileInFrustum | runelite-client/src/main/java/net/runelite/client/plugins/gpu/GpuPlugin.java:2002-2043 | a tile reported in view has camera-space depth above 50 for the tile centre raised to its highest corner plus 350, with radius 96 |
| GpuFrustum.IsVisible | runelite-client/src/main/java/net/runelite/client/plugins/gpu/GpuPlugin.java:2048-2091 | a model reported visible has camera-space depth above 50 with its bounding radius |
| GpuFrustum.QuotientBound | runelite-client/src/main/java/net/runelite/client/plugins/gpu/GpuPlugin.java:2070-2083 | a non-negative number divided by a positive one lies between 0 and the number |
| GpuFrustum.DivByPositive | runelite-client/src/main/java/net/runelite/client/plugins/gpu/GpuPlugin.java:2070-2083 | Java's truncating `a / depth` for positive depth is the floor for a >= 0 and minus the floor of -a / depth otherwise |
| GpuFrustum.DivBelowBound | runelite-client/src/main/java/net/runelite/client/plugins/gpu/GpuPlugin.java:2070 | against a positive clip bound and no overflow, `isVisible`'s `a / depth < c` holds exactly when `tileInFrustum`'s `a < c * depth` (line 2029) does |
| GpuFrustum.DivAboveBound | runelite-client/src/main/java/net/runelite/client/plugins/gpu/GpuPlugin.java:2073 | against a negative clip bound and no overflow, `a / depth > c` holds exactly when `a > c * depth` does |
| GpuFrustum.QuotientAgainst | runelite-client/src/main/java/net/runelite/client/plugins/gpu/GpuPlugin.java:2070-2083 | for positive d, `n / d < k` exactly when `n < k * d`, both directions |
| GpuPlugin.GetDrawDistance | runelite-client/src/main/java/net/runelite/client/plugins/gpu/GpuPlugin.java:2266-2270 | the draw distance is the configured one clamped to [0, 184] with compute shaders and [0, 25] without: unchanged inside the range, 0 below it, the limit above it |
| GpuPlugin.GLBuffer.constructor | runelite-client/src/main/java/net/runelite/client/plugins/gpu/GpuPlugin.java:219-220 | a GL buffer starts with size -1, no OpenCL handle (-1) and no contents |
| GpuPlugin.ResizeGrowsToPowerOfTwo | runelite-client/src/main/java/net/runelite/client/plugins/gpu/GpuPlugin.java:2286-2304 | a buffer that must grow for a request of 1 to 2^30 bytes becomes a power of two at least the request and larger than before |
| GpuPlugin.SumSnoc | runelite-client/src/main/java/net/runelite/client/plugins/gpu/GpuPlugin.java:262 | the total of the output lengths handed out grows by exactly the last one |
| GpuPlugin.EnqueueKeepsValid | runelite-client/src/main/java/net/runelite/client/plugins/gpu/GpuPlugin.java:243-257 | appending an 8-word descriptor to a queue keeps every counter equal to its queue's number of descriptors, and appends exactly that descriptor |
| GpuPlugin.CountedSnoc | runelite-client/src/main/java/net/runelite/client/plugins/gpu/GpuPlugin.java:2167-2170 | a counted queue grown by one descriptor is counted by the counter plus one |
| GpuPlugin.AdvanceKeepsValid | runelite-client/src/main/java/net/runelite/client/plugins/gpu/GpuPlugin.java:262 | after handing out `len` words, `targetBufferOffset` is still the wrapped total of all lengths handed out |
| GpuPlugin.DestinationsDisjoint | runelite-client/src/main/java/net/runelite/client/plugins/gpu/GpuPlugin.java:2174-2178 | each output range starts where the previous one ends, and with no negative length no range overlaps a later one |
| GpuPlugin.StartMono | runelite-client/src/main/java/net/runelite/client/plugins/gpu/GpuPlugin.java:2174-2178 | with no negative length, later output ranges start no earlier |
| GpuPlugin.ScenePaintKeepsValid | runelite-client/src/main/java/net/runelite/client/plugins/gpu/GpuPlugin.java:1394-1428 | `drawScenePaint` keeps the counters and the target offset consistent in every branch |
| GpuPlugin.TileModelKeepsValid | runelite-client/src/main/java/net/runelite/client/plugins/gpu/GpuPlugin.java:1431-1462 | `drawSceneModel` keeps the counters and the target offset consistent in every branch |
| GpuPlugin.ThirdOf | runelite-client/src/main/java/net/runelite/client/plugins/gpu/GpuPlugin.java:1456 | for a non-negative vertex count, `len / 3` is the floor, and three times it is `len` when 3 divides `len` |
| GpuPlugin.TileDescriptors | runelite-client/src/main/java/net/runelite/client/plugins/gpu/GpuPlugin.java:1394-1462 | with compute shaders a non-empty tile paint or model appends one descriptor to the unordered queue whose word 3 starts its new output range, of three vertices per triangle; an empty one changes nothing |
| GpuPlugin.TriangleCount | runelite-client/src/main/java/net/runelite/client/plugins/gpu/GpuPlugin.java:2162 | `Math.min(MAX_TRIANGLE, faceCount)` is at most 6144 and is either the face count or 6144 |
| GpuPlugin.PlaneOf | runelite-client/src/main/java/net/runelite/client/plugins/gpu/GpuPlugin.java:2164 | the plane taken from a model's hash is below 4 |
| GpuPlugin.DirectDrawKeepsValid | runelite-client/src/main/java/net/runelite/client/plugins/gpu/GpuPlugin.java:2128-2149 | without compute shaders, adding the uploader's vertex count keeps the target offset the total handed out |
| GpuPlugin.SceneBufferDrawKeepsValid | runelite-client/src/main/java/net/runelite/client/plugins/gpu/GpuPlugin.java:2151-2179 | the scene-buffer branch keeps the counters and target offset consistent |
| GpuPlugin.TemporaryDrawKeepsValid | runelite-client/src/main/java/net/runelite/client/plugins/gpu/GpuPlugin.java:2180-2219 | the temporary-model branch keeps the counters and target offset consistent |
| GpuPlugin.DrawModelKeepsValid | runelite-client/src/main/java/net/runelite/client/plugins/gpu/GpuPlugin.java:2128-2219 | each of the three ways of drawing a visible model keeps the draw state consistent |
| GpuPlugin.DrawRenderableKeepsValid | runelite-client/src/main/java/net/runelite/client/plugins/gpu/GpuPlugin.java:2106-2220 | `draw(Renderable, ...)` keeps the draw state consistent, including when it draws nothing |
| GpuPlugin.SceneBufferDescriptor | runelite-client/src/main/java/net/runelite/client/plugins/gpu/GpuPlugin.java:2162-2178 | a scene-buffer model goes to the small queue at most 512 triangles and the large one otherwise, as one descriptor whose triangle count is in [0, 6144] and whose word 3 starts its output range of three vertices per triangle |
| GpuPlugin.TemporaryDescriptor | runelite-client/src/main/java/net/runelite/client/plugins/gpu/GpuPlugin.java:2197-2218 | a temporary model's descriptor carries the staging offset before the call and the UV offset or -1 without textures; the UV offset advances only for textured models; word 3 starts its output range |
| GpuPlugin.GpuPlugin.constructor | runelite-client/src/main/java/net/runelite/client/plugins/gpu/GpuPlugin.java:412-417 | start-up leaves all staging and descriptor buffers empty, every counter and offset zero, and no pending scene |
| GpuPlugin.GpuPlugin.RecreateClBuffer | runelite-client/src/main/java/net/runelite/client/plugins/gpu/GpuPlugin.java:2323-2340 | with OpenCL the buffer's handle becomes -1 for size 0 and a new handle otherwise; without OpenCL nothing changes |
| GpuPlugin.GpuPlugin.UpdateBuffer | runelite-client/src/main/java/net/runelite/client/plugins/gpu/GpuPlugin.java:2286-2304 | the buffer grows to `max(1024, nextPowerOfTwo(size))` only when the request is larger (signed), getting a new OpenCL handle then; contents untouched |
| GpuPlugin.GpuPlugin.UpdateBufferData | runelite-client/src/main/java/net/runelite/client/plugins/gpu/GpuPlugin.java:2272-2277 | the buffer is sized for `remaining() << 2` bytes and then holds exactly the data |
| GpuPlugin.GpuPlugin.BufferForTriangles | runelite-client/src/main/java/net/runelite/client/plugins/gpu/GpuPlugin.java:2228-2240 | at most 512 triangles picks the small queue and counts it there, otherwise the large one; nothing else changes |
| GpuPlugin.GpuPlugin.Put | runelite-client/src/main/java/net/runelite/client/plugins/gpu/GpuPlugin.java:2169-2176 | the descriptor is appended to the chosen queue and to no other |
| GpuPlugin.GpuPlugin.AdvanceTarget | runelite-client/src/main/java/net/runelite/client/plugins/gpu/GpuPlugin.java:2178 | `targetBufferOffset` grows by the length, recorded as the next output range |
| GpuPlugin.GpuPlugin.StageUpload | runelite-client/src/main/java/net/runelite/client/plugins/gpu/GpuPlugin.java:2199 | the uploader's vertices and UVs are appended to the staging buffers |
| GpuPlugin.GpuPlugin.DrawScenePaint | runelite-client/src/main/java/net/runelite/client/plugins/gpu/GpuPlugin.java:1394-1428 | the plugin's state after `drawScenePaint` is the tile-paint step of the draw state, which stays consistent |
| GpuPlugin.GpuPlugin.DrawSceneModel | runelite-client/src/main/java/net/runelite/client/plugins/gpu/GpuPlugin.java:1431-1462 | the plugin's state after `drawSceneModel` is the tile-model step of the draw state, which stays consistent |
| GpuPlugin.GpuPlugin.DrawDirect | runelite-client/src/main/java/net/runelite/client/plugins/gpu/GpuPlugin.java:2143-2148 | without compute shaders the upload is staged and the target offset grows by its vertex count |
| GpuPlugin.GpuPlugin.DrawSceneBufferModel | runelite-client/src/main/java/net/runelite/client/plugins/gpu/GpuPlugin.java:2151-2179 | the scene-buffer branch performs exactly the scene-buffer step, keeping the state consistent |
| GpuPlugin.GpuPlugin.DrawTemporaryModel | runelite-client/src/main/java/net/runelite/client/plugins/gpu/GpuPlugin.java:2180-2219 | the temporary-model branch performs exactly the temporary-model step, keeping the state consistent |
| GpuPlugin.GpuPlugin.AdvanceTempOffsets | runelite-client/src/main/java/net/runelite/client/plugins/gpu/GpuPlugin.java:2212-2216 | the staging offset grows by the length, the UV offset only for a textured model |
| GpuPlugin.GpuPlugin.Draw | runelite-client/src/main/java/net/runelite/client/plugins/gpu/GpuPlugin.java:2106-2220 | `draw(Renderable, ...)` performs exactly the draw step (nothing for a missing or invisible model), keeping the state consistent |
| GpuPlugin.GpuPlugin.EndOfFrame | runelite-client/src/main/java/net/runelite/client/plugins/gpu/GpuPlugin.java:1726-1734 | the end of a frame empties staging and queues and zeroes counters and staging offsets, keeping the target offset |
| GpuPlugin.GpuPlugin.ClearStaging | runelite-client/src/main/java/net/runelite/client/plugins/gpu/GpuPlugin.java:1726-1734 | staging buffers empty, staging offsets zero |
| GpuPlugin.GpuPlugin.ClearQueues | runelite-client/src/main/java/net/runelite/client/plugins/gpu/GpuPlugin.java:1726-1732 | descriptor queues empty, their counters zero |
| GpuPlugin.GpuPlugin.DrawScene | runelite-client/src/main/java/net/runelite/client/plugins/gpu/GpuPlugin.java:1004-1046 | `drawScene` sets the clamped draw distance, restarts the output buffer at offset 0 and leaves the vertex staging buffer empty |
| GpuPlugin.GpuPlugin.OnGameStateChanged | runelite-client/src/main/java/net/runelite/client/plugins/gpu/GpuPlugin.java:1895-1902 | the login screen restarts the output buffer at 0; any other state changes nothing |
| GpuPlugin.GpuPlugin.LoadScene | runelite-client/src/main/java/net/runelite/client/plugins/gpu/GpuPlugin.java:1905-1923 | with compute shaders the uploaded scene's buffers and id become the pending scene; without them nothing changes |
| GpuPlugin.GpuPlugin.UploadTileHeights | runelite-client/src/main/java/net/runelite/client/plugins/gpu/GpuPlugin.java:1925-1952 | the hillskew texture holds the scene's packed tile heights |
| GpuPlugin.GpuPlugin.UploadSceneBuffers | runelite-client/src/main/java/net/runelite/client/plugins/gpu/GpuPlugin.java:1991-1992 | the scene vertex and UV buffers hold the given data, each sized by the growth policy |
| GpuPlugin.GpuPlugin.InstallPendingScene | runelite-client/src/main/java/net/runelite/client/plugins/gpu/GpuPlugin.java:1990-1996 | the pending scene's id becomes current, its buffers are uploaded, and nothing is pending (id -1) |
| GpuPlugin.GpuPlugin.TakePendingScene | runelite-client/src/main/java/net/runelite/client/plugins/gpu/GpuPlugin.java:1990-1996 | `sceneId` takes the pending id, the pending buffers are cleared and the pending id is -1 |
| GpuPlugin.GpuPlugin.SwapScene | runelite-client/src/main/java/net/runelite/client/plugins/gpu/GpuPlugin.java:1972-1999 | without compute shaders nothing changes; otherwise, with OpenGL, the tile heights become the hillskew texture, then the pending scene becomes current and is uploaded and nothing stays pending; when a pending buffer is null the NullPointerException is reported after the id and any pending vertices were installed, with nothing else changed |
| GpuRadix.RadixConstants | runelite-client/src/main/java/net/runelite/client/plugins/gpu/GpuPlugin.java:186-191 | 32 bits in 4-bit digits make 8 passes over 16 buckets, and the pass count is even as the assertion at line 1309 demands |
| GpuRadix.NumBlocks | runelite-client/src/main/java/net/runelite/client/plugins/gpu/GpuPlugin.java:1188 | the work-group count is the least number of 512-item groups that covers all items (0 for no items) |
| GpuRadix.ControlSizeUnaligned | runelite-client/src/main/java/net/runelite/client/plugins/gpu/GpuPlugin.java:1199 | a control block is 4 + 64·n bytes: a 4-byte counter followed by n groups of 16 four-byte bucket words |
| GpuRadix.AlignUpLeast | runelite-client/src/main/java/net/runelite/client/plugins/gpu/GpuPlugin.java:1204 | the aligned size is a multiple of the alignment, at least the size and less than one alignment above it |
| GpuRadix.AlignUpIsLeast | runelite-client/src/main/java/net/runelite/client/plugins/gpu/GpuPlugin.java:1204 | no smaller multiple of the alignment holds the size |
| GpuRadix.DestinationBuffer | runelite-client/src/main/java/net/runelite/client/plugins/gpu/GpuPlugin.java:1298-1299 | a pass never writes the buffer it reads |
| GpuRadix.PingPong | runelite-client/src/main/java/net/runelite/client/plugins/gpu/GpuPlugin.java:1297-1309 | each pass reads what the previous one wrote, the first reads the stub keys' buffer, and the last writes back into it |
| GpuRadix.RadixPasses | runelite-client/src/main/java/net/runelite/client/plugins/gpu/GpuPlugin.java:1297-1308 | the pass loop issues eight dispatches in order, pass p binding its source and destination buffers and control block p at offset `aligned * p` |
| GpuRadix.BlocksApart | runelite-client/src/main/java/net/runelite/client/plugins/gpu/GpuPlugin.java:1305 | control blocks used up to their unaligned size and spaced by the aligned size end before the next one starts |
| GpuRadix.ControlRangesDisjoint | runelite-client/src/main/java/net/runelite/client/plugins/gpu/GpuPlugin.java:1204-1207 | the control ranges of two different passes do not overlap, and all lie inside the `aligned * radixNumPasses` bytes allocated |
| GpuRadix.StubKeyValues | runelite-client/src/main/java/net/runelite/client/plugins/gpu/GpuPlugin.java:1223-1240 | entry i of the stub buffer holds index i and the i-th non-negative random draw, for 2 * numTris words |
| GpuRadix.StubIndicesArePermutation | runelite-client/src/main/java/net/runelite/client/plugins/gpu/GpuPlugin.java:1233 | the stub buffer's indices are a permutation of 0..numTris-1 |
| GpuRadix.SeenHas | runelite-client/src/main/java/net/runelite/client/plugins/gpu/GpuPlugin.java:1353-1358 | an index already counted in `keyCounts` is the index of an earlier entry |
| GpuRadix.SeenAll | runelite-client/src/main/java/net/runelite/client/plugins/gpu/GpuPlugin.java:1353-1358 | the index of every earlier entry has been counted in `keyCounts` |
| GpuRadix.DistinctStep | runelite-client/src/main/java/net/runelite/client/plugins/gpu/GpuPlugin.java:1358-1363 | an index in range and not counted before keeps the indices distinct one entry further |
| GpuRadix.CheckSorted | runelite-client/src/main/java/net/runelite/client/plugins/gpu/GpuPlugin.java:1346-1373 | the read-back check as written says sorted exactly when the keys are non-decreasing and the indices of entries 0..n-2 (not the last) are in range and distinct |
| GpuRadix.CheckSortedCorrected | runelite-client/src/main/java/net/runelite/client/plugins/gpu/GpuPlugin.java:1346-1373 | the check with the last entry's index counted says sorted exactly when the keys are non-decreasing and the indices are a permutation of 0..n-1 |
| GpuRadix.SortedPermutationPassesAsWritten | runelite-client/src/main/java/net/runelite/client/plugins/gpu/GpuPlugin.java:1354 | every output the corrected check accepts, the check as written accepts |
| GpuRadix.LastIndexUnchecked | runelite-client/src/main/java/net/runelite/client/plugins/gpu/GpuPlugin.java:1354 | two entries that both carry index 0 pass the check as written though they are not a permutation |
| GpuRadixSort.Pow16 | runelite-client/src/main/java/net/runelite/client/plugins/gpu/GpuPlugin.java:189-191 | the weight of a digit is at least 1 |
| GpuRadixSort.Digit | runelite-client/src/main/java/net/runelite/client/plugins/gpu/GpuPlugin.java:189-191 | a 4-bit digit selects one of the 16 buckets |
| GpuRadixSort.Low | runelite-client/src/main/java/net/runelite/client/plugins/gpu/GpuPlugin.java:189-191 | the lowest p digits of a key are below 16^p |
| GpuRadixSort.LowStep | runelite-client/src/main/java/net/runelite/client/plugins/gpu/GpuPlugin.java:1297 | adding digit p on top of the lowest p digits gives the lowest p + 1 |
| GpuRadixSort.Bucket | runelite-client/src/main/java/net/runelite/client/plugins/gpu/GpuPlugin.java:1297-1308 | a bucket is no longer than the input |
| GpuRadixSort.BucketMembers | runelite-client/src/main/java/net/runelite/client/plugins/gpu/GpuPlugin.java:1297-1308 | a bucket holds only input entries with that digit |
| GpuRadixSort.BucketsMembers | runelite-client/src/main/java/net/runelite/client/plugins/gpu/GpuPlugin.java:1297-1308 | the first n buckets hold only input entries whose digit is below n |
| GpuRadixSort.BelowSplit | runelite-client/src/main/java/net/runelite/client/plugins/gpu/GpuPlugin.java:1297-1308 | the entries with digit below n + 1 are those below n together with bucket n |
| GpuRadixSort.BelowEnds | runelite-client/src/main/java/net/runelite/client/plugins/gpu/GpuPlugin.java:1297-1308 | no entry has a digit below 0, and every entry a digit below 16 |
| GpuRadixSort.BucketsPermute | runelite-client/src/main/java/net/runelite/client/plugins/gpu/GpuPlugin.java:1297-1308 | the first n buckets together hold exactly the entries with digit below n, as a multiset |
| GpuRadixSort.RadixPassPermutes | runelite-client/src/main/java/net/runelite/client/plugins/gpu/GpuPlugin.java:1297-1308 | one pass keeps every entry exactly as often as it occurs |
| GpuRadixSort.RadixSortPermutes | runelite-client/src/main/java/net/runelite/client/plugins/gpu/GpuPlugin.java:1297-1308 | any number of passes only reorders the entries |
| GpuRadixSort.BucketSorted | runelite-client/src/main/java/net/runelite/client/plugins/gpu/GpuPlugin.java:1297-1308 | a bucket keeps the input's order, so it stays sorted by the lowest p digits |
| GpuRadixSort.BucketSortedNext | runelite-client/src/main/java/net/runelite/client/plugins/gpu/GpuPlugin.java:1297-1308 | within a bucket digit p is fixed, so sorted by p digits means sorted by p + 1 |
| GpuRadixSort.DigitBelow | runelite-client/src/main/java/net/runelite/client/plugins/gpu/GpuPlugin.java:1297-1308 | an entry with a smaller digit p has smaller lowest p + 1 digits |
| GpuRadixSort.ConcatSorted | runelite-client/src/main/java/net/runelite/client/plugins/gpu/GpuPlugin.java:1297-1308 | two sorted runs, the first entirely below the second, make one sorted run |
| GpuRadixSort.BucketsSorted | runelite-client/src/main/java/net/runelite/client/plugins/gpu/GpuPlugin.java:1297-1308 | the concatenated buckets of a pass over input sorted by p digits are sorted by p + 1 digits |
| GpuRadixSort.RadixSortSortsDigits | runelite-client/src/main/java/net/runelite/client/plugins/gpu/GpuPlugin.java:1297-1308 | after p passes the entries are sorted by their lowest p digits |
| GpuRadixSort.Pow16Eight | runelite-client/src/main/java/net/runelite/client/plugins/gpu/GpuPlugin.java:190 | eight 4-bit digits cover the 32 bits of a key |
| GpuRadixSort.SortedByAllDigits | runelite-client/src/main/java/net/runelite/client/plugins/gpu/GpuPlugin.java:190 | sorted by all eight digits of non-negative keys means sorted by key |
| GpuRadixSort.PermutedNonNegative | runelite-client/src/main/java/net/runelite/client/plugins/gpu/GpuPlugin.java:1229-1231 | a reordering of non-negative keys has non-negative keys |
| GpuRadixSort.RadixSortSorts | runelite-client/src/main/java/net/runelite/client/plugins/gpu/GpuPlugin.java:1297-1309 | the eight passes leave entries with non-negative keys sorted by key (and, with RadixSortPermutes, a permutation of the input) |
| GpuRadixSort.Words | runelite-client/src/main/java/net/runelite/client/plugins/gpu/GpuPlugin.java:1233-1234 | the buffer layout has two words per entry: index in word 0, key in word 1 |
| GpuRadixSort.TwiceInMultiset | runelite-client/src/main/java/net/runelite/client/plugins/gpu/GpuPlugin.java:1233 | an entry found at two positions occurs at least twice |
| GpuRadixSort.StubOnce | runelite-client/src/main/java/net/runelite/client/plugins/gpu/GpuPlugin.java:1233 | in the stub layout every entry occurs exactly once |
| GpuRadixSort.RadixSortOfStubPassesCheck | runelite-client/src/main/java/net/runelite/client/plugins/gpu/GpuPlugin.java:1223-1373 | the sorted stub buffer passes the corrected read-back check: keys non-decreasing, indices a permutation |
| GpuTileHeights.ToShort | runelite-client/src/main/java/net/runelite/client/plugins/gpu/GpuPlugin.java:1949 | `(short) h` lies in [-32768, 32767], agrees with h modulo 2^16, and keeps any value already in that range |
| GpuTileHeights.OffsetDecodes | runelite-client/src/main/java/net/runelite/client/plugins/gpu/GpuPlugin.java:1940-1949 | the put position of plane z, row y, column x lies in the buffer and decodes back to z, y and x |
| GpuTileHeights.PackTileHeights | runelite-client/src/main/java/net/runelite/client/plugins/gpu/GpuPlugin.java:1933-1952 | the buffer holds 4 * 184 * 184 entries, entry k the height at plane k / 184², column k % 184, row (k / 184) % 184, divided by 8 |
| GpuTileHeights.PackedAt | runelite-client/src/main/java/net/runelite/client/plugins/gpu/GpuPlugin.java:1940-1949 | the entry for plane z, row y, column x is the height at [z][x][y] shifted right by 3 (x and y transposed) |
| GpuTileHeights.PackingLossless | runelite-client/src/main/java/net/runelite/client/plugins/gpu/GpuPlugin.java:1946-1949 | a height that is a multiple of 8 within 8 * 2^15 of zero is stored exactly: the entry times 8 gives it back |

## Left out

- **Graphics, windowing and floating point.**
  - OpenGL, OpenCL and AWT calls are not modelled. This covers context and shader set-up, uniforms, textures, `glBufferData`/`glBufferSubData` and `swapBuffers`.
  - Floating point is not modelled either: the camera uniforms, fog and the profiling timings.
  - A GL buffer is reduced to its size, its OpenCL handle and the data last uploaded to it.
- **GPU parallelism.** The compute dispatches, the barriers and the radix shaders run on the device and their source is not part of this model. `GpuRadixSort` is a sequential reference for their result, not a transcription.
- **The stub key generator.** The `java.util.Random` generator behind the stub keys is not modelled. Its non-negative draws are a parameter of `GpuRadix.StubKeyValues`.
- **Collaborators that are not part of this model.** They enter as parameters:
  - `SceneUploader`: what it writes and the vertex count it returns are the `Upload` parameter;
  - `GpuIntBuffer`/`GpuFloatBuffer`: plain sequences;
  - `GLBuffer.java`;
  - `OpenCLManager`: the OpenCL handle it creates is a parameter;
  - the query runner, widgets and client: their results are parameters;
  - `ConstantPool`: two functions;
  - `ClassFile.findMethod`: a function;
  - the `Stack`/`Frame` classes: the frame is reduced to its operand stack and its list of invocations.
- **The OpenCL branch of `swapScene`.** It delegates the tile-height upload to `OpenCLManager`, and that call is not modelled.
- **`draw(Renderable, ...)` side effects.** `setModelHeight` and `checkClickbox` only inform the client, so they are left out. The visibility test is applied before the three branches. Each branch of the source makes the same test first, so the outcome is the same.
- **Hillskew.** A model's unskewed original is modelled as present or absent. The hillskew flag is set exactly when it is present.
- **Overlays and debug output.** The overlays, info boxes, timers and debug printing of the plugins are left out. `shutDown` on a failed sort check is reduced to the check's boolean result.
- **`getCabinetItemImage`.** It only asks the item manager for an icon.
- **Case folding.** `equalsIgnoreCase` and `toLowerCase` fold ASCII letters only; other Unicode case mappings are not modelled.
- **Helper-method splits.** Some loop bodies are split into helper methods, such as `InvokeVirtualInsn.PopArguments` and `GpuPlugin.GpuPlugin.AdvanceTarget`. Each helper states exactly the part of the state it changes.
- GpuFrustum.TileInFrustum: its contract states the depth guard (true only when the depth exceeds 50). The three clip comparisons are stated only by the function's own definition.
- GpuFrustum.IsVisible: its contract states the depth guard only. `DivBelowBound` and `DivAboveBound` relate its truncating divisions to `tileInFrustum`'s multiplications.
- GpuPlugin.ResizeGrowsToPowerOfTwo: it covers requests of 1 to 2^30 bytes. Larger requests make `nextPowerOfTwo` wrap to `Integer.MIN_VALUE`, so the buffer becomes 1024 bytes (`GpuBits.NextPowerOfTwoOverflows`).
- GpuPlugin.TileDescriptors: it states the triangle count × 3 relation for tile models only when the vertex count is a multiple of 3. Elsewhere the source asserts that `targetBufferOffset` is a multiple of 3.
- GpuPlugin.TemporaryDescriptor: it likewise states the triangle count × 3 relation only when the vertex count is a multiple of 3.
- InvokeVirtualInsn.Execute: it requires the operand stack to hold the receiver and the arguments. An underflow is an exception of the `Stack` class, which is not part of this model.

## Findings

| source | as written | input that shows it | evidently intended | confidence | as-written member | corrected member |
|---|---|---|---|---|---|---|
| src/main/java/info/sigterm/deob/pool/NameAndType.java:87-88 | `getStackObject` returns a long zero for `"L"` (an object-type prefix, never a complete descriptor) and null for `"J"` | descriptor `"J"` gives null | `"J"` (long) gives `0L` | high, not executed | PoolNameAndType.GetStackObjectConfusesLong | PoolNameAndType.GetStackObjectCorrectedTyped |
| runelite-client/src/main/java/net/runelite/client/plugins/magetrainingarena/MageTrainingArenaPlugin.java:284-305 | the step is advanced and `findTargetTiles` then reads `steps[telekineticPuzzleStep]` without checking the bound again | the guardian reaches the goal during the last step: the step becomes `steps.length` and the read is out of bounds | the tiles are looked up only while a step remains | high, not executed | MageTrainingArena.FinalStepOverruns | MageTrainingArena.MageTrainingArenaPlugin.FindTelekineticObjectsCorrected |
| runelite-client/src/main/java/net/runelite/client/plugins/gpu/GpuPlugin.java:1354-1358 | the read-back loop runs over `i < numTris - 1`, so word 0 (the index) of the last entry is never counted | `[0, 5, 0, 6]` with two entries passes although index 0 occurs twice | every index is counted, so passing means the indices are a permutation | high, not executed | GpuRadix.LastIndexUnchecked | GpuRadix.CheckSortedCorrected |
