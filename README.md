# Alienation core, modelled in Dafny

This project models the game-logic core of Alienation, a Godot game written
in C#. The core is the engine-independent part of the game:

- **Room areas.** `FromTo` rectangles, and `RoomArea.Render`, the generator
  that lists the wall, door-frame, floor, ceiling, railing and knee-wall
  parts of a room area. It works on abstract placements instead of float
  transforms.
- **Dictionary64.** A chained hash table with 64-bit hash codes, a LIFO
  free list and prime-sized growth.
- **Identifier registries.** `MasterToGlobal<T>` and `GlobalToLocal`, and
  the `ObjectManager` that owns two of them behind an init phase.
- **`IdProvider`.** An identifier allocator with a recycle queue.
- **`SlotGroup`.** The inventory rectangle, with its property nibbles and
  its placement tests.
- **`Character.Equip`.** The wearable-slot flag rule.
- **Managers.** `Manager<T>` singleton registration, and `MainManager`,
  which orders, filters and starts the managers.
- **`Issue`.** The acknowledge-before-drop error value.
- **Settings mappings.** `SettingsHelper.ToSettingValue`, from setting enums
  to engine values.
- **`Utils` rotations.** `Utils.RotateToSize` and `Utils.RotateToOffset`.

The model takes the form of the source:

- **Classes.** A class becomes a Dafny class when the source updates its
  fields in place: `Dictionary64`, `Palette`, `ObjectManager`,
  `IdProvider`, `SlotGroup`, `Character`, `ManagerBase`, `MainManager` and
  `Issue`.
- **Datatypes and functions.** Pure code becomes datatypes and functions.
- **Loops.** Every loop of the source that computes a result is a method
  with invariants, proved against a specification function: `Render` against `RenderOutcome` (and through it `RenderSpec`),
  `GetPrime` against `GetPrimeSpec`, `ItemInSlot` against `FirstInItem`,
  and `MainManager.Ready` against `Survivors`, `Registered` and
  `StableByPriority`. The loops that only fill or copy an array are not
  written as loops: the bucket fills of `Dictionary64` (Dictionary64.cs
  lines 41 and 144) are array initialisers, and the element copies of
  `Palette.Resize` and `AddRange` (`Array.Copy` and `CopyTo`) are `forall`
  statements. The two loops of `ContainsValue`, one for a null value and
  one for a non-null value, are a single scan, because both test equality.
- **Dictionary64.** Its arrays are Dafny arrays. The invariant ties them to
  a ghost `Map`, through named chains, the free list and the key slots.

The static fields of the source are holder objects: `Statics`,
`ObjectManagerSlot` and `IdProviderSlot`. A thrown exception is a `Failure`
value of a `Result`. Several behaviours of the source are modelled as
written, because they shape what the rest of the code can observe:

- `MasterToGlobal`/`GlobalToLocal` never insert into their dictionary, so
  every lookup by master identifier (or by global identifier, for
  `GlobalToLocal`) fails with `KeyNotFound`.
- `Character` never allocates `wearedItems`; this is also listed under Findings.
- `IsPrime(1)` answers true.

Five defects are listed under Findings. For each, one member models the code
as written and a corrected member carries the intended behaviour. The rest
of the model uses the corrected member.

## Model

| member | source | states |
|---|---|---|
| Utilities.RotateToSize | logics/utilities/Utilities.cs:16-26 | Up and Down swap the axes, Right and Left keep them, any other byte throws; the product x·y is preserved |
| Utilities.RotateToSizeInvolution | logics/utilities/Utilities.cs:20-23 | rotating twice with a declared orientation gives the vector back |
| Utilities.RotateToOffset | logics/utilities/Utilities.cs:28-38 | (0,0) for Up and Right, (−y,−x) for Down, (−x,−y) for Left, a throw for any other byte |
| Utilities.RotateToOffsetIsNegatedSize | logics/utilities/Utilities.cs:20-35 | for Down and Left the offset is minus the rotated size |
| Structures.ToInt16 | logics/structures/Structure.cs:288-305 | the (short) cast keeps the value modulo 2^16 and is the identity inside the Int16 range |
| Structures.FromTo.Position | logics/structures/Structure.cs:309 | the corner (fromX, fromY); it lies at or before (toX, toY) exactly when the rectangle is ordered |
| Structures.FromTo.Size | logics/structures/Structure.cs:310 | the inclusive extent: position + size − 1 is the far corner, and both sides are at least 1 exactly when the rectangle is ordered |
| Structures.NewFromTo | logics/structures/Structure.cs:284-307 | each axis takes the smaller coordinate as from and the larger as to, each then truncated to Int16 |
| Structures.FromToSymmetric | logics/structures/Structure.cs:284-307 | the rectangle does not depend on the order of its two corners |
| Structures.FromToSpansCorners | logics/structures/Structure.cs:284-310 | for Int16 corners: from ≤ to on both axes, Position is the smaller corner, Size = larger − smaller + 1 ≥ 1 |
| Structures.FromToTruncationCanInvert | logics/structures/Structure.cs:286-295 | outside the Int16 range the truncation after the comparison can leave fromX > toX |
| Structures.NewRoomArea | logics/structures/Structure.cs:113-119 | a null door array becomes an empty one |
| Structures.NewRoomAreaFromCorners | logics/structures/Structure.cs:111 | the corner constructor gives a normalized rectangle for Int16 corners |
| Structures.WallPosX | logics/structures/Structure.cs:132-133 | the integer cell part of GetWallPosX: cell i of the back row (pos false) or the front row (pos true), inside the rectangle for 0 ≤ i < size.x |
| Structures.WallPosY | logics/structures/Structure.cs:135-136 | the integer cell part of GetWallPosY: cell j of the left column (pos false) or the right column (pos true), inside the rectangle for 0 ≤ j < size.y |
| Structures.HasDoorAt | logics/structures/Structure.cs:138-144 | true iff some door has that orientation and position |
| Structures.AddWallX | logics/structures/Structure.cs:146-152 | appends the wall (the door frame where a Up/Down door stands at i) and, for i > 0, a short connector |
| Structures.AddWallY | logics/structures/Structure.cs:154-160 | the same along Y with Right/Left doors |
| Structures.RenderSpec | logics/structures/Structure.cs:162-277 | once the list is allocated: null exactly when every side is open; otherwise floor, ceiling, the X-axis cells, then the Y-axis cells |
| Structures.RenderOutcome | logics/structures/Structure.cs:164-168 | null when every side is open; otherwise a throw exactly when the reserved capacity (size.X + size.Y) * 4 is negative, else the parts of RenderSpec |
| Structures.NormalizedRenders | logics/structures/Structure.cs:166-168 | a normalized rectangle never reaches the capacity throw |
| Structures.InvertedAreaFails | logics/structures/Structure.cs:168 | the rectangle the Int16 truncation inverts, from corners (40000, 0) and (0, 0), makes Render throw unless every side is open |
| Structures.AppendXEdges | logics/structures/Structure.cs:187-229 | the X-axis loop appends exactly the cells 0..size.X−1 of the specification |
| Structures.AppendYEdges | logics/structures/Structure.cs:232-274 | the Y-axis loop appends exactly the cells 0..size.Y−1 of the specification |
| Structures.Render | logics/structures/Structure.cs:162-277 | the method with its loops returns RenderOutcome, including the capacity throw |
| Structures.RenderRoom | logics/structures/Structure.cs:51-57 | throws exactly when some area's Render throws; otherwise a fresh array with each area's result, in order |
| RenderCounts.RenderCount | logics/structures/Structure.cs:162-277 | the number of parts of any kinds is the floor/ceiling count plus a closed-form tally per edge |
| RenderCounts.FloorAndCeilingCounts | logics/structures/Structure.cs:171-184 | one Floor iff Bottom is closed, one Ceiling iff Top is closed |
| RenderCounts.WallAndDoorFrameCount | logics/structures/Structure.cs:146-160 | walls plus door frames: size.X for each closed X edge, size.Y for each closed Y edge, none from open sides |
| RenderCounts.DoorFrameCount | logics/structures/Structure.cs:138-160 | door frames are the closed-edge cells with a door of the face's orientation |
| RenderCounts.RailingCount | logics/structures/Structure.cs:192-208 | railings only with Bottom open, one per cell of each open side minus the cells with a door of the axis' negative face |
| RenderCounts.RailingNeedsOpenSides | logics/structures/Structure.cs:192-196 | a railing implies Bottom and at least one side are open |
| RenderCounts.LowWallCounts | logics/structures/Structure.cs:215-228 | WallLow only with Top open, 2 per cell; WallShortLow 2 per cell index > 0, on each axis |
| RenderCounts.ClosedAreaCounts | logics/structures/Structure.cs:168 | a closed area lists 1 floor, 1 ceiling, 2(X+Y) walls/door frames, 2(X+Y)−4 connectors: 4(X+Y)−2 entries, within the reserved capacity |
| RenderDoors.EdgePart | logics/structures/Structure.cs:149 | DoorFrame iff a door of that orientation stands at that offset, Wall otherwise |
| RenderDoors.BackEdgeCell | logics/structures/Structure.cs:190-191 | cell i of a closed back edge is listed, with a door frame iff a Down door is at i |
| RenderDoors.FrontEdgeCell | logics/structures/Structure.cs:199-200 | cell i of a closed front edge is listed, with a door frame iff an Up door is at i |
| RenderDoors.LeftEdgeCell | logics/structures/Structure.cs:235-236 | cell j of a closed left edge is listed, with a door frame iff a Left door is at j |
| RenderDoors.RightEdgeCell | logics/structures/Structure.cs:244-245 | cell j of a closed right edge is listed, with a door frame iff a Right door is at j |
| RenderSamples.SampleCorners | logics/structures/StructureRenderer.cs:53-61 | the sample corners order into the expected rectangles (10 x 5 for (0,0)–(9,−4)) |
| RenderSamples.ClosedRoomSample | logics/structures/StructureRenderer.cs:61 | the closed sample room with one front door lists one door frame, 15 walls, 30 parts |
| RenderSamples.GallerySample | logics/structures/StructureRenderer.cs:54 | the upper gallery lists ten railings, no floor or ceiling, 30 low walls |
| RenderSamples.HallWalls | logics/structures/StructureRenderer.cs:53 | in an area shaped like the lower hall, both doors become frames and every other cell of the closed back and left edges a wall |
| RenderSamples.HallFloorAndTop | logics/structures/StructureRenderer.cs:53 | in an area shaped like the lower hall: a floor, no ceiling, no railing, and two low walls per edge cell and two low connectors per seam |
| RenderSamples.LowerHallSample | logics/structures/StructureRenderer.cs:53 | the lower hall (doors Left@2 and Down@5, open front, right and top) lists one floor, no ceiling, two door frames, 13 walls, no railing, 30 low walls and 26 low connectors |
| HashPrimes.TableShape | logics/utilities/Dictionary64.cs:217-222 | the prime table has 72 entries from 3 to 7199369 |
| HashPrimes.FloorSqrt | logics/utilities/Dictionary64.cs:227 | the loop limit is the largest number whose square does not exceed the candidate |
| HashPrimes.IsPrime | logics/utilities/Dictionary64.cs:224-238 | the trial-division loop answers exactly the parity-and-odd-divisor test |
| HashPrimes.TrialDivision | logics/utilities/Dictionary64.cs:228-234 | the loop answers false exactly when some odd number from 3 up to the limit divides the candidate |
| HashPrimes.LimitTest | logics/utilities/Dictionary64.cs:227-234 | with the limit the floor of the square root, ruling out the odd divisors up to it is the same as ruling out every odd divisor whose square does not exceed the candidate |
| HashPrimes.PassesPrimeTestIsPrime | logics/utilities/Dictionary64.cs:224-238 | from 2 on, that test is primality |
| HashPrimes.OnePassesPrimeTest | logics/utilities/Dictionary64.cs:226-235 | the test lets 1 through |
| HashPrimes.GetPrime | logics/utilities/Dictionary64.cs:240-256 | the two search loops return GetPrimeSpec(min) |
| HashPrimes.GetPrimeChoice | logics/utilities/Dictionary64.cs:240-256 | the first table prime ≥ min; past the table, the first odd number ≥ min passing the test, or min; never below min or 3 |
| HashPrimes.ExpandPrime | logics/utilities/Dictionary64.cs:171-183 | doubles, caps at MaxPrimeArrayLength, otherwise GetPrime of the double |
| HashPrimes.ExpandPrimeGrows | logics/utilities/Dictionary64.cs:171-183 | growth is strict below the cap and at least doubles when uncapped |
| HashLayout.AllocatedInv | logics/utilities/Dictionary64.cs:37-44 | fresh and unallocated tables encode the empty map |
| HashLayout.FindInChain | logics/utilities/Dictionary64.cs:81-93 | a present key's slot is in the chain of its bucket |
| HashLayout.SetValueInv | logics/utilities/Dictionary64.cs:104-109 | replacing a present key's value in place keeps the invariant and updates the map |
| HashLayout.InsertNewInv | logics/utilities/Dictionary64.cs:113-136 | storing an absent key in the chosen slot at its chain's head keeps the invariant and adds the key |
| HashLayout.RemoveInv | logics/utilities/Dictionary64.cs:194-209 | unlinking, clearing and freeing a key's entry keeps the invariant and removes exactly that key |
| HashLayout.RebuildInv | logics/utilities/Dictionary64.cs:141-169 | the rehashed arrays encode the same map with every key in its old slot |
| Dict64.NextVersion | logics/utilities/Dictionary64.cs:108 | version++ wraps from Int32.MaxValue to Int32.MinValue |
| Dict64.Dictionary64.constructor | logics/utilities/Dictionary64.cs:29-35 | an empty map; a positive capacity allocates GetPrime(capacity) buckets |
| Dict64.Dictionary64.Initialize | logics/utilities/Dictionary64.cs:37-44 | GetPrime(capacity) empty buckets and blank entries, free list −1 |
| Dict64.Dictionary64.FindEntry | logics/utilities/Dictionary64.cs:81-93 | null key fails; a present key gives its slot, an absent one −1 |
| Dict64.Dictionary64.ContainsKey | logics/utilities/Dictionary64.cs:46 | true iff the key is in the map; null key fails |
| Dict64.Dictionary64.ContainsValue | logics/utilities/Dictionary64.cs:48-62 | true iff the value is among the map's values |
| Dict64.Dictionary64.Get | logics/utilities/Dictionary64.cs:66-70 | the key's value; null or absent keys fail |
| Dict64.Dictionary64.Insert | logics/utilities/Dictionary64.cs:95-137 | failures change nothing; otherwise map[key := value], an overwrite changes only that entry, a new key takes the last freed slot or slot count, and a full table grows to ExpandPrime(count) first |
| Dict64.Dictionary64.Set | logics/utilities/Dictionary64.cs:71-73 | map[key := value]; overwriting keeps count, freeList and freeCount |
| Dict64.Dictionary64.Add | logics/utilities/Dictionary64.cs:76-79 | a present key fails and the table is unchanged; otherwise map[key := value] |
| Dict64.Dictionary64.Resize | logics/utilities/Dictionary64.cs:139 | grows a full table to ExpandPrime(count) > count with the same map and key slots |
| Dict64.Dictionary64.ResizeTo | logics/utilities/Dictionary64.cs:141-169 | fresh arrays of the new size encoding the same map and slots |
| Dict64.Dictionary64.Remove | logics/utilities/Dictionary64.cs:185-215 | answers whether the key was present, removes it, keeps every other key's slot and value, and pushes its slot on the free list |
| Palettes.Palette.constructor | logics/utilities/Palettes.cs:20-24 | count 0, an empty dictionary, and a default-filled array of length capacity, or 11 when capacity is 0 |
| Palettes.Palette.Resize | logics/utilities/Palettes.cs:26-40 | the same size changes nothing; growth keeps every item; shrinking truncates and sets count to the size |
| Palettes.Palette.ResizeAsWritten | logics/utilities/Palettes.cs:76-90 | as written, any growth throws and leaves a fresh array of default items |
| Palettes.Palette.AddRange | logics/utilities/Palettes.cs:98-105 | xs lands at [count, count+\|xs\|), count grows by \|xs\|, items below the old count are kept, and growth happens only when needed, to exactly count+\|xs\|; the growth composes the corrected `Resize`, since the source's `Resize` throws on every growth (see Findings) |
| Palettes.Palette.Get | logics/utilities/Palettes.cs:42-47 | the item at the identifier, or IndexOutOfRange past the array |
| Palettes.Palette.Find | logics/utilities/Palettes.cs:92-95 | the dictionary's index for the key, or KeyNotFound |
| Palettes.Palette.GetByKey | logics/utilities/Palettes.cs:45 | the item at the index the dictionary holds for the key; the lookup's failures pass through |
| Palettes.Palette.GetMaster | logics/utilities/Palettes.cs:42 | the master identifier of the item at the identifier; a null item fails |
| Items.CurrentSize | logics/items/Item.cs:28 | the asset size rotated by the orientation; area preserved; undeclared orientations throw |
| ObjectManagers.ObjectManager.constructor | logics/managers/ObjectManager.cs:16-24 | two empty registries of the given capacities, init phase open |
| ObjectManagers.ObjectManager.AddItems | logics/managers/ObjectManager.cs:29-35 | before EndInit, appends to the item registry only; afterwards fails and nothing changes |
| ObjectManagers.ObjectManager.AddEffects | logics/managers/ObjectManager.cs:38-44 | the same for the effect registry, leaving the item registry alone |
| ObjectManagers.ObjectManager.EndInit | logics/managers/ObjectManager.cs:46-49 | sets pastInitPhase; a second call changes nothing |
| ObjectManagers.ObjectManagerSlot.constructor | logics/managers/ObjectManager.cs:6 | no ObjectManager registered yet |
| ObjectManagers.ObjectManager.GetItem | logics/managers/ObjectManager.cs:28 | items[g], or IndexOutOfRange |
| ObjectManagers.ObjectManager.GetEffect | logics/managers/ObjectManager.cs:37 | effects[g], or IndexOutOfRange |
| ObjectManagers.ObjectManagerSlot.Create | logics/managers/ObjectManager.cs:18-21 | a second manager fails and the first stays registered; the first becomes the instance |
| Containers.IsInItemAt | logics/items/Container.cs:58-60 | true iff (x,y) and (x+currSize.x, y+currSize.y) both lie in the half-open item rectangle |
| Containers.IsInItemCoversRectangle | logics/items/Container.cs:58-60 | for non-negative sizes: true iff the whole closed rectangle between those corners is inside the item |
| Containers.IsInItemAsWritten | logics/items/Container.cs:44-49 | as written, the rotation is applied twice |
| Containers.AsWrittenTestsUnrotatedSize | logics/items/Container.cs:44-49 | as written, the test uses the unrotated asset size |
| Containers.AsWrittenMissesRotation | logics/items/Container.cs:44-49 | an Up 1x2 item at (0,0): as written (0,1) is inside and (1,0) outside, the reverse of the rotated footprint |
| Containers.IsInItem | logics/items/Container.cs:44-49 | the test on the item's current, rotated size |
| Containers.FirstInItem | logics/items/Container.cs:62-83 | with declared orientations: true iff some pair holds the point; a failure only from an undeclared orientation |
| Containers.SlotGroup.SetQuickAccess | logics/items/Container.cs:20-29 | sets or clears exactly the low nibble and reads back the value; Hidden is kept |
| Containers.SlotGroup.SetHidden | logics/items/Container.cs:33-42 | sets or clears exactly the high nibble and reads back the value; QuickAccess is kept |
| Containers.SlotGroup.IsItemOutAt | logics/items/Container.cs:91 | out when the position or the far corner passes the width or height; ItemOutMeansCellOutside states what that means for the covered cells |
| Containers.SlotGroup.ItemOutMeansCellOutside | logics/items/Container.cs:91 | an item of at least one cell at a non-negative position is out exactly when some cell it covers is not a slot of the group |
| Containers.SlotGroup.IsItemOut | logics/items/Container.cs:85-89 | the same test on the item's position and current size |
| Containers.SlotGroup.ItemInSlotPairs | logics/items/Container.cs:77-83 | the early-return loop equals FirstInItem |
| Containers.SlotGroup.ItemInSlot | logics/items/Container.cs:62-68 | the loop over the group's items, with their assets, equals FirstInItem |
| Containers.SlotGroup.ItemPositionValid | logics/items/Container.cs:93 | false when out, otherwise ItemInSlot |
| Containers.SlotGroup.constructor | logics/items/Container.cs:11-16 | the source declares these fields and no constructor; the model's constructor builds that state: the given property byte, width, height and items |
| Ids.Pred | logics/id/IdProvider.cs:46 | ulong nextID − 1, wrapping 0 to 2^64 − 1 |
| Ids.IdProvider.constructor | logics/id/IdProvider.cs:10-18 | counter 0, empty queue, nothing live |
| Ids.IdProvider.NewIDAsWritten | logics/id/IdProvider.cs:20-42 | empty queue: the counter, advanced; non-empty queue: dequeues to the first id ≥ counter, and from any valid state throws |
| Ids.IdProvider.NewID | logics/id/IdProvider.cs:20-42 | a never-live id: the oldest freed one, else the counter, advanced; the invariant is kept |
| Ids.IdProvider.Recycle | logics/id/IdProvider.cs:26-33 | skips stale queue entries and returns the first id below the counter, else the counter |
| Ids.IdProvider.Free | logics/id/IdProvider.cs:44-50 | counter − 1 lowers the counter; a lower id is enqueued; a higher one changes nothing; freeing a live id keeps the invariant |
| Ids.IdProviderSlot.CreateAsWritten | logics/id/IdProvider.cs:10-18 | as written, the first provider always throws and none is ever registered |
| Ids.IdProviderSlot.Create | logics/id/IdProvider.cs:10-18 | the first provider registers, a second one throws |
| Ids.IdProviderSlot.constructor | logics/id/IdProvider.cs:6 | no provider registered yet |
| Characters.SlotAccepts | logics/character/Character.cs:13-27 | a wearing place accepts exactly its own flag and None |
| Characters.AccessoryIsAllBits | logics/character/IWearable.cs:5-17 | a kind has every IsAccessory bit only when it is 0xFFFF, so the accessory test refuses exactly that value |
| Characters.EquipOutcome | logics/character/Character.cs:32-55 | false for a non-wearable or an accessory, a throw for a slot out of range, true iff the kind is None or the slot's flag |
| Characters.Character.constructor | logics/character/Character.cs:29 | as written, wearedItems stays null |
| Characters.Character.WithSlots | logics/character/Character.cs:29 | the corrected allocation: twelve empty wearing places |
| Characters.EquipOnNewCharacter | logics/character/Character.cs:29-55 | on a character built as written, every item that passes the checks ends in the null-array failure, so no equip succeeds |
| Characters.EquipOnSlottedCharacter | logics/character/Character.cs:32-55 | with the wearing places allocated, the outcome is the checks' answer, and an accepted item is the only one worn, in its slot |
| Characters.Character.Equip | logics/character/Character.cs:32-55 | a refusal changes nothing; success writes the item into the slot, replacing what was there, and nothing else |
| Managers.Statics.Instance | logics/managers/Manager.cs:5 | null until a manager of that type initialises, then a manager of that type |
| Managers.ManagerBase.Initialize | logics/managers/Manager.cs:7-14 | true and takes the slot iff the type has no instance; otherwise false and the slot is kept; every slot keeps holding a manager of its own type |
| Managers.Statics.constructor | logics/managers/Manager.cs:3 | no type instance, no main instance, no hook called yet; every slot holds a manager of its own type |
| Managers.ManagerBase.constructor | logics/managers/ManagerBase.cs:5-8 | a manager of the given type, with the given priority and active flag |
| Managers.ManagerBase.ReadyHook | logics/managers/ManagerBase.cs:16 | records one Ready call of this manager and changes nothing else |
| Managers.ManagerBase.AllManagersReadyHook | logics/managers/ManagerBase.cs:21 | records one AllManagersReady call of this manager and changes nothing else |
| Managers.ManagerBase.ProcessHook | logics/managers/ManagerBase.cs:23 | records one Process call of this manager and changes nothing else |
| Managers.ManagerBase.PhysicsProcessHook | logics/managers/ManagerBase.cs:25 | records one PhysicsProcess call of this manager and changes nothing else |
| Managers.RegisteredKinds | logics/managers/Manager.cs:7-14 | Initialize only fills the slot of a manager's own type, so after any sequence of Initialize calls every slot still holds a manager of its type |
| Managers.SurvivorsRegistered | logics/managers/MainManager.cs:30-35 | survivors come from the list, took a free slot and still hold it; earlier instances are kept |
| Managers.SurvivorsDistinctKinds | logics/managers/MainManager.cs:30-35 | no two survivors share a type |
| Managers.StableByPriorityIsStableSort | logics/managers/MainManager.cs:27 | OrderBy: ascending, a permutation, and stable within each priority |
| Managers.SurvivorsSorted | logics/managers/MainManager.cs:30-39 | filtering keeps the ascending order |
| MainManagers.Reverse | logics/managers/MainManager.cs:27 | element j is element n−1−j |
| MainManagers.ReverseReverse | logics/managers/MainManager.cs:27-38 | reversing twice gives the list back |
| MainManagers.MainManager.constructor | logics/managers/MainManager.cs:9 | a main manager holding the given managers, not disabled |
| MainManagers.MainManager.Ready | logics/managers/MainManager.cs:11-53 | a second main manager throws and changes nothing; no managers disables the node; otherwise Initialize in stable ascending priority order, survivors kept in that order, then Ready on each, then AllManagersReady on each; every slot keeps holding a manager of its own type (Statics.Valid), so Manager<T>.Instance stays callable |
| MainManagers.MainManager.InitializeAll | logics/managers/MainManager.cs:27-39 | the reverse loop with RemoveAt leaves exactly the survivors, in sorted order, registers them, and keeps every slot holding a manager of its own type |
| MainManagers.MainManager.ReadyEach | logics/managers/MainManager.cs:42-48 | Ready on each manager, in order |
| MainManagers.MainManager.AllManagersReadyEach | logics/managers/MainManager.cs:51-52 | AllManagersReady on each manager, in order |
| MainManagers.ActiveKeepsActive | logics/managers/MainManager.cs:57-59 | exactly the active managers are processed |
| MainManagers.MainManager.Process | logics/managers/MainManager.cs:55-60 | Process on each active manager, in order |
| MainManagers.MainManager.PhysicsProcess | logics/managers/MainManager.cs:62-67 | PhysicsProcess on each active manager, in order |
| MainManagers.ReadyOutcome | logics/managers/MainManager.cs:27-39 | the final list is sorted, has distinct types, each manager is its type's instance, and every type of the list ends with an instance |
| Issues.Issue.Handle | logics/utilities/Issues.cs:26-33 | handled afterwards; HandleExec runs at most once; no longer needs handling |
| Issues.Handle | logics/utilities/Issues.cs:37-41 | null or handled issues are left untouched; others become handled |
| Issues.UnhandledException | logics/utilities/Issues.cs:43-47 | throws iff the issue is non-null and unhandled |
| Issues.Issue.constructor | logics/utilities/Issues.cs:17-19 | a new issue is not handled and no handler has run |
| Settings.FullScreenModeValue | logics/managers/SettingsManager.cs:61-74 | Windowed 0, Fullscreen and Borderless 3, any other byte 0 |
| Settings.Clamped | logics/managers/SettingsManager.cs:76-80 | b when b ≤ threshold, else 0; always in [0, threshold] |
| Settings.AnisotropicFilteringValue | logics/managers/SettingsManager.cs:76 | b ≤ 4 passes through, else 0 |
| Settings.SSAOQualityValue | logics/managers/SettingsManager.cs:77 | b ≤ 5 passes through, else 0 |
| Settings.SubsurfaceScatteringQualityValue | logics/managers/SettingsManager.cs:78 | b ≤ 4 passes through, else 0 |
| Settings.AntialiasingQualityValue | logics/managers/SettingsManager.cs:79 | b ≤ 4 passes through, else 0 |
| Settings.SoftShadowQualityValue | logics/managers/SettingsManager.cs:80 | b ≤ 6 passes through, else 0 |
| Settings.DeclaredMembersMapToOrdinal | logics/managers/SettingsManager.cs:52-57 | every declared member of the quality enums maps to its own ordinal |
| Settings.DeclaredFullScreenModes | logics/managers/SettingsManager.cs:52 | declared window modes map to 0 or 3 |

## Left out

- Float transforms in `RoomArea.Render`: Basis rotations, scales and the float offsets become abstract placement tags (grid cell, level, offset kind).
- The `OpenedSide` byte is modelled as a set of sides. Bits 6 and 7 are not represented.
- Int16 overflow of sizes and positions beyond the FromTo cast is not modelled. The negative list capacity it can cause in `RoomArea.Render` is modelled as a failure.
- Engine wrappers are not part of this model: the structure renderer, multimesh and collider code, the player controller, PathManager's file system work, `SettingsManager.ApplySettings` and the timer.
- The timing and printing in MainManager.cs:41-48 are not modelled, and neither are `GD.Print` and `QueueFree`. Disabling the node is the `disabled` flag.
- `Utils.Normalize`, `Utils.Mod` and the `MultiMesh.Resize` extension are float or engine code.
- The Hash64Utils hash functions wrap an external xxHash64 library. The hash is a parameter, a total function to non-negative integers, matching the sign-bit mask.
- The `Issue` finalizer runs under the garbage collector and is not modelled. `UnhandledException`, which it calls, is.
- `SlotGroup.Sort` depends on the global ObjectManager, LINQ and printing.
- Virtual hooks of managers (`Ready`, `AllManagersReady`, `Process`, `PhysicsProcess`, `HandleExec`) have empty bodies in the base classes. Their calls are recorded in a ghost log; overriding bodies are not modelled.
- The `delta` argument of `_Process`/`_PhysicsProcess` is a float that is passed through, and is not modelled.
- A null `managers` array of MainManager is modelled as the empty sequence, which takes the same branch.
- `OrderBy` is a library sort. Its result is the specification function `StableByPriority`, whose sortedness, permutation and stability are proved.
- Dict64.Dictionary64.Insert: requires count < MaxPrimeArrayLength. The `(int)count` cast and growth past 2^31 entries are not modelled.
- Dict64.Dictionary64.constructor: requires a non-negative capacity instead of modelling the exception. The same holds for `Palettes.Palette.constructor`, `ObjectManagers.ObjectManager.constructor` and `ObjectManagers.ObjectManagerSlot.Create`, whose capacities reach that constructor.
- `Resize(newSize, forceNewHashCodes)` is only reached with `forceNewHashCodes == false`. The rehash-with-new-codes branch is not modelled.
- The 32-bit `int` wrap of the Dictionary64 `version` is modelled; `version` has no reader in the source.
- `ContainsValue` has two loops, one for a null value and one for a non-null value. Both are modelled as one equality scan.
- FloorSqrt: `(int)Math.Sqrt` works on doubles; the model takes the exact integer square root, which is what the double computation truncates to for every int.
- `IsPrime` on negative numbers is not modelled: its argument is a `nat`, and GetPrime only asks about odd numbers from min on.
- The null-element case of `AddRange` is not represented: stored items are `Some`, and `None` is a default slot.
- Palettes.Palette.AddRange: never fills the master dictionary, as in the source. `Find` and `GetByKey` are therefore modelled over a `lookup` map that stays empty.
- Ids.IdProvider.NewID: requires `nextID < 2^64 − 1` when the queue is empty. The counter's wrap on `nextID++` at 2^64 is not modelled in the corrected member, although `Recycle` and `NewIDAsWritten` model it.
- Ids.IdProvider.Free: the invariant is only claimed for freeing a live identifier. Freeing an identifier that was never handed out is allowed, but the invariant is not proved for it.
- Static members of ObjectManager and IdProvider that forward to `instance` are methods of the instance. A call through a null `instance` is not modelled.
- Containers.SlotGroup.ItemInSlot: the asset lookup `assetOf` is total. Behind `Item.Asset` the ObjectManager lookup can fail on an identifier past its registry or find an unfilled (null) slot; those failures are not modelled, so an undeclared orientation is the only failure the member reports.
- `Item.Asset` fetches the asset from the ObjectManager. The asset is passed explicitly, or looked up through the parameter `assetOf`.
- Characters.Character.Equip: the item's asset is given as its wearable kind (None when not wearable). Behind `item.Asset` the ObjectManager lookup can fail on an identifier past its registry or find an unfilled (null) slot; in this model that lookup cannot fail. The effect and drop comments in the source have no code.

## Findings

| source | as written | input that shows it | evidently intended | confidence | as-written member | corrected member |
|---|---|---|---|---|---|---|
| logics/utilities/Palettes.cs:34 | growth copies `items.LongLength` elements (the new, larger length) from the shorter old array, so `Array.Copy` throws | any `Resize` to a larger size, e.g. `AddRange` of 12 items on a fresh registry of 11 | copy the old array's length | not executed | Palettes.Palette.ResizeAsWritten | Palettes.Palette.Resize |
| logics/items/Container.cs:46 | `RotateToSize` is applied to `item.CurrentSize`, which is already rotated, so the unrotated size is tested | Up-oriented 1x2 item at (0,0), point (0,1) with size (0,0): reported inside, though the rotated item covers (0,0) and (1,0) | test against `item.CurrentSize` | not executed | Containers.IsInItemAsWritten | Containers.IsInItem |
| logics/id/IdProvider.cs:12-15 | the guard is inverted: the constructor throws when no instance exists and registers only when one does | the first `new IdProvider()` | register when `instance == null`, throw otherwise | not executed | Ids.IdProviderSlot.CreateAsWritten | Ids.IdProviderSlot.Create |
| logics/id/IdProvider.cs:28-32 | the loop dequeues while `newID < nextID`, but every freed id is below `nextID`, so a non-empty queue is drained and `Dequeue` throws | `NewID` after `NewID`, `NewID`, `Free(0)` (queue [0], counter 2) | return the first queued id below the counter, skipping stale ones | not executed | Ids.IdProvider.NewIDAsWritten | Ids.IdProvider.NewID |
| logics/character/Character.cs:29 | `wearedItems` is declared but never allocated, so every `Equip` that passes its checks dereferences a null array | a Helmet-kind item equipped in wearing place 0 | allocate one entry per wearing place | not executed | Characters.EquipOnNewCharacter | Characters.EquipOnSlottedCharacter |
