# Verification model of the NVIDIA driver port for Haiku

A Dafny model of the stateful parts of the Haiku kernel driver (`nvidia_gsp`), the accelerant and the
resource-management SDK (`nvrm_cpp_sdk`), with proofs about every input, every run and every
interleaving. `dafny verify dfyconfig.toml` checks the whole project.

Where the code changes state in place the model has classes and loops (`IntrSafePools`, `Accelerants`,
`MappingContexts`, `DeviceNames`, `Bars`, `CursorImages`, `ModeGroups`, `ModeSelection`), each proved
equal to a function or predicate on values; the theorems are about those. Where several threads,
interrupt handlers or timers meet, the model is a step machine: a run is a sequence of (agent, choice)
pairs, so a theorem about `Run` is a theorem about every interleaving.

| file | subject |
|---|---|
| `SizeClasses`, `PoolValues`, `IntrSafePool` | the interrupt-safe allocator run by one caller: size classes, smallest fit with spill-over, the exact no-underflow condition, the array classes |
| `PoolSteps`, `PoolConservation`, `PoolDiscipline`, `PoolProgress`, `PoolReclaim`, `PoolPanics` | the same allocator with every lock-drop window open to other agents: invariant, conservation of blocks, interrupt discipline, completion and progress, when its panics can be reached |
| `Ownership`, `OwnershipRuns`, `Outcomes`, `Leaks`, `CursorVisibility`, `CursorPlaces`, `Accelerant` | who owns memory objects, surfaces and mappings through mode sets and cursor calls, with any kernel call allowed to fail |
| `Surfaces`, `CursorImages` | pitch and page arithmetic, which surfaces are mapped whole, the cursor image copy |
| `Timings`, `ModeSelection`, `ModeGroups` | timing conversions, `ProposeMode`, the grouped mode menu |
| `DeviceNames` | device-name printer, parser, lookup and published array |
| `RefTimers`, `Events`, `EventCalls`, `Mutexes` | shared reference count with timers; dataless and NVKMS events with their select pools |
| `Bars`, `MappingContexts` | PCI base-address registers; the write-once mapping context |

## Findings

Places where the code does not do what its own names, comments or shape suggest. Each has its exact
condition, for all inputs, and an input the code can receive that shows it.

- Size classes (nvidia_gsp/nvidia/IntrSafePool.cpp:75-78): the loop never ends for sizes above 2^63, because the
  doubling wraps to zero. `SizeClasses.LoopEndsIff`; at 2^63 + 1: `SizeClasses.LoopRunsForEverAt`.
- Areas (nvrm_cpp_sdk/NvRmDevice.h:119-134): the move assignment of a memory mapping does not carry the area id, so no
  area of a completed bitmap is ever deleted, and one more is left for each. `Leaks.LeaksOverRuns`; one cursor image:
  `Leaks.AreaIsLeft`.
- Mappings (nvrm_cpp_sdk/NvRmDevice.cpp:88-89): a mapping whose second kernel call fails leaves the first behind, each
  time. `Leaks.LeaksOverRuns`; one cursor image: `Leaks.MappingIsLeft`.
- Cursor (accelerant/Accelerant.cpp:636-640, 664-667): `ShowCursor` flips its flag before the call that may fail. When
  there is an image, each failed toggle makes flag and screen disagree, or agree again, until the next successful
  image call; a first image whose call fails under a raised flag makes them disagree as well. Without an image a
  failed toggle leaves nothing to disagree about. `CursorVisibility.OnScreenIff`, and for the newest image
  `CursorVisibility.UpToDateIff`; a cursor that stays although hidden: `CursorVisibility.HiddenCursorStays`; one that
  never appears: `CursorVisibility.FirstShowIsLost`, `CursorVisibility.FirstImageIsLost`.
- Hot spots (accelerant/Accelerant.cpp:640, 722-727): a hot spot set while the cursor is hidden takes effect only with
  the next move, because showing the cursor does not place it. `CursorPlaces.PlaceIsLastSpot`; a cursor shown eight
  pixels off: `CursorPlaces.HotSpotIsLate`.
- Large surfaces (accelerant/NvKmsBitmap.cpp:35): the size is computed in 32 bits, so the pixels of a surface are not
  all mapped once it reaches 2^32 bytes. `Surfaces.PixelsMappedIff`; 32768 by 32768: `Surfaces.LargeSquareUnmapped`.
- Timers (nvidia_gsp/nvidia-modeset/TimerQueue.cpp:92-95): `TimerHook` queues a DPC without setting the flag `DoDPC`
  tests, so a delayed reference timer is never dispatched and pins its object for ever.
  `RefTimers.DelayedTimerPinsForEver`, `RefTimers.FreedInTheEndIff`; one delayed timer: `RefTimers.PinnedAfterOneDelay`.
  Allocating timers is switched off at present (nvidia_gsp/nvidia-modeset/nvkms-haiku.cpp:258).
- BARs (nvidia_gsp/nvidia/Device.cpp:90-93): the loop reads one register too far exactly when the run of
  64-bit-marked slots at the end has odd length. `Bars.ReadsPastIff`; only the last of six marked:
  `Bars.LastMarkReadsPast`, `Bars.CompactOnlyLastMarked`.
- Names (nvidia_gsp/nvidia/Driver.cpp:117-121): a device name whose copy fails for lack of memory hides every name
  behind it. `DeviceNames.AllVisibleIff`; when the first copy fails: `DeviceNames.NothingVisible`.
- Proposals (accelerant/Accelerant.cpp:391): `ProposeMode` divides by zero exactly for an unlisted target whose totals
  multiply to zero. `ModeSelection.DividesIff`; an all-zero target: `ModeSelection.BlankTargetDivides`.
- Mode sets (accelerant/Accelerant.cpp:435, 32): `SetDisplayMode` divides by zero, before the kernel validates
  anything, exactly for a request that passes the four geometry checks and has a total of zero.
  `Ownership.ModeSetDividesIff`; 1024 by 768 without totals: `Ownership.ModeWithoutTotalsDivides`.
- Mode menu (accelerant/ModesetTest2.cpp:826-831, 918-919): the grouping loop divides by zero exactly when two modes
  share a resolution and one of them has a total of zero. `ModeGroups.BuildGroups`; the same mode twice:
  `ModeGroups.TwiceTheSameClashes`.

## Model

| member | source | states |
|---|---|---|
| SizeClasses.FindClass | nvidia_gsp/nvidia/IntrSafePool.cpp:68-78 | For every 64-bit size the doubling loop finds the smallest class whose blocks hold it, and gives none exactly when no doubling ever reaches the size, which is above 2^63 |
| SizeClasses.LoopEndsIff | nvidia_gsp/nvidia/IntrSafePool.cpp:74-78 | The wrapped group size ever reaches the request if and only if the request is at most 2^63 |
| SizeClasses.LoopRunsForEverAt | nvidia_gsp/nvidia/IntrSafePool.cpp:74-78 | At 2^63 + 1 no doubling reaches the size |
| SizeClasses.ClassIsUnique | nvidia_gsp/nvidia/IntrSafePool.cpp:68-78 | There is only one class that fits and whose predecessors do not |
| SizeClasses.CapacityInBytes | nvidia_gsp/nvidia/IntrSafePool.h:12-15 | The four classes are 16, 32, 64 and 128 bytes, class n in general 16 * 2^n |
| SizeClasses.BitWidthFormula | nvidia_gsp/nvidia/IntrSafePool.cpp:69-73 | The disabled `bit_width` formula agrees with the loop for every size |
| PoolValues.AllocFromEffect | nvidia_gsp/nvidia/IntrSafePool.cpp:79-88 | An allocation takes the top of the first group with a block on top, drops one null slot from every group passed on the way, and touches nothing below or above |
| PoolValues.AllocIsLargeEnough | nvidia_gsp/nvidia/IntrSafePool.cpp:79-86 | When every group holds blocks of its own class, the block handed out has at least the size asked for, and the groups stay so |
| PoolValues.ServedIffEnough | nvidia_gsp/nvidia/IntrSafePool.cpp:61-89 | From any filling without null slots, a list of requests is served without refill if and only if for every class the requests of that class or higher are no more than the blocks of that class or higher |
| PoolValues.FullPoolNeverUnderflowsIff | nvidia_gsp/nvidia/IntrSafePool.cpp:61-89 | From a full pool no request underflows if and only if, for every class c from 0 to 4, at most 16*(4-c) requests are of class c or higher |
| PoolValues.PlacementOfRun | nvidia_gsp/nvidia/IntrSafePool.cpp:79-86 | A served list comes with a placement: each request in a large enough group, no slot used twice |
| PoolValues.SmallestFitIsOptimal | nvidia_gsp/nvidia/IntrSafePool.cpp:79-86 | Smallest fit with spill-over serves exactly the request lists that some choice of groups, made knowing the whole list, could serve |
| IntrSafePools.Group.Alloc | nvidia_gsp/nvidia/IntrSafePool.cpp:28-38 | Pops the top slot and clears it, null when empty |
| IntrSafePools.Group.Free | nvidia_gsp/nvidia/IntrSafePool.cpp:40-48 | Pushes the pointer, or panics and changes nothing exactly when the array is full |
| IntrSafePools.Group.ReclaimAll | nvidia_gsp/nvidia/IntrSafePool.cpp:9-26 | Frees every slot once, newest first, and leaves the group empty |
| IntrSafePools.IntrSafePool.constructor | nvidia_gsp/nvidia/IntrSafePool.h:12-31 | Four empty groups of 16 slots, an empty reclaim list of 4096, level 0, no sharing |
| IntrSafePools.IntrSafePool.Alloc | nvidia_gsp/nvidia/IntrSafePool.cpp:61-89 | On the arrays, the effect and result of `AllocFrom` at the class of the size; underflow panics exactly when the result is null; above 2^63, and only there, it never returns, with the level raised and the groups as they were; reclaim list unchanged |
| IntrSafePools.IntrSafePool.Free | nvidia_gsp/nvidia/IntrSafePool.cpp:91-100 | The pointer joins the end of the reclaim list; overflow panics exactly at 4096 entries; groups and level unchanged |
| IntrSafePools.IntrSafePool.ReclaimAll | nvidia_gsp/nvidia/IntrSafePool.cpp:50-59 | Everything in the reclaim list and then in the groups, in order, goes to the heap; all are empty afterwards |
| IntrSafePools.IntrSafePool.Maintain | nvidia_gsp/nvidia/IntrSafePool.cpp:102-128 | Nothing when nested; otherwise the reclaim list is freed in order, every group has 16 slots, what it held it still holds, and what it gained is all that calloc returned, in that order and of the group's size; level restored |
| IntrSafePools.IntrSafePool.FillGroup | nvidia_gsp/nvidia/IntrSafePool.cpp:115-125 | One group is filled to 16 slots by blocks of its size, the others unchanged |
| PoolSteps.PutKeepsInv | nvidia_gsp/nvidia/IntrSafePool.cpp:116-124 | The store after re-locking is inside the array although the bound was tested before the lock was dropped |
| PoolSteps.MovedKeepsInv | nvidia_gsp/nvidia/IntrSafePool.cpp:102-128 | A step of one agent keeps what the program counters of all the others rely on |
| PoolSteps.NextKeepsInv | nvidia_gsp/nvidia/IntrSafePool.cpp:10-128 | Every step of every agent keeps bounds, lock ownership, gate ownership with the level, and what each program counter promises |
| PoolSteps.RunKeepsInv | nvidia_gsp/nvidia/IntrSafePool.cpp:10-128 | So does every interleaving |
| PoolDiscipline.SafeOverRuns | nvidia_gsp/nvidia/IntrSafePool.cpp:10-26 | In every interleaving from a new pool: at most one agent past the level test, no store out of range, nobody inside the lock with interrupts enabled, no reclaim overflow panic, all counts within bounds |
| PoolDiscipline.ServedIsLargeEnough | nvidia_gsp/nvidia/IntrSafePool.cpp:79-86 | At any moment of any interleaving, a pool request that is served gets a block of at least the size asked for |
| PoolDiscipline.FlagBetweenCalls | nvidia_gsp/nvidia/os-haiku.cpp:191-214 | At any moment of any run, between its calls an agent has interrupts enabled exactly when it holds no OS spinlock, counted from its calls, and had them enabled at the beginning |
| PoolDiscipline.ReleaseMaintainsIff | nvidia_gsp/nvidia/os-haiku.cpp:725-748 | After any run, releasing a spinlock enables interrupts and leads to Maintain exactly when it is the outermost one, counted from the calls, and the agent had interrupts enabled at the beginning |
| PoolDiscipline.AcquireRelease | nvidia_gsp/nvidia/os-haiku.cpp:725-748 | In any state, an acquire and a release leave everything as before, with Maintain to follow exactly when interrupts were enabled |
| PoolDiscipline.AllocMemRoute | nvidia_gsp/nvidia/os-haiku.cpp:191-204 | With interrupts enabled the heap is asked for exactly the size and the client gets that block or nothing; with interrupts disabled the pool is asked |
| PoolDiscipline.FreeMemRoute | nvidia_gsp/nvidia/os-haiku.cpp:206-214 | With interrupts enabled the block goes to the heap at once, with interrupts disabled to the pool, and the client has it no more |
| PoolDiscipline.NestedMaintainReturns | nvidia_gsp/nvidia/IntrSafePool.cpp:106-110 | A Maintain that finds another one under way returns after four steps with everything else unchanged |
| PoolDiscipline.MaintainAloneCompletes | nvidia_gsp/nvidia/IntrSafePool.cpp:102-128 | A Maintain that passes the level test and is left alone ends within a stated number of steps, whichever heap calls fail, with an empty reclaim list, full groups, lock, level and interrupt flag as before |
| PoolProgress.OwnStep | nvidia_gsp/nvidia/IntrSafePool.cpp:102-128 | Wherever the other agents are, every step of a Maintain that does not wait for the lock lowers a cost that is never negative |
| PoolProgress.SetbackIsWeighed | nvidia_gsp/nvidia/IntrSafePool.cpp:50-100 | Another agent's step raises the work left by at most four slots when it serves a request, by one when it takes a freed pointer or reclaims a block of a group, and otherwise not at all |
| PoolProgress.MaintainIsBounded | nvidia_gsp/nvidia/IntrSafePool.cpp:102-128 | In every interleaving a Maintain makes at most as many steps as its cost at the beginning and 20 for every slot by which the others set it back |
| PoolProgress.MaintainEnds | nvidia_gsp/nvidia/IntrSafePool.cpp:102-128 | From its call on at most 1482 steps, 20 for every pointer on the reclaim list and 80 for every call of the others, so it ends when those are finitely many and it is not kept from the lock |
| PoolReclaim.ReclaimAllCompletes | nvidia_gsp/nvidia/IntrSafePool.cpp:50-59 | Left alone, ReclaimAll ends within a stated number of steps with groups and reclaim list empty, every block that was there back in the heap, and lock, level and interrupt flag as before |
| PoolConservation.AllocCount | nvidia_gsp/nvidia/IntrSafePool.cpp:79-86 | An allocation moves exactly one occurrence of the block it returns out of the groups |
| PoolConservation.NextConserves | nvidia_gsp/nvidia/IntrSafePool.cpp:10-128 | No step duplicates or loses a block |
| PoolConservation.EveryBlockInOnePlace | nvidia_gsp/nvidia/IntrSafePool.cpp:10-128 | In every interleaving each block ever allocated is in exactly one of: a size group, the reclaim list, an agent's hand, a client, the heap |
| PoolConservation.FreedStaysFreed | nvidia_gsp/nvidia/IntrSafePool.cpp:91-100 | A block on its way back is never again in a group or with a client and reaches the heap at most once |
| PoolConservation.FreeMemDooms | nvidia_gsp/nvidia/os-haiku.cpp:206-214 | `os_free_mem` puts the block on that way, with interrupts on or off |
| PoolConservation.NeverHandedOutAgain | nvidia_gsp/nvidia/os-haiku.cpp:206-214 | A block given to `os_free_mem` at any moment of any run is never handed out again and freed at most once, whatever follows |
| PoolPanics.UnderflowsIff | nvidia_gsp/nvidia/IntrSafePool.cpp:79-88 | A step underflows exactly when it serves a request and every group from its class on is empty or has a null slot on top |
| PoolPanics.NoUnderflow | nvidia_gsp/nvidia/IntrSafePool.cpp:61-128 | Without null slots, ReclaimAll and failed refills, no interleaving underflows whose requests, class by class and upwards, are no more than the blocks held at its beginning |
| PoolPanics.FullPoolInterleaved | nvidia_gsp/nvidia/IntrSafePool.cpp:61-128 | From full groups, 16*(4-c) requests of class c or higher are served in every interleaving |
| PoolPanics.MaintainStocks | nvidia_gsp/nvidia/IntrSafePool.cpp:102-128 | A Maintain left alone, given blocks by calloc, turns a pool without null slots into a full one without, which serves exactly the lists within the budget |
| PoolPanics.LargeRequestKeepsLock | nvidia_gsp/nvidia/IntrSafePool.cpp:75-78 | A request above 2^63 bytes keeps the lock, whatever anybody does |
| PoolPanics.ScriptUnderflowsIff | nvidia_gsp/nvidia/IntrSafePool.cpp:61-89 | The step machine refines the sequential pool: a lone caller underflows exactly when its requests are not served |
| PoolPanics.BudgetIsTight | nvidia_gsp/nvidia/IntrSafePool.cpp:61-89 | For every list beyond the budget of a full pool some interleaving underflows |
| PoolPanics.NoOverflow | nvidia_gsp/nvidia/IntrSafePool.cpp:40-48 | No interleaving overflows the reclaim list as long as what it held and what is freed since are at most 4096 |
| PoolPanics.FreeScriptOverflowsIff | nvidia_gsp/nvidia/IntrSafePool.cpp:91-100 | That bound is exact, and null pointers count |
| Ownership.DestroyGivesBack | accelerant/NvKmsBitmap.h:11-19 | Destroying an unselected bitmap releases exactly what it owns, each thing once, in the order mapping, surface, memory |
| Ownership.MisuseIsRecorded | nvrm_cpp_sdk/NvKmsSurface.cpp:8-14 | Every release of what is not there or before what depends on it, every unregistration of a selected surface and every selection of an unregistered one is recorded; the runs never record one |
| Ownership.MovePassesOn | accelerant/NvKmsBitmap.h:69-86 | A move assignment releases exactly what the target owned, passes on what the source owned, and leaves the source owning nothing |
| Ownership.FailedConstructRestores | accelerant/NvKmsBitmap.cpp:15-58 | Wherever the constructor fails, live objects and selections are as before it; only an RM mapping half made may be left |
| Ownership.ConstructAddsOne | accelerant/NvKmsBitmap.cpp:15-58 | A successful constructor adds one memory object, one surface and one mapping with handles nobody had before, of the size asked for |
| Ownership.SetDisplayModeKeepsInv | accelerant/Accelerant.cpp:415-480 | A mode set, failing at any call or at none, keeps conservation and selections |
| Ownership.ModeSetDividesIff | accelerant/Accelerant.cpp:419-435 | The mode set divides by zero exactly when the four geometry checks pass and a total is zero, whatever the kernel would say, with nothing changed |
| Ownership.ModeWithoutTotalsDivides | accelerant/Accelerant.cpp:419-435 | It does for a plain mode whose totals are zero |
| Ownership.UpdateCursorKeepsInv | accelerant/Accelerant.cpp:643-684 | So does a cursor update |
| Ownership.SetCursorBitmapKeepsInv | accelerant/Accelerant.cpp:691-728 | So does a new cursor bitmap |
| Ownership.RunKeepsInv | accelerant/Accelerant.cpp:415-728 | So does every run of these operations |
| Outcomes.ModeSetOutcome | accelerant/Accelerant.cpp:415-480 | The exact condition under which a mode set returns normally; then the request is current and a new framebuffer of its size, pitch and colour space is scanned out, the one before kept; otherwise fields and framebuffers are unchanged |
| Outcomes.SetCursorOutcome | accelerant/Accelerant.cpp:691-728 | The exact condition under which a cursor request returns normally; the bitmap made is new, the smallest square that holds the request, with its pitch and colour space |
| Outcomes.SucceedsIff | accelerant/Accelerant.cpp:415-728 | The same condition for every operation, visibility and position calls included |
| Outcomes.ConstructsIff | accelerant/NvKmsBitmap.cpp:21-57 | A bitmap is made exactly for the two 32-bit colour spaces and when none of the five calls fails |
| OwnershipRuns.OwnershipOverRuns | accelerant/Accelerant.cpp:415-728 | Over every run: live resources are exactly those of the four bitmaps without duplicates, nothing was released twice, too early or while selected, the scan-out surface is the framebuffer's, the cursor surface is none or the cursor's and registered |
| OwnershipRuns.FramebufferMappingSurvivesIff | accelerant/Accelerant.cpp:476-479 | The mapping of the present framebuffer is alive after a run if and only if the run has at most one successful mode set |
| OwnershipRuns.OldMappingSurvivesIff | accelerant/Accelerant.cpp:478 | The previous framebuffer's mapping is alive if and only if the run has no successful mode set |
| CursorVisibility.DoOnScreen | accelerant/Accelerant.cpp:627-684 | What each operation does to the agreement between screen and flag: success of an image call establishes it, a failed toggle with an image flips it, a failed first image under a raised flag ends it, nothing else matters; flag, position and hot spot are those last asked for |
| CursorVisibility.OnScreenIff | accelerant/Accelerant.cpp:634-668 | After any run a cursor is on the screen exactly when the flag is up and there is an image, set or waiting, unless the failures since the last successful image call, counted by parity, leave them apart |
| CursorVisibility.UpToDateNow | accelerant/Accelerant.cpp:653 | The screen shows the newest image, or none, as asked, exactly when screen and flag agree and no newer image waits under a raised flag |
| CursorVisibility.UpToDateIff | accelerant/Accelerant.cpp:634-684 | The same after any run, in terms of the calls made and which of them failed |
| CursorVisibility.HiddenCursorStays | accelerant/Accelerant.cpp:634-641 | A cursor set and shown stays on the screen when hiding it fails, and hiding it again is not tried |
| CursorVisibility.FirstShowIsLost | accelerant/Accelerant.cpp:634-641 | A cursor is set and showing it fails: flag up, screen blank, and showing it again is not tried |
| CursorVisibility.FirstImageIsLost | accelerant/Accelerant.cpp:725-727 | The flag is raised before there is an image and the call for the first one fails: screen blank under a raised flag |
| CursorPlaces.Signed16Keeps | accelerant/Accelerant.cpp:677-678 | The conversion of the position keeps the low 16 bits, and numbers that fit |
| CursorPlaces.DoPlaces | accelerant/Accelerant.cpp:627-684 | An operation that gets a position call through puts the cursor where it then belongs, position less hot spot; no other operation moves it |
| CursorPlaces.PlaceIsLastSpot | accelerant/Accelerant.cpp:627-728 | After any run the cursor is where it belonged at the last successful position call |
| CursorPlaces.HotSpotIsLate | accelerant/Accelerant.cpp:634-641 | A hot spot changed while hidden is not in effect when the cursor is shown |
| Leaks.LeaksOverRuns | nvrm_cpp_sdk/NvRmDevice.h:119-134 | Over every run no area goes and their number grows by that of the bitmaps completed; no half-made RM mapping goes and their number grows by that of the failed second calls of MapMemory |
| Leaks.AreaIsLeft | accelerant/NvKmsBitmap.cpp:57 | One completed cursor image leaves an area, whatever follows |
| Leaks.MappingIsLeft | nvrm_cpp_sdk/NvRmDevice.cpp:80-90 | One cursor image whose mapping fails half way leaves an RM mapping, whatever follows |
| Accelerants.NvKernel.MapMemory | nvrm_cpp_sdk/NvRmDevice.cpp:64-96 | The two mapping calls: none, only the first, or both take effect |
| Accelerants.NvKmsBitmap.MoveMapping | nvrm_cpp_sdk/NvRmDevice.h:119-134 | The move of a mapping: the target's is unmapped, every field but the area is taken over, the source is unset |
| Accelerants.NvKmsBitmap.MoveSurface | nvrm_cpp_sdk/NvKmsSurface.h:58-67 | The move of a surface handle |
| Accelerants.NvKmsBitmap.MoveMemory | nvrm_cpp_sdk/NvRmApi.h:95-104 | The move of a memory object |
| Accelerants.NvKmsBitmap.MoveAssign | accelerant/NvKmsBitmap.h:69-86 | The class's move assignment equals the transition of `Ownership` on kernel, target and source |
| Accelerants.NvKmsBitmap.Construct | accelerant/NvKmsBitmap.cpp:15-58 | The stepwise constructor, with what its members' destructors undo on failure, equals the transition of `Ownership` |
| Accelerants.NvAccelerant.SetDisplayMode | accelerant/Accelerant.cpp:415-480 | The method equals the transition: fields, four bitmaps, kernel and outcome, the division by zero among them; it keeps the invariant of selections and conservation |
| Accelerants.NvAccelerant.UpdateCursor | accelerant/Accelerant.cpp:643-684 | The method equals the transition of the cursor update |
| Accelerants.NvAccelerant.ShowCursor | accelerant/Accelerant.cpp:634-641 | The same for the visibility toggle |
| Accelerants.NvAccelerant.MoveCursor | accelerant/Accelerant.cpp:627-632 | The same for the position |
| Accelerants.NvAccelerant.SetCursorBitmap | accelerant/Accelerant.cpp:691-728 | The same for a new cursor bitmap |
| Surfaces.AlignUpIsLeast | accelerant/NvKmsBitmap.cpp:9-12 | AlignUp gives the smallest multiple of the alignment that is not below the value |
| Surfaces.RowHoldsPixels | accelerant/NvKmsBitmap.cpp:18 | For every 16-bit width the pitch holds the row, is a multiple of 256, and nothing wraps |
| Surfaces.PixelsMappedIff | accelerant/NvKmsBitmap.cpp:35-57 | For all 16-bit sizes every byte of every pixel lies inside the mapping if and only if pitch times height is below 2^32 |
| Surfaces.LargeSquareUnmapped | accelerant/NvKmsBitmap.cpp:35-57 | 32768 by 32768 pixels take 2^32 bytes and the mapping has length zero |
| CursorImages.CursorSideIsLeast | accelerant/Accelerant.cpp:693-709 | Refused exactly when no square of 32, 64, 128 or 256 holds the request; otherwise the smallest that does |
| CursorImages.RowsAt | accelerant/Accelerant.cpp:712-719 | Byte (x, y) of the image is the client's byte inside its bitmap and zero outside |
| CursorImages.ImageAt | accelerant/Accelerant.cpp:712-719 | Byte x of row y of the image is byte y * bytesPerRow + x of the client, inside its bitmap, and zero outside |
| CursorImages.WriteImage | accelerant/Accelerant.cpp:711-719 | The memset and the copy loop stay inside the page-aligned mapping and the client's data, write exactly that image, and leave the bytes behind it alone |
| CursorImages.CopyRow | accelerant/Accelerant.cpp:716 | One row copy writes one image row and nothing else |
| Timings.KnownFlagsSurvive | accelerant/Accelerant.cpp:35-73 | Of the flags the three known ones come back, and only those |
| Timings.HaikuRoundTripIff | accelerant/Accelerant.cpp:35-73 | Haiku to NVKMS and back is the identity if and only if the clock in Hz fits in 32 bits and no unknown flag is set |
| Timings.ListedTimingReturns | accelerant/Accelerant.cpp:35-73 | A timing that came from NVKMS is not changed by going back and forth again |
| Timings.NvKmsRoundTrip | accelerant/Accelerant.cpp:35-73 | NVKMS to Haiku and back loses less than 1000 Hz, keeps geometry and polarity, and normalises the negative sync flags |
| Timings.RecomputedRate | accelerant/Accelerant.cpp:29-33 | The recomputed rate is below the one the exact clock gives by at most ceil(999000 k / D), and is what is stored unless 32 bits are too few |
| ModeSelection.ProposeMode | accelerant/Accelerant.cpp:379-413 | Exact match: target kept; otherwise the lowest-index mode whose refresh rate differs least from the one asked for among those of equal resolution and interlacing; status by the bounds, or the error cases |
| ModeSelection.FindNearest | accelerant/Accelerant.cpp:391-405 | The second loop finds that mode, by the absolute difference of the rates, or that there is none |
| ModeSelection.CandidateIff | accelerant/Accelerant.cpp:395-400 | The comparison in Haiku form is equality of resolution and interlacing of the NVKMS mode |
| ModeSelection.IsDisplayModeWithinBounds | accelerant/Accelerant.cpp:342-377 | The chain of tests holds exactly when all eleven numbers lie between their bounds |
| ModeSelection.ErrorIff | accelerant/Accelerant.cpp:406-412 | It fails for want of a mode exactly when none has the resolution and interlacing; else the bounds decide |
| ModeSelection.ProposalIsUnique | accelerant/Accelerant.cpp:379-413 | That promise determines status and target |
| ModeSelection.DividesIff | accelerant/Accelerant.cpp:391 | The division by zero happens exactly for an unlisted target whose totals multiply to zero |
| ModeSelection.BlankTargetDivides | accelerant/Accelerant.cpp:391 | It happens for an all-zero target and any list without an empty mode |
| ModeSelection.AcceptedModeIsListed | accelerant/Accelerant.cpp:327-413 | An accepted mode is listed, within bounds, of the requested resolution and interlacing, and differs from the request in timing only |
| ModeSelection.ProposingAgainChangesNothing | accelerant/Accelerant.cpp:379-413 | Proposing the result again with the same bounds gives the same status and changes nothing |
| ModeGroups.ResolutionOrder | accelerant/ModesetTest2.cpp:873-882 | The resolution order, for all modes, is the order of numbers that identify the resolution |
| ModeGroups.RateOrder | accelerant/ModesetTest2.cpp:884-897 | The rate order, where rates exist, is the order of numbers that identify rate and interlacing |
| ModeGroups.ResolutionIsStrictWeak | accelerant/ModesetTest2.cpp:873-882 | For all modes: irreflexive, transitive, and transitive in incomparability |
| ModeGroups.RateIsStrictWeak | accelerant/ModesetTest2.cpp:884-897 | The same for the rate order, where rates exist |
| ModeGroups.PutLookup | accelerant/ModesetTest2.cpp:918-920 | The sorted map behaves as a map: a change under one key is seen under that key only |
| ModeGroups.BuildGroups | accelerant/ModesetTest2.cpp:899-921 | For an arbitrary list: the grouping loop divides by zero exactly when two modes share a resolution and one has a total of zero; otherwise it yields strictly sorted groups without empty ones, and under any two keys stand exactly the modes with these keys, in input order |
| ModeGroups.DividesIffClash | accelerant/ModesetTest2.cpp:885-896 | The comparisons of one round divide by zero exactly when its mode makes two clash: a mode without a rate is alone in its resolution |
| ModeGroups.TwiceTheSameClashes | accelerant/ModesetTest2.cpp:826-831 | The same mode twice, with a total of zero, clashes |
| ModeGroups.EveryModeIsPlaced | accelerant/ModesetTest2.cpp:912-921 | Every mode of the list stands in the group of its own resolution, rate and interlacing |
| ModeGroups.NoModeTwice | accelerant/ModesetTest2.cpp:912-921 | And nowhere else; nothing but modes of the list stands anywhere |
| ModeGroups.InputOrderIsKept | accelerant/ModesetTest2.cpp:920 | Inside a group the modes keep their order |
| ModeGroups.MatchingIsOrdered | accelerant/ModesetTest2.cpp:912-921 | The modes with given keys, listed ascending, are exactly those with these keys |
| DeviceNames.DecimalIsCanonical | nvidia_gsp/nvidia/Driver.cpp:119-120 | The printed number has no superfluous zero and reads back as itself |
| DeviceNames.CanonicalIsDecimal | nvidia_gsp/nvidia/Driver.cpp:23-41 | Every digit string without superfluous zero is what the printer writes for its value |
| DeviceNames.ParseUint32Iff | nvidia_gsp/nvidia/Driver.cpp:23-41 | Accepted to the end with value i if and only if the string is the canonical decimal of i and i fits in 32 bits, whatever errno held before |
| DeviceNames.ParseDeviceNameIff | nvidia_gsp/nvidia/Driver.cpp:43-59 | A name is accepted with index i if and only if it is the prefix followed by the canonical decimal of i and i fits in 32 bits |
| DeviceNames.FindDeviceIff | nvidia_gsp/nvidia/Driver.cpp:145-158 | A name leads to GPU i exactly when it is the printed name of an existing GPU i, and to the control device exactly when it is the control name |
| DeviceNames.NameFitsBuffer | nvidia_gsp/nvidia/Driver.cpp:119-120 | The printed name fits the 128-byte buffer |
| DeviceNames.Publish | nvidia_gsp/nvidia/Driver.cpp:116-122 | The array holds the control name and the GPU names in order, null where a copy failed, and null at the end |
| DeviceNames.DeviceNamesArray.constructor | nvidia_gsp/DeviceNamesArray.cpp:16-27 | One more slot than names, all null |
| DeviceNames.DeviceNamesArray.SetName | nvidia_gsp/DeviceNamesArray.cpp:29-38 | Replaces one slot, or nothing when the copy fails |
| DeviceNames.PublishedNamesResolve | nvidia_gsp/nvidia/Driver.cpp:116-158 | Without a failed copy the visible names are exactly those that lead to a device, and the name at 1 + i leads to GPU i |
| DeviceNames.AllVisibleIff | nvidia_gsp/nvidia/Driver.cpp:116-122 | All names are visible if and only if no copy failed; a failed one hides all later ones |
| DeviceNames.NothingVisible | nvidia_gsp/nvidia/Driver.cpp:117 | When the first copy fails no name is visible |
| RefTimers.RunKeepsInv | nvidia_gsp/nvidia-modeset/TimerQueue.cpp:38-127 | Every interleaving keeps count, ownership of the free, and the promises of each program counter |
| RefTimers.CountIsExact | nvidia_gsp/nvidia-modeset/nvkms-haiku.cpp:217-253 | In every interleaving the count is the number of holders; the object is freed at most once, at count zero, and not touched afterwards |
| RefTimers.LastHolderFrees | nvidia_gsp/nvidia-modeset/nv-kref.h:44-54 | The step that brings the count to zero makes exactly one agent responsible for the free, and only that one frees |
| RefTimers.AccessIsLive | nvidia_gsp/nvidia-modeset/nvkms-haiku.cpp:228-253 | Said of the program counters: while the owner or a timer is still to use the object it has not been freed |
| RefTimers.CreateCounts | nvidia_gsp/nvidia-modeset/TimerQueue.cpp:38-52 | A timer created while the owner holds adds one to the count and waits for Schedule |
| RefTimers.OwnerFrees | nvidia_gsp/nvidia-modeset/nvkms-haiku.cpp:228-253 | With the last reference, a release clears the pointer and frees the object |
| RefTimers.OwnerEnds | nvidia_gsp/nvidia-modeset/nvkms-haiku.cpp:228-253 | From anywhere the owner ends by its own steps, and with timers still counted leaves the freeing to them |
| RefTimers.MovesAreBounded | nvidia_gsp/nvidia-modeset/TimerQueue.cpp:59-127 | Without further timers no schedule makes more moves than a number fixed by the state |
| RefTimers.QuietIff | nvidia_gsp/nvidia-modeset/TimerQueue.cpp:59-127 | Nothing can move exactly when owner and timers are at their ends |
| RefTimers.QuietIsReached | nvidia_gsp/nvidia-modeset/TimerQueue.cpp:59-127 | From every reachable state some continuation, without a further delay, gets there |
| RefTimers.FreedExactlyOnce | nvidia_gsp/nvidia-modeset/nvkms-haiku.cpp:241-253 | Without a delayed timer the end that can be reached has the object freed, exactly once |
| RefTimers.CallbackIff | nvidia_gsp/nvidia-modeset/TimerQueue.cpp:108-126 | Whatever happens between a timer's look at the pointer and its end, it has called back exactly when the owner had not begun to release at that look |
| RefTimers.NoCallbackAfterRelease | nvidia_gsp/nvidia-modeset/nvkms-haiku.cpp:228-235 | Once the owner has begun to release, a timer that has not read the pointer never calls back, whatever follows |
| RefTimers.DelayedTimerPinsForEver | nvidia_gsp/nvidia-modeset/TimerQueue.cpp:88-107 | Once a timer has been scheduled with a delay the object is never freed and its count stays positive, whatever follows |
| RefTimers.PinnedAfterOneDelay | nvidia_gsp/nvidia-modeset/TimerQueue.cpp:88-107 | One timer created and delayed is enough |
| RefTimers.FreedInTheEndIff | nvidia_gsp/nvidia-modeset/TimerQueue.cpp:88-127 | When nothing is left to happen the object has been freed if and only if no timer was delayed |
| RefTimers.ZeroDelayDispatches | nvidia_gsp/nvidia-modeset/TimerQueue.cpp:59-64 | From Schedule without delay, or from anywhere behind it, a timer ends by at most seven steps of its own, gives back its reference, and calls back exactly when the owner has not cleared the pointer |
| DatalessEvents.RunKeepsInv | nvidia_gsp/nvidia/BaseDevice.cpp:266-301 | Every interleaving of post, select and deselect keeps mutex ownership and the debt of the flag |
| DatalessEvents.NoLostWakeup | nvidia_gsp/nvidia/os-haiku.cpp:1003-1009 | For every post of every interleaving: the flag is set, or a waiter was notified at or after the post, or the thread in the mutex is about to; all who were pooled at its notify step were notified |
| DatalessEvents.EveryLaterPostReachesWaiter | nvidia_gsp/nvidia/BaseDevice.cpp:266-287 | A waiter in the pool that nobody deselects is notified for every later post that has finished |
| DatalessCalls.SelectCall | nvidia_gsp/nvidia/BaseDevice.cpp:272-287 | When Select returns, whatever other threads did meanwhile, its waiter is in the pool and for every event posted before the call somebody has been notified |
| DatalessCalls.FlagIsTaken | nvidia_gsp/nvidia/BaseDevice.cpp:282-284 | A Select that finds the flag set notifies its own waiter for every post so far, and nobody else |
| DatalessCalls.PoolAfterSelect | nvidia_gsp/nvidia/BaseDevice.cpp:272-287 | From the moment it has the mutex, Select adds exactly its waiter, and nothing for a foreign event |
| DatalessCalls.FailedSelect | nvidia_gsp/nvidia/BaseDevice.cpp:280 | Without memory for the entry nothing has changed |
| DatalessCalls.DeselectCall | nvidia_gsp/nvidia/BaseDevice.cpp:289-301 | When Deselect returns its waiter is not in the pool |
| DatalessCalls.PoolAfterDeselect | nvidia_gsp/nvidia/BaseDevice.cpp:289-301 | From the moment it has the mutex, Deselect removes exactly its waiter, and nothing for a foreign event |
| DatalessCalls.PostCall | nvidia_gsp/nvidia/os-haiku.cpp:1003-1009 | A post raises the flag at once, and has notified the pool when it returns |
| DatalessCalls.PoolIsWoken | nvidia_gsp/nvidia/BaseDevice.cpp:266-270 | With the mutex, a post notifies exactly the pool, for every post so far |
| DatalessCalls.CallEnds | nvidia_gsp/nvidia/BaseDevice.cpp:266-301 | Every call returns after at most four steps at which it does not wait for the mutex; the holder never waits |
| KmsEvents.RunKeepsInv | nvidia_gsp/nvidia-modeset/KmsDevice.cpp:60-115 | Every interleaving keeps mutex ownership and who is still to be notified |
| KmsEvents.PooledWaitersAreNotified | nvidia_gsp/nvidia-modeset/KmsDevice.cpp:60-67 | Whenever events are available and the mutex is free, every pooled waiter has been notified since it came and since they became available |
| KmsCalls.ChangeCall | nvidia_gsp/nvidia-modeset/KmsDevice.cpp:60-67 | When EventQueueChanged returns, whatever other threads did meanwhile, the level is as asked for, and if events are available everybody in the pool has been notified |
| KmsCalls.LevelIsLastSet | nvidia_gsp/nvidia-modeset/KmsDevice.cpp:60-67 | After any run the level is what the last thread to set it was asked for |
| KmsCalls.SelectCall | nvidia_gsp/nvidia-modeset/KmsDevice.cpp:90-103 | When Select returns its waiter is in the pool, and notified exactly if events are available |
| KmsCalls.PoolAfterCall | nvidia_gsp/nvidia-modeset/KmsDevice.cpp:90-115 | The exact effect of Select and Deselect on the pool, from the moment they have the mutex |
| KmsCalls.FailedSelect | nvidia_gsp/nvidia-modeset/KmsDevice.cpp:96 | Without memory for the entry nothing has changed |
| KmsCalls.DeselectCall | nvidia_gsp/nvidia-modeset/KmsDevice.cpp:105-115 | When Deselect returns its waiter is not in the pool |
| KmsCalls.CallEnds | nvidia_gsp/nvidia-modeset/KmsDevice.cpp:60-115 | Every call returns after at most three steps at which it does not wait for the mutex |
| Bars.WideIsSum | nvidia_gsp/nvidia/Device.cpp:92-93 | The two halves or-ed together are low + 2^32 high |
| Bars.EachSlotOnce | nvidia_gsp/nvidia/Device.cpp:87-94 | When nothing is read out of range, every slot is consumed exactly once, in order |
| Bars.StartIff | nvidia_gsp/nvidia/Device.cpp:85-94 | A slot is the start of a BAR exactly when the unbroken run of marked slots before it has even length |
| Bars.FoundAtStart | nvidia_gsp/nvidia/Device.cpp:85-102 | Every BAR found has the offset 0x10 + 4 * slot and the address and size of its registers: low + 2^32 high exactly when bits 2..1 of the flags are 10, the one register otherwise |
| Bars.StartsAscend | nvidia_gsp/nvidia/Device.cpp:85-94 | BARs are found in the order of their registers |
| Bars.NonZeroIff | nvidia_gsp/nvidia/Device.cpp:97 | Of the BARs found those of non-zero size are kept, each as often as it was there |
| Bars.NonZeroAscends | nvidia_gsp/nvidia/Device.cpp:97-102 | They stay in order |
| Bars.ReadsPastIff | nvidia_gsp/nvidia/Device.cpp:91-93 | A register behind the last is read if and only if the unbroken run of 64-bit-marked slots at the end has odd length |
| Bars.LastMarkReadsPast | nvidia_gsp/nvidia/Device.cpp:90-93 | With only the last of six slots marked a register behind the last is read |
| Bars.ReadBar | nvidia_gsp/nvidia/Device.cpp:87-94 | The head of the loop body yields the BAR the decoder finds at this slot and moves behind it |
| Bars.Compact | nvidia_gsp/nvidia/Device.cpp:85-108 | The loop leaves in the table the first non-zero BARs of the recursive decoder, in order, as many as fit, and the rest of the table as it was; or stops where it would read out of range |
| Bars.CompactOnlyLastMarked | nvidia_gsp/nvidia/Device.cpp:85-108 | On such slots the loop stops where it would read out of range, whatever else they hold |
| MappingContexts.WriteOnce | nvidia_gsp/nvidia/os-haiku.cpp:583-589 | A valid context is changed by no later request |
| MappingContexts.StatusIff | nvidia_gsp/nvidia/os-haiku.cpp:573-636 | Which status each request gets, in terms of the descriptor, the handle and the device; an accepted one records exactly its data, others leave the context as valid or invalid as it was |
| MappingContexts.FirstAcceptedDecides | nvidia_gsp/nvidia/os-haiku.cpp:567-636 | After any requests the context is that of the first acceptable one, or not valid when there is none |
| MappingContexts.ControlMapIff | nvidia_gsp/nvidia/BaseDevice.cpp:151-167 | On a control handle mapping goes ahead if and only if some request was accepted, and clones exactly the allocation and page that the first accepted one named for the control device |
| MappingContexts.GpuMapIff | nvidia_gsp/nvidia/BaseDevice.cpp:168-201 | On a GPU handle mapping goes ahead with a list if and only if the first accepted request was for this GPU with that list, non-empty and within 32 bits |
| MappingContexts.NoListLost | nvidia_gsp/nvidia/BaseDevice.cpp:68-78 | After any run the destructor leaves no range list on the heap |
| MappingContexts.NvHaikuBaseDeviceHandle.AddMappingContext | nvidia_gsp/nvidia/os-haiku.cpp:567-636 | The stepwise method, clearing before it checks, equals the transition, and the handle stays the outcome of all requests made on it |
| MappingContexts.NvHaikuBaseDeviceHandle.MapContext | nvidia_gsp/nvidia/BaseDevice.cpp:144-201 | What NV_HAIKU_MAP maps is what the first accepted of all requests ever made on this handle named: its allocation and page on a control handle; its ranges on a GPU handle, if that request was for this GPU and they are neither empty nor more than 32 bits count; otherwise nothing |

## Left out

Weaker than a reader might expect:

- IntrSafePools.IntrSafePool.Alloc: says that the call never returns for sizes above 2^63; `PoolSteps` leaves such a request holding the lock without a further step.
- IntrSafePools.Group.ReclaimAll: run by one caller, so the window around `free` is not in this contract; it is in `PoolSteps`.
- IntrSafePools.IntrSafePool.ReclaimAll: the same.
- IntrSafePools.IntrSafePool.FillGroup: the same, for the window around `calloc`.
- PoolPanics.NoUnderflow: one way only, since blocks refilled during the run may serve more; without refills `ScriptUnderflowsIff` and `BudgetIsTight` give the other half. Requests above 2^63 are never served and not counted.
- IntrSafePools.IntrSafePool.Maintain: run by one caller, so the lock is not dropped; what others do in the windows is in `PoolSteps`.
- PoolConservation.EveryBlockInOnePlace: a block is one allocation, not an address; the heap may use an address again after a free. A client that frees what it does not hold is not modelled.
- PoolDiscipline.MaintainAloneCompletes: the others stand still; what it costs when they do not is `PoolProgress.MaintainEnds`, and then the groups need not be full at its return.
- PoolProgress.MaintainEnds: counts the steps at which Maintain does not wait; that a spinning agent gets the lock in the end is not claimed.
- Ownership.ModeSetDividesIff: the run goes on after a division by zero as after an exception, although the process may be gone.
- ModeGroups.RateOrder: asks for non-zero totals, without which the comparison divides by zero.
- OwnershipRuns.OwnershipOverRuns: releases succeed, handles and addresses are new at each allocation, nothing is moved onto itself, and teardown of the accelerant is not part of the runs.
- RefTimers.CallbackIff: whether the owner is still alive when the callback runs is not claimed; `DoDPC` reads the pointer before it takes the nvkms lock.
- RefTimers.CountIsExact: the count is unbounded; wrap-around of the 32-bit count by 2^32 references is not modelled. Timers are created while the owner has not begun to release.
- Timings.RecomputedRate: field widths of `NvModeTimings` and the flag values come from headers that are not part of this model, and are stated in the file.
- Timings.HaikuRoundTripIff: asks for non-zero totals, since the conversion divides by them.
- ModeGroups.BuildGroups: the comparisons a map makes are those with the first entry of a bucket or more; that entry decides, as a mode without a rate stands alone. Printing the rates of the finished groups, which divides again, is not modelled.
- Bars.Compact: the length of the table is a parameter, because NV_GPU_NUM_BARS is defined in a header that is not part of this model; so is the number of slots, six in the source.
- MappingContexts.GpuMapIff: says what is mapped, not whether the area call itself succeeds; access ranges and cache types are left out.

Not modelled:

- After a panic the pool machine makes no step; what the kernel debugger allows after it is not modelled.
- The mutual exclusion of OS spinlocks themselves; their effect on the interrupt flag is modelled.
- Each locked section without a drop of the lock is one step, as the lock makes it.
- The move constructor of `NvKmsBitmap`, whose effect is that of a move assignment onto a new object.
- File descriptors, the contents of ioctl parameters, EDID and name queries, DPMS, mode validation: each kernel call succeeds or fails by choice.
- `GetPixelClockLimits`: it tests the interlace bit on `v_display` instead of the flags, so its intended meaning is not what it computes.
- The pixel bytes of framebuffers; those of the cursor are in `CursorImages`, apart from the class that owns the bitmap.
- `nvkms_timer_t::Free` and plain timers: they depend on `cancel_timer` and DPC cancellation of the kernel.
- Timer allocation is compiled out by `NV_TIMER_QUEUE_ENABLED` 0 in nvkms-haiku.cpp; the model is of the code as it would be enabled.
- Events with data, which are still to be written in the source; memory management inside the select pools.
- `DeviceNamesArray::Delete`, and failure to allocate the array itself, which ends `Init`.
- Menus, messages and windows of the test applications; firmware, ACPI, I2C, PCI configuration access and the stubs.
