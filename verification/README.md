# Alioth in Dafny

A model of the parts of the Alioth virtual machine monitor whose correctness does not show in any one function, and
proofs of what they promise over every run, every input or every address:

- **Virtqueues.** The device side of split and packed rings, as a machine over ring memory that interleaves with a
  conforming driver (`Rings`, `QueueMachine`), simulated by a protocol over unbounded counters (`QueueSpec`,
  `QueueTheorems`, `QueueSimulation`). `QueueResults` holds the theorems, `QueueShortfalls` the states in which the device
  does less than one might expect, `QueueEngine` the code with its loops, `IndirectTables` and `ChainBuffers` the way
  from a chain's descriptors to host memory.
- **Guest memory.** The slot vector (`SlotIndex`, `Addressable`), RAM across slots (`FlatRam`, `Ram`), regions and buses
  (`MemoryMap`, `Memory`), private marking (`PrivateMemory`, `PrivateLaps`, `PrivateTheorems`).
- **PCI.** Base address registers and the layout callbacks (`PciBars`, `PciBarTheorems`, `PciBarRuns`,
  `PciEffects`, `PciHeader`, `PciSizing`, `PciShortfalls`, `PciExposure`), the boot-time allocator (`Powers`,
  `PciWindows`, `PciNumbers`, `PciSegment`, `PciAllocation`), MSI (`Msi`, `MsiHistory`).
- **The VCPU barrier** (`Board`, `BoardTheorems`).
- **Firmware tables.** The device tree writer and an independent reader (`DeviceTree*`), ACPI tables relocated directly and
  by a loader script (`Acpi*`).

Concurrency is a state machine whose steps are the accesses to shared memory or the stretches between two acquisitions of a
lock, under sequential consistency. Objects that the program updates in place are classes; each method is proved against a
function of the old state, and the theorems are about those functions. Integer widths and wrap-around are written out where
they matter: 16-bit ring indices and 64-bit addresses as numbers with explicit reduction, registers as bit vectors.

64-bit sums wrap, as in a release build; where a debug build would panic on the overflow instead, the condition that
excludes the wrap excludes the panic too.

Where a promise fails, the code is left as it is, a lemma gives an input, and another says exactly when the promise holds:

- A deferred callback that fails loses its chain; conservation holds if and only if none does
  (`QueueShortfalls.FailedDeferredLosesChain`, `QueueResults.ConservationExact`).
- A callback that breaks off leaves work with no kick coming; with no kick coming a chain is left over if and only if the
  last `handle_desc` broke off (`QueueShortfalls.BreakLeavesWork`, `QueueResults.LeftOverIff`).
- A chain that cannot be read drops an interrupt that is owed, and nothing else does
  (`QueueShortfalls.UnreadableChainDropsInterrupt`, `QueueResults.CallInterrupts`).
- `mark_private_memory` marks nothing when no region starts at or below the request, loses memory in a region with two paged
  ranges, misses RAM that ends at 2^64, and may go round for ever when a region ends at 2^64
  (`PrivateTheorems.TopDeviceLoops`). `PrivateTheorems.MarkingExact` says for every request whether it is marked exactly,
  given at most one paged range per region. `PrivateTheorems.MarkingExactAlways` and `PrivateTheorems.TopExactAlways` say for
  which region lists all requests are, save lists whose last region ends at 2^64 and itself has two paged ranges.
- An I/O register of four bytes can be taken for a 64-bit memory register; its callback then clears part of the register
  after it (`PciShortfalls.NarrowPortBreaksAgreement`). Regions follow registers in every error-free run if and only if no
  such register comes before one with address bits (`PciExposure.BarsAgreeIff`); in the last place, and only there,
  some run makes the program panic instead (`PciExposure.LastPortPanics`). The boot-time allocator passes over the register
  after it (`PciAllocation.PortHidesNext`, `PciAllocation.VisitsAllIff`).
- A region of more than 2^63 bytes gets the smallest BAR there is, and one of more than 2^31 bytes behind a 32-bit or I/O
  register gets a mask of zero and is not decoded at all (`PciSizing.FourGiBDecodesNothing`). What a guest reads back from
  the registers of a new header covers the region if and only if that has at most 2^63 bytes behind a 64-bit register and
  at most 2^31 behind any other (`PciSizing.CoversIff`).
- `assign_resources` leaves the upper half of a 64-bit register alone when the address is below 4 GiB, so the register reads
  back its address if and only if that half was zero (`PciAllocation.OldUpperHalfStays`,
  `PciAllocation.AssignmentReadsBack`).
- In a window close to 2^64 alignment or the end of a BAR wraps and the BAR lands outside the window
  (`PciWindows.TopPlacedOutside`, `PciWindows.WrapPlacesBelow`); all lists of up to n BARs of up to 2^k bytes are placed
  safely if and only if the window keeps a distance from 2^64 or n such BARs do not reach it (`PciWindows.PlacesSafelyIff`).
- RAM slots that share host memory see each other's writes; every write shows exactly where it should if and only if none do
  (`FlatRam.AliasShows`, `FlatRam.FlatIff`).
- `resume` wakes VCPUs out of a barrier (`BoardTheorems.ResumeBreaksBarrier`, `BoardTheorems.PausedInBarrier`). That does no
  harm if the late VCPUs happen to enter before a woken one acts, so what a run needs is said of every way its VCPUs may go
  on: they stay together whatever the schedule if and only if no `resume` of the run finds one waiting in a barrier
  (`BoardTheorems.BarrierIff`).
- A reservation of address and size zero ends the list a reader sees (`DeviceTreeTheorems.ZerosHideReservation`,
  `DeviceTreeTheorems.ReservedBack`).

`dafny verify dfyconfig.toml` checks the project.

## Model

| member | source | states |
|---|---|---|
| `RingIndex.AddRefines` | alioth/src/virtio/queue/packed.rs:46-56 | adding to a wrapped index is adding to an unbounded position, across every wrap |
| `RingIndex.SubRefines` | alioth/src/virtio/queue/packed.rs:58-70 | subtracting undoes the addition, across every wrap |
| `RingIndex.AtDistinct` | alioth/src/virtio/queue/packed.rs:43-56 | offset and wrap counter tell positions apart that are less than two laps apart |
| `RingIndex.MaskRefines` | alioth/src/virtio/queue/split.rs:174-175 | masking the 16-bit index of a power-of-two ring finds the slot of the unbounded counter |
| `Rings.SplitAvailExact` | alioth/src/virtio/queue/split.rs:163-166 | the 16-bit comparison holds exactly when the unbounded counters differ, for counters at most a ring apart |
| `Rings.IndexAddRefines` | alioth/src/virtio/queue/packed.rs:216-218 | `index_add` of either ring refines the unbounded counter |
| `Rings.PackedIrqExact` | alioth/src/virtio/queue/packed.rs:200-214 | the packed offset test holds exactly when some returned position has the driver's event index |
| `Rings.SplitIrqExact` | alioth/src/virtio/queue/split.rs:249-254 | with an event index, a split ring asks for an interrupt exactly if that is the position just returned |
| `Rings.IrqExact` | alioth/src/virtio/queue/split.rs:249-254 | `interrupt_enabled` asks exactly whether the driver's setting names a position just returned, in all four modes |
| `Rings.EventNumbers` | alioth/src/virtio/queue/packed.rs:190-198 | the device writes 0 to ask for notifications and 1 for none, and nothing else in the ring; 0, 1 and 2 in the driver's area ask for every interrupt, none, and one at an index |
| `QueueTheorems.InvKept` | alioth/src/virtio/queue/queue.rs:111-175 | every step of driver and device keeps the protocol invariant: ledger of chains, distinct ids, slot balance, kick and interrupt bookkeeping |
| `QueueTheorems.ArmedNeedsKick` | alioth/src/virtio/queue/split.rs:227-247 | with the event index at a position, publishing past that position makes the driver kick |
| `QueueTheorems.Order` | alioth/src/virtio/queue/queue.rs:111-114 | the positions read back, returned, taken and published follow one another within one ring |
| `QueueRefinement.BootedRel` | alioth/src/virtio/queue/queue.rs:96-105 | a freshly enabled queue starts in step with the protocol |
| `QueueSimulation.AvailTruth` | alioth/src/virtio/queue/packed.rs:133-138 | in related states `desc_avail` holds exactly when a chain is published and not taken |
| `QueueSimulation.FetchTruth` | alioth/src/virtio/queue/packed.rs:140-179 | in related states `get_avail` collects exactly that chain |
| `QueueSimulation.UsedTruth` | alioth/src/virtio/queue/packed.rs:181-188 | the driver sees a returned chain exactly when there is one it has not read, and reads its id and length |
| `QueueSimulation.Simulation` | alioth/src/virtio/queue/queue.rs:111-175 | every memory step of driver and device, in either ring, is the protocol step with the same label |
| `QueueResults.Tracks` | alioth/src/virtio/queue/queue.rs:96-175 | memory and protocol agree after every run from a freshly enabled queue |
| `QueueResults.RingTruth` | alioth/src/virtio/queue/packed.rs:114-179 | in every run the device sees a chain exactly when one is published past its index, and collects that chain's id, slots and buffers |
| `QueueResults.DriverTruth` | alioth/src/virtio/queue/packed.rs:119-125 | in every run the driver reads back the returned chains with the lengths the callbacks gave, each once, in order of return, and never an id not in flight |
| `QueueResults.NoLostKick` | alioth/src/virtio/queue/queue.rs:144-172 | after `handle_desc` returned from the top of its loop, a chain still published has a kick pending, due, or certain from the driver's outstanding check |
| `QueueResults.LeftOverIff` | alioth/src/virtio/queue/queue.rs:144-172 | between calls with no kick pending, due or certain, a chain is left over if and only if the last `handle_desc` broke off: on an unreadable chain, or on its callback's Break or error |
| `QueueResults.Conservation` | alioth/src/virtio/queue/queue.rs:111-133 | between calls the slots taken and not returned are those of deferred and of lost chains; the deferred map holds exactly the deferred chains |
| `QueueResults.LostIff` | alioth/src/virtio/queue/queue.rs:123-126 | a chain is lost in a run if and only if a deferred callback failed in it |
| `QueueResults.ConservationExact` | alioth/src/virtio/queue/queue.rs:116-133 | the slots taken and not returned are those of deferred chains if and only if no deferred callback failed |
| `QueueResults.UsedWritesOwnSlots` | alioth/src/virtio/queue/packed.rs:181-188 | `set_used` writes only positions that were taken and not returned, never one the driver still owns |
| `QueueResults.InterruptExact` | alioth/src/virtio/queue/queue.rs:141-172 | at the end of a `handle_desc` with a steady event setting, one interrupt has been raised since its start if the setting names a position returned in it and it did not end on a `get_avail` error, and none otherwise |
| `QueueResults.CallInterrupts` | alioth/src/virtio/queue/queue.rs:141-172 | the same over a whole call within a run: an interrupt that is owed is dropped if and only if the call ends on a `get_avail` error |
| `QueueResults.ReadsAreStable` | alioth/src/virtio/queue/split.rs:168-217 | no driver step changes the chain the device is about to collect |
| `QueueShortfalls.BreakLeavesWork` | alioth/src/virtio/queue/queue.rs:156 | a run in which Break leaves a published chain with no kick coming |
| `QueueShortfalls.FailedDeferredLosesChain` | alioth/src/virtio/queue/queue.rs:123-126 | a run in which a failing deferred callback leaves a chain neither deferred nor returned |
| `QueueShortfalls.UnreadableChainDropsInterrupt` | alioth/src/virtio/queue/queue.rs:148 | a run in which an error from `get_avail` ends the call with an interrupt owed and not sent |
| `QueueEngine.Queue.PushUsed` | alioth/src/virtio/queue/queue.rs:111-114 | with the driver active between the two writes, the driver sees the chain's id and length at the old index, the chain is the next one returned, and the index moves on by its slots |
| `QueueEngine.Queue.NotifyOn` | alioth/src/virtio/queue/split.rs:227-247 | whatever the driver publishes meanwhile, the loop ends, with the event index equal to the available index |
| `QueueEngine.Queue.GetAvail` | alioth/src/virtio/queue/split.rs:168-217 | finds none exactly when nothing is published past the index; else ends the call exactly when a table entry of the chain cannot be read or a byte of its buffers is not mapped; else takes exactly the published chain, with the host address of every byte of its readable and of its writable buffers, in the driver's order |
| `QueueEngine.Queue.Drain` | alioth/src/virtio/queue/queue.rs:148-166 | the inner loop, with the driver active throughout and guest memory changing, is a run of the machine; it ends normally only at a moment with nothing left, on an unreadable chain only where one is, and terminates |
| `QueueEngine.Queue.HandleDesc` | alioth/src/virtio/queue/queue.rs:135-175 | with the driver active before every access, the call is a run of the machine; it ends normally if and only if it ended from the top of its loop, and then leaves a chain only if one was published meanwhile; with a steady setting it raises one interrupt exactly if one is owed and no chain was unreadable |
| `QueueEngine.Queue.HandleDeferred` | alioth/src/virtio/queue/queue.rs:116-133 | the call is a run of the machine; the chain leaves the deferred map; if its callback succeeds it is returned with that length and an interrupt is raised exactly if the setting names one of its positions, otherwise nothing is |
| `IndirectTables.ExpandReads` | alioth/src/virtio/queue/packed.rs:151-166 | a chain whose indirect descriptors were laid out by the driver expands to the driver's tables one after another, in order |
| `IndirectTables.SplitReads` | alioth/src/virtio/queue/split.rs:180-197 | an indirect table linked by index is read entry by entry |
| `IndirectTables.SideIsPicked` | alioth/src/virtio/queue/split.rs:187-202 | the buffers of one direction are all of them and no others, in the order of the chain |
| `ChainBuffers.DescLayout` | alioth/src/virtio/queue/split.rs:27-34 | at which bytes and bits the fields of a descriptor lie, in either layout |
| `ChainBuffers.DescBack` | alioth/src/virtio/queue/packed.rs:26-33 | the device reads back every descriptor of an indirect table that the driver writes, in either layout |
| `ChainBuffers.PackedFrom` | alioth/src/virtio/queue/packed.rs:151-161 | the loop over a packed table reads its descriptors from guest memory, and fails exactly when one is not mapped |
| `ChainBuffers.SplitFrom` | alioth/src/virtio/queue/split.rs:180-197 | the loop over a split table follows its links through guest memory, and fails exactly when the table cannot be read to its end |
| `ChainBuffers.Collect` | alioth/src/virtio/queue/split.rs:171-208 | the collecting loop yields exactly the readable and the writable buffers of the expansion, in order, and fails exactly when it does |
| `ChainBuffers.Translate` | alioth/src/virtio/queue/split.rs:171-216 | fails if and only if a table entry cannot be read or a byte of a buffer is not mapped, and else gives pieces that hold, byte by byte and in the driver's order, the host addresses behind the readable and the writable buffers |
| `SlotIndex.Position` | alioth/src/mem/addressable.rs:106 | the insertion point separates slots that start below from those that start at or above |
| `SlotIndex.InsertRefines` | alioth/src/mem/addressable.rs:104-130 | checking two neighbours refuses exactly the adds that overlap some slot; the vector stays sorted |
| `SlotIndex.DeleteRefines` | alioth/src/mem/addressable.rs:132-137 | removing takes exactly the slot that starts there, or reports it not mapped |
| `SlotIndex.SearchRefines` | alioth/src/mem/addressable.rs:139-152 | `search` finds the unique slot that holds the address |
| `SlotIndex.SearchNextRefines` | alioth/src/mem/addressable.rs:154-167 | `search_next` finds the holding slot or else the next above, and nothing below the first slot |
| `SlotIndex.RunRefines` | alioth/src/mem/addressable.rs:104-137 | after any adds and removes the vector is exactly the set of disjoint intervals, sorted |
| `SlotIndex.InsertStarts` | alioth/src/mem/addressable.rs:104-130 | an add succeeds only where no slot starts, and moves nothing else |
| `SlotIndex.DeleteStarts` | alioth/src/mem/addressable.rs:132-137 | a remove yields what starts there, and moves nothing else |
| `Addressable.Addressable.BinarySearch` | alioth/src/mem/addressable.rs:106 | binary search finds the insertion point and whether a slot starts there |
| `Addressable.Addressable.Add` | alioth/src/mem/addressable.rs:104-130 | adds or refuses as specified, with the same error |
| `Addressable.Addressable.Remove` | alioth/src/mem/addressable.rs:132-137 | removes or refuses as specified |
| `Addressable.Addressable.Find` | alioth/src/mem/addressable.rs:139-152 | the unique slot that holds the address |
| `Addressable.Addressable.FindNext` | alioth/src/mem/addressable.rs:154-167 | the holding or next slot |
| `FlatRam.PieceExact` | alioth/src/mem/mapped.rs:148-159 | a non-empty piece is a run of host addresses within one slot; it fails only where its first address is unmapped |
| `FlatRam.EmptyPiece` | alioth/src/mem/mapped.rs:148-159 | an empty piece exists exactly where a slot starts |
| `FlatRam.HostAtIs` | alioth/src/mem/mapped.rs:246-262 | byte k of a slot is byte k of its host pages, and there is nothing where no slot is |
| `FlatRam.Hosts` | alioth/src/mem/mapped.rs:193-213 | the host addresses behind a run of guest addresses up to the first hole |
| `FlatRam.HostsMapped` | alioth/src/mem/mapped.rs:254-259 | the run is whole exactly when every byte is mapped |
| `FlatRam.ScatterRun` | alioth/src/mem/mapped.rs:334-350 | storing byte by byte to a run of host addresses is one copy |
| `FlatRam.WriteIsFlat` | alioth/src/mem/mapped.rs:334-350 | a write changes exactly its own guest addresses, for slots that share no host memory |
| `FlatRam.ReadIsFlat` | alioth/src/mem/mapped.rs:309-323 | a read gives the bytes of the flat memory |
| `FlatRam.ReadAfterWrite` | alioth/src/mem/mapped.rs:309-350 | reading back a write across slots gives what was written |
| `FlatRam.AliasShows` | alioth/src/mem/mapped.rs:334-350 | two guest addresses behind one host byte see each other's writes |
| `FlatRam.FlatIff` | alioth/src/mem/mapped.rs:334-350 | every write to every memory shows exactly at its own guest addresses if and only if no two slots share host memory |
| `Ram.OutcomeExact` | alioth/src/mem/mapped.rs:309-350 | an access succeeds exactly when all its bytes are mapped, an empty one exactly where a slot starts |
| `Ram.Ram.Read` | alioth/src/mem/mapped.rs:309-323 | fast path and multi-slot path give the flat bytes; on an error the buffer holds those before the first hole and is otherwise unchanged |
| `Ram.Ram.ReadPieces` | alioth/src/mem/mapped.rs:313-321 | the multi-slot loop alone does the same |
| `Ram.Ram.Write` | alioth/src/mem/mapped.rs:334-350 | both paths store exactly the mapped prefix and report the first hole |
| `Ram.Ram.WritePieces` | alioth/src/mem/mapped.rs:340-349 | the multi-slot loop alone does the same |
| `Ram.Ram.Slices` | alioth/src/mem/mapped.rs:196-213 | the iterator's pieces concatenate to the host addresses of the run, none empty |
| `Ram.Ram.TranslateIov` | alioth/src/mem/mapped.rs:364-372 | all host addresses or the first hole: the host pieces one after another are, byte by byte, what is behind the guest pieces one after another |
| `MemoryMap.BusAgrees` | alioth/src/mem/mem.rs:347-385 | at every address a bus with the placed ranges finds exactly the range and start that the region list gives |
| `MemoryMap.RangeAtIs` | alioth/src/mem/mem.rs:279-313 | the ranges of a region lie one after another from its start, and an address in one of them is that byte of it |
| `MemoryMap.RamAgrees` | alioth/src/mem/mem.rs:364-371 | RAM accesses reach the host byte of the pages that the region list has there |
| `MemoryMap.PlacedSorted` | alioth/src/mem/mem.rs:204-215 | validated regions without empty ranges place their ranges in order and without overlap |
| `Memory.AddRange` | alioth/src/mem/mem.rs:354-376 | adding one range of an admitted region to its bus never overlaps |
| `Memory.RemoveRange` | alioth/src/mem/mem.rs:391-409 | removing one range of a listed region always finds it |
| `Memory.Memory.AddRegion` | alioth/src/mem/mem.rs:347-385 | an admitted region fails only on an empty range; otherwise the buses agree with the longer list |
| `Memory.Memory.UnmapRegion` | alioth/src/mem/mem.rs:387-422 | never fails; the buses keep exactly the other regions |
| `Memory.Memory.RemoveRegion` | alioth/src/mem/mem.rs:424-429 | fails only for an address where no region starts; otherwise the buses agree with the shorter list |
| `Memory.Memory.Clear` | alioth/src/mem/mem.rs:432-444 | never fails and leaves every list and bus empty |
| `Memory.Memory.AddIoRegion` | alioth/src/mem/mem.rs:472-490 | port list and port bus stay equal |
| `Memory.Memory.RemoveIoRegion` | alioth/src/mem/mem.rs:510-515 | port list and port bus stay equal |
| `Memory.Memory.Dispatch` | alioth/src/mem/mem.rs:583-593 | an access goes to the device and offset that the region list gives |
| `PrivateMemory.MarkPrivate` | alioth/src/mem/mem.rs:528-559 | the nested loops, followed for any number of turns, hand out the pieces that so many turns of the walk mark, in 64-bit sums, and stand where it stands |
| `PrivateLaps.OutcomeIs` | alioth/src/mem/mem.rs:533-557 | the loop ends if and only if its first lap or a second one from zero does not come back to zero, and then has marked what they mark |
| `PrivateTheorems.RoundExact` | alioth/src/mem/mem.rs:528-559 | a lap marks disjoint ascending pieces whose union is the RAM and device memory between its start and the end, but for a range that ends at 2^64 |
| `PrivateTheorems.BackIff` | alioth/src/mem/mem.rs:533-557 | a lap comes back to zero if and only if a region ends at 2^64, every other ends at or below the start or below the end, and no paged range of the last one stops it |
| `PrivateTheorems.MarkingExact` | alioth/src/mem/mem.rs:528-559 | with one paged range per region, any 64-bit request is marked exactly if and only if it holds no RAM or starts in reach, ends below 2^64 and meets no RAM that ends there, and any lap that comes back is followed by one that marks nothing and ends |
| `PrivateTheorems.OnePieceNeeded` | alioth/src/mem/mem.rs:536-552 | any region below 2^64 with two paged ranges has a request that is not marked exactly |
| `PrivateTheorems.MarkingExactAlways` | alioth/src/mem/mem.rs:528-559 | a region list that ends below 2^64 marks every reachable request exactly if and only if no region has two paged ranges |
| `PrivateTheorems.TopExactAlways` | alioth/src/mem/mem.rs:533-557 | a list whose last region ends at 2^64 and has at most one paged range does so if and only if no region has two, no RAM but a last byte ends at 2^64, and no region starts at zero, unless the last region is one byte, the one before it reaches it and there is no RAM below |
| `PrivateTheorems.TopDeviceLoops` | alioth/src/mem/mem.rs:533-557 | with RAM in the first page and a device in the last, marking the first two pages never ends |
| `PciBarTheorems.SpellsMapped` | alioth/src/pci/config.rs:389-399 | after the callback the registers spell the address of the region, for every address aligned to the BAR |
| `PciBarTheorems.SpelledAligned` | alioth/src/pci/config.rs:419-427 | the address that registers spell has no bit outside the BAR's mask |
| `PciBarTheorems.MappedOutside` | alioth/src/pci/config.rs:247-261 | `set_bar` and the callback keep the bits outside the mask |
| `PciBarTheorems.OthersStay` | alioth/src/pci/config.rs:389-399 | the callback of one region leaves the other registers alone, where no four-byte I/O register precedes address bits |
| `PciBarTheorems.MoveMem` | alioth/src/pci/config.rs:216-237 | moving a memory BAR keeps registers and region list in agreement |
| `PciBarRuns.WriteBarKeeps` | alioth/src/pci/config.rs:313-367 | every BAR write, to either half, keeps the agreement |
| `PciBarRuns.WriteCommandKeeps` | alioth/src/pci/config.rs:286-305 | every command write keeps the agreement, with all six registers updated in turn |
| `PciBarRuns.UpdateOneKeeps` | alioth/src/pci/config.rs:174-205 | one register's turn in the command callback takes the agreement one register further |
| `PciBarRuns.ResetKeeps` | alioth/src/pci/config.rs:488-492 | resetting all functions and then memory keeps the agreement |
| `PciBarRuns.BitsFixed` | alioth/src/pci/config.rs:247-261 | in every run the bits outside a BAR's mask never change |
| `PciBarRuns.BarsAgree` | alioth/src/pci/config.rs:173-399 | after every error-free run a BAR's region is mapped exactly while its decode bit is set, once, at the aligned address its registers spell |
| `PciEffects.BarsInPlace` | alioth/src/pci/config.rs:173-399 | the same in the bits of the registers: after every error-free run a region is mapped exactly while bit 1 (memory) or bit 0 (ports) of its command is set, once, at the address in bits 31 to 4 with the next register above it, or the port in bits 15 to 2 |
| `PciEffects.WriteBarEffect` | alioth/src/pci/config.rs:313-367 | what a BAR write does: bits in the mask are taken, all else stays; while the BAR decodes, its region leaves the old address and is at the one the registers then hold, a port cut to 16 bits; it fails exactly if that is taken or the callback panics |
| `PciEffects.WriteCommandEffect` | alioth/src/pci/config.rs:286-305 | what a command write does: bits 0 to 2, 6, 8 and 10 are taken and the others stay, registers stay but for ports that begin to decode, other owners' regions stay, and every BAR is in place under the new command; it cannot fail unless a decode bit is turned on |
| `PciExposure.BarsAgreeIff` | alioth/src/pci/config.rs:173-399 | that holds in every error-free run if and only if no function has a four-byte I/O register before a register with address bits |
| `PciExposure.ExposedBreaks` | alioth/src/pci/config.rs:389-399 | for any such function, the run that breaks it: reset, six BAR writes, a command write, and a move of the port |
| `PciExposure.LastPortPanics` | alioth/src/pci/config.rs:394-396 | some run leads to a write that moves a port and makes the callback index past the last register if and only if the port is in the last register and of four bytes; no callback of any other port ever would |
| `PciExposure.NewIsRoomy` | alioth/src/pci/config.rs:408-431 | headers for I/O regions of up to 4 KiB, 32-bit memory of up to 256 MiB and 64-bit memory of up to 2^60 bytes give every register a place of its own |
| `PciHeader.Exponent` | alioth/src/pci/config.rs:421 | the smallest power of two that holds the region, no less than the minimum |
| `PciHeader.NewMasks` | alioth/src/pci/config.rs:408-431 | the masks of all six registers, upper halves carried over, make a well-formed function |
| `PciHeader.NewIsSealed` | alioth/src/pci/config.rs:417-421 | a header is safe from its ports if and only if no four-byte I/O register comes before a register with a mask |
| `PciSizing.ProbeIsMask` | alioth/src/pci/config.rs:411-432 | writing ones to a register of a new header, and to the next one for a 64-bit one, reads back the mask of its size, cut to 32 bits where there is no upper half |
| `PciSizing.CoversIff` | alioth/src/pci/config.rs:411-432 | a new header decodes all of a region if and only if it has at most 2^63 bytes behind a 64-bit register and 2^31 behind any other, then less than twice the region or the least there is; above that nothing up to 2^63 bytes, and the least there is beyond |
| `PciSizing.FourGiBDecodesNothing` | alioth/src/pci/config.rs:423-427 | the header of a 32-bit register before 4 GiB: all six masks are zero and it decodes nothing |
| `PciHeader.Machine.BarMapped` | alioth/src/pci/config.rs:389-399 | both halves follow the region |
| `PciHeader.Machine.Move` | alioth/src/pci/config.rs:216-237 | the region is taken from one address and added at the other, or an error |
| `PciHeader.Machine.UpdateCommand` | alioth/src/pci/config.rs:173-205 | the loop over the registers does one turn after another and stops at the first error |
| `PciHeader.Machine.WriteBar` | alioth/src/pci/config.rs:313-367 | the write and its layout change, with exactly the effect and the failures above, keeping the agreement |
| `PciHeader.Machine.WriteCommand` | alioth/src/pci/config.rs:286-305 | the write and its layout change, with the effect above, keeping the agreement |
| `PciShortfalls.NarrowPortBreaksAgreement` | alioth/src/pci/config.rs:390-397 | two command writes after which a memory register no longer spells its region's address |
| `PciWindows.AlignUpExact` | alioth/src/utils/utils.rs:26-31 | without wrapping, the least multiple at or above the address |
| `PciWindows.PlaceSafe` | alioth/src/pci/segment.rs:163-181 | with room below 2^64, placed BARs are inside the window, naturally aligned, disjoint and in order |
| `PciWindows.PlaceGreedy` | alioth/src/pci/segment.rs:163-181 | each BAR in turn goes to the first multiple of its size after those placed before it, and is left out if and only if it would end past the window |
| `PciWindows.PlacedOrder` | alioth/src/pci/segment.rs:160-162 | of BARs so placed the larger lie lower, equal ones by function and then by register |
| `PciWindows.PlacesSafelyIff` | alioth/src/pci/segment.rs:168-180 | every ordered list of up to n BARs of up to 2^k bytes is placed so if and only if the window ends below the last block of that size and starts at or below the last but one, or n such blocks from its aligned start end below 2^64; n is any number of registers a segment can have |
| `PciWindows.TopPlacedOutside` | alioth/src/pci/segment.rs:169-175 | two 4 KiB BARs, of which the second is placed above its window since its end wraps to zero |
| `PciWindows.PlaceComplete` | alioth/src/pci/segment.rs:160-181 | from a start aligned to the largest BAR, sizes that fit in sum are all placed, without padding |
| `PciWindows.PlacesAllIff` | alioth/src/pci/segment.rs:163-181 | from such a start, all are placed if and only if the sizes sum to at most the window |
| `PciWindows.WrapPlacesBelow` | alioth/src/pci/segment.rs:168-169 | a window inside the last page, in which a 4 KiB BAR is placed at zero |
| `PciWindows.OrderUnique` | alioth/src/pci/segment.rs:160-162 | a set of registers has one sorted order |
| `PciNumbers.AlignedCovered` | alioth/src/pci/segment.rs:168-178 | an address aligned to a BAR's size has both halves within the BAR's masks |
| `PciNumbers.HalvesExact` | alioth/src/pci/segment.rs:174-178 | the halves of an address written to two registers hold its binary digits |
| `PciNumbers.MaskGivesSize` | alioth/src/pci/segment.rs:137-157 | trailing zeros of a mask give the size it was built for |
| `PciSegment.ListsUnique` | alioth/src/pci/segment.rs:129-162 | lists and placements follow from the functions alone, whatever the order of the device map |
| `PciSegment.EntriesTyped` | alioth/src/pci/segment.rs:132-158 | a function's list for a window holds exactly the registers looked at, with a mask and with the type bits of that window: bit 0 set; bits 0, 2, 3 clear; bit 3 alone; bits 2 and 3 |
| `PciSegment.PciSegment.Collect` | alioth/src/pci/segment.rs:127-159 | visiting functions in any order lists exactly the registers for each window, each once, on the list that its type bits name; panics exactly if it comes to a register that it refuses |
| `PciSegment.PciSegment.CollectFrom` | alioth/src/pci/segment.rs:132-158 | one function's registers, upper halves passed over, each on the list that its type bits name; panics exactly on a last register that looks like a 64-bit one or a 64-bit memory register that wants an address and is not prefetchable |
| `PciSegment.PciSegment.PlaceAll` | alioth/src/pci/segment.rs:163-181 | the loop over one window, in 64-bit sums, writes exactly the placements; panics exactly if it gives the last register an address of at least 4 GiB |
| `PciSegment.PciSegment.AssignResources` | alioth/src/pci/segment.rs:126-182 | the registers afterwards are those written by placing the sorted lists, each register on the list of its type; panics exactly on a refused register, having written nothing, or where a last register would get an upper half |
| `PciAllocation.NewIsFitted` | alioth/src/pci/config.rs:408-431 | masks computed for regions are those of power-of-two sizes, where registers without an upper half have sizes below 2^32 |
| `PciAllocation.VisitsAllIff` | alioth/src/pci/segment.rs:132-145 | the allocator looks at every BAR of a function if and only if no I/O register that looks like a 64-bit one comes before another BAR |
| `PciAllocation.PortHidesNext` | alioth/src/pci/segment.rs:139-143 | a function whose memory register is passed over |
| `PciAllocation.PlacedByType` | alioth/src/pci/segment.rs:147-158 | every placement is in the window that the low bits of its register name: ports, 32-bit, 32-bit prefetchable, 64-bit prefetchable |
| `PciAllocation.PlacementsApart` | alioth/src/pci/segment.rs:126-182 | no two placements are of one register, and none overlap when the windows do not |
| `PciAllocation.FitIsWithin` | alioth/src/pci/segment.rs:175-178 | with 32-bit windows below 4 GiB no last register is given an upper half |
| `PciAllocation.AssignmentReadsBack` | alioth/src/pci/segment.rs:175-178 | type bits stay; ports read back their address; memory registers do if and only if they have no upper half, the address is at least 4 GiB, or the upper half was zero |
| `PciAllocation.OldUpperHalfStays` | alioth/src/pci/segment.rs:175-178 | a function and windows for which the placed 64-bit register keeps its old upper half and does not read back its address |
| `PciAllocation.AssignmentIsRun` | alioth/src/pci/segment.rs:163-181 | the writes of an assignment are steps of the machine whose runs keep the agreement |
| `Msi.NoRefreshNoChange` | alioth/src/pci/cap.rs:185-236 | a write that asks for no refresh changes neither which vectors are wanted nor their routes |
| `Msi.RoutesAgree` | alioth/src/pci/cap.rs:187-237 | after any writes and resets, a vector's descriptor is unmasked if and only if the vector is enabled, granted and not masked, and then carries the words of the address and data registers with its number |
| `MsiHistory.History` | alioth/src/pci/cap.rs:187-230 | after any writes and resets every register holds what was last written at its offset, and enabling, count and extension are those of the last control write that could set them |
| `MsiHistory.MessagesAsWritten` | alioth/src/pci/cap.rs:126-237 | what a descriptor tells in terms of what the guest last wrote at offsets 2, 4, 8, 0xC and 0x10 |
| `Msi.MsiCap.Update` | alioth/src/pci/cap.rs:126-166 | the loop leaves every descriptor as the registers say: the address words, the data cut to 16 bits unless extended, the vector's number or-ed in |
| `Msi.MsiCap.Write` | alioth/src/pci/cap.rs:185-236 | descriptors agree with the registers after every write, refreshed or not |
| `Msi.MsiCap.Reset` | alioth/src/pci/cap.rs:253-259 | all descriptors masked, agreement kept |
| `BoardTheorems.StepKeeps` | alioth/src/board/board.rs:406-453 | every step of a VCPU keeps the barrier's invariant |
| `BoardTheorems.RequestLeads` | alioth/src/board/board.rs:489-507 | which request leads to which state of the board and which next step, while it runs and after it has stopped |
| `BoardTheorems.ResetLeads` | alioth/src/board/board.rs:476-524 | after a reset a broken VCPU fails and the others go to the barrier; past it a board to reboot runs and loads again, and one to shut down lets its VCPUs go |
| `BoardTheorems.BarrierHolds` | alioth/src/board/board.rs:406-425 | over any number of VCPUs and reboots, none leaves its k-th barrier before all have entered theirs; until a failure the counter is the number blocked |
| `BoardTheorems.BootPhases` | alioth/src/board/board_x86_64/board_x86_64.rs:219-237 | an AP initialises after the payload is loaded, finalising follows every AP, and no VCPU runs the guest before all have booted |
| `BoardTheorems.EventsInOrder` | alioth/src/board/board.rs:435-453 | whatever stretch of work begins, all VCPUs have ended the one before |
| `BoardTheorems.FailureReleases` | alioth/src/board/board.rs:538-554 | once `fatal` is set nobody is blocked in a barrier, and later arrivals get PeerFailure; in every run, pauses included |
| `BoardTheorems.ResumeBreaksBarrier` | alioth/src/board/board.rs:287-300 | a resume that finds a VCPU in a barrier wakes it, and if it acts first it leaves before all have entered |
| `BoardTheorems.BarrierIff` | alioth/src/board/board.rs:287-300 | for every run of a new board: at no point can the VCPUs, however scheduled from there, leave a barrier before all have entered, if and only if no resume of the run finds one waiting in a barrier |
| `BoardTheorems.PausedInBarrier` | alioth/src/board/board.rs:302-315 | such a state is reachable |
| `DeviceTree.SizeIsLength` | alioth/src/firmware/dt/dt.rs:35-53 | the length written ahead of a value is the length of its bytes |
| `DeviceTreeValues.ValueSpells` | alioth/src/firmware/dt/dtb.rs:49-80 | every kind of value reads back from its bytes: words and pairs of words by index, strings with their NULs in order, bytes as themselves |
| `DeviceTreeTheorems.NodeReads` | alioth/src/firmware/dt/dtb.rs:147-165 | a written node reads back with its name, its properties with their values and its children, in order, all the way down |
| `DeviceTreeTheorems.RoundTrip` | alioth/src/firmware/dt/dtb.rs:168-207 | a reader of the specification recovers every node, property and value, and the boot CPU, from the blob, and the reservations up to the first pair of zeros |
| `DeviceTreeTheorems.ReservedBack` | alioth/src/firmware/dt/dtb.rs:171-179 | all reservations come back if and only if none is a pair of zeros |
| `DeviceTreeTheorems.ZerosHideReservation` | alioth/src/firmware/dt/dtb.rs:171-179 | a list of two of which the reader sees none |
| `DeviceTreeTheorems.NameFound` | alioth/src/firmware/dt/dtb.rs:125-134 | a name is found at its deduplicated offset |
| `DeviceTreeWriter.Writer.PushStringAlign` | alioth/src/firmware/dt/dtb.rs:34-40 | appends the string, its NUL and padding to four bytes |
| `DeviceTreeWriter.Writer.PadData` | alioth/src/firmware/dt/dtb.rs:42-47 | pads from an aligned start |
| `DeviceTreeWriter.Writer.AddName` | alioth/src/firmware/dt/dtb.rs:125-134 | enters a name once and gives its offset |
| `DeviceTreeWriter.Writer.WriteValue` | alioth/src/firmware/dt/dtb.rs:50-80 | appends the padded bytes of each kind of value, which read back as that value |
| `DeviceTreeWriter.Writer.WriteNode` | alioth/src/firmware/dt/dtb.rs:148-165 | appends the node's tokens and enters its names |
| `DeviceTreeWriter.Writer.WriteBlock` | alioth/src/firmware/dt/dtb.rs:136-144 | writes the names in order of their offsets |
| `DeviceTreeWriter.Writer.ToBlob` | alioth/src/firmware/dt/dtb.rs:168-207 | the whole blob, header last |
| `AcpiTheorems.RelocateTwice` | alioth/src/firmware/acpi/acpi.rs:209-218 | relocating twice is relocating to the second address |
| `AcpiLayout.RelocateBytes` | alioth/src/firmware/acpi/acpi.rs:209-218 | the address at byte 24 of the root pointer becomes the new one, every listed pointer grows by the difference, and no other byte changes |
| `AcpiTheorems.TablesSumToZero` | alioth/src/firmware/acpi/acpi.rs:226-230 | every listed range sums to zero after `update_checksums` |
| `AcpiTheorems.RsdpSumsToZero` | alioth/src/firmware/acpi/acpi.rs:221-224 | both ranges of the root pointer sum to zero, section 5.2.5.3 of ACPI 6.4 |
| `AcpiLayout.ChecksumBytes` | alioth/src/firmware/acpi/acpi.rs:220-231 | every listed table sums to zero and only its byte 9 changes; the first 20 and all 36 bytes of the root pointer do, and only bytes 8 and 32 change |
| `AcpiTheorems.FixAfterClear` | alioth/src/firmware/acpi/acpi.rs:233-240 | clearing checksums first does not change what updating them gives |
| `AcpiLoaderTheorems.DecodeEncode` | alioth/src/device/fw_cfg/acpi.rs:34-64 | firmware reads back every command from its 128-byte record |
| `AcpiLayout.RecordBytes` | alioth/src/device/fw_cfg/acpi.rs:23-66 | where the fields of each 128-byte record lie, and its command number |
| `AcpiLayout.ScriptZones` | alioth/src/device/fw_cfg/acpi.rs:90-108 | the root pointer goes to zone 2 and the tables to zone 1, both aligned to four |
| `AcpiLoaderTheorems.LoaderAgrees` | alioth/src/device/fw_cfg/acpi.rs:88-160 | for every address firmware may choose, running the script gives byte for byte what relocating there and updating checksums gives |
| `AcpiWriter.WrappingSum` | alioth/src/utils/utils.rs:64-69 | the sum modulo 256 |
| `AcpiWriter.AcpiTables.Relocate` | alioth/src/firmware/acpi/acpi.rs:209-218 | every pointer field and the root pointer follow |
| `AcpiWriter.AcpiTables.UpdateChecksums` | alioth/src/firmware/acpi/acpi.rs:220-231 | every checksum byte lowered by its range's sum, in order |
| `AcpiWriter.AcpiTables.ClearChecksums` | alioth/src/firmware/acpi/acpi.rs:233-240 | every checksum byte zero |
| `AcpiWriter.AcpiTables.CreateLoader` | alioth/src/device/fw_cfg/acpi.rs:88-160 | the script and the two files handed to firmware |

## Left out

- Weak memory: fences are taken to give sequential consistency.
- Virtqueue set-up from registers, notifiers, and what devices do with a chain: callbacks are arbitrary answers.
- QueueEngine.Queue.HandleDesc: for a driver that publishes finitely many chains during the call; with an endless supply the program need not return.
- QueueResults.InterruptExact: for calls during which the driver leaves its event setting alone, since the setting is read once per chain.
- IndirectTables.SplitReads: a table whose links form a cycle makes the program loop for ever; the model stops after 65536 entries.
- ChainBuffers.Translate: an entry of a split table that is itself indirect makes the program panic, and counts as one that cannot be read; so do tables and buffers that go beyond 2^64, where the program's additions overflow.
- Memory: the calls to the hypervisor, the layout callbacks and the region callbacks other than a BAR's are taken to succeed and are not recorded; after an error nothing is promised.
- Memory.Memory.AddRegion: sums of sizes are unbounded numbers; the program's overflow of a region larger than 2^64 bytes is not modelled.
- Ram.Ram.Read: for accesses that end at or below 2^64; beyond it the program's 64-bit additions overflow, and a debug build panics at 2^64 itself.
- PrivateTheorems.MarkingExact: host mappings are not empty, since mmap makes none of length zero; regions with two paged ranges are the subject of OnePieceNeeded.
- PrivateTheorems.TopExactAlways: not for a last region that ends at 2^64 and has two paged ranges; what its walk marks depends on how their sizes and the gap between them compare, since the program does not advance past a range it has marked.
- PciBarRuns.BarsAgree: the region list is abstracted to what starts where; overlap only makes the list refuse, which ends a run. A panic ends a run as an error does.
- PciExposure.LastPortPanics: for registers small enough to be mapped side by side, as in BarsAgreeIff.
- PciExposure.BarsAgreeIff: for registers small enough to be mapped side by side; larger ones may leave no address for each other, so that no run maps them at all. The run that breaks agreement puts every region in a block of its own, so nothing in it overlaps.
- PciBars: the status register, the expansion ROM and MSI-X are not modelled; the 32-bit value of a BAR write is given, not cut out of a wider one.
- PciSegment.PciSegment.AssignResources: a panic while placing leaves the registers written so far; the contract does not say which.
- AcpiLoaderTheorems.LoaderAgrees: for offsets that fit the script's 32-bit fields, which the program cuts without a check.
- BoardTheorems.BarrierHolds: condition variables do not wake spuriously, and the request to stop other VCPUs succeeds.
- DeviceTreeTheorems.RoundTrip: names are free of NULs and the blob is smaller than 2^32 bytes; properties come in the order the program's map yields them.
- CPU topology, ACPI table contents, kernel loaders, qcow2, the remaining devices and the hypervisor back ends: each would add only easy members or foreign calls.
