# Verified model of the Darwin host's compatibility layer

The Darwin host runs Android ART on macOS by putting a compatibility layer between Android's binaries and the
system. This project models the parts of that layer whose correctness is hardest to see from the code, in Dafny,
and proves what they are for. `dafny verify dfyconfig.toml` checks all of it.

- **JNI thunks** (`arm64`, `jni_abi`, `shorty_plan`, `thunk*`, `trampoline_*`, `descriptor`). A small compiler from
  JNI shorties to ARM64 machine code. `Arm64` decodes the emitted words and gives them a step semantics over
  registers, stack pointer and byte memory; `JniAbi` states the two calling conventions on their own. The main
  theorem runs the emitted bytes: any Darwin call of a signature reaches the target as the AAPCS64 call of the same
  arguments, and the caller gets the target's result and its own state back. It is carried to every address that
  `CreateTrampolines` hands out and to the process-wide entry registry.
- **ELF images** (`publication_plan`, `elf_headers`, `image_registry`). The depth-first publication plan that
  tolerates cycles, the page span parsed from program headers, and one registry shared by any number of owners.
- **SurfaceTexture** (`surface_texture*`). The producer/consumer buffer protocol as interleaved steps of any number of
  threads under two mutexes, with frames, fences and buffer references as tokens that are conserved.
- **Binder** (`binder_*`). Handle translation between two processes, reply matching, framing on a fragmenting stream,
  and the Parcel.
- **WebM and H.264** (`ebml`, `webm*`, `annexb`). The EBML reader against a byte-free meaning of WebM trees, and the
  rewrite from start codes to length prefixes.
- **Vsync and the JIT table** (`vsync`, `jit_*`). Two small concurrent protocols, every step interleaved.

Conventions. Byte strings are sequences of integers below 256. Machine integers are unbounded integers with the width
written out wherever the source relies on it (32-bit targets and sequence numbers, 64-bit addresses and deadlines,
saturating ends; signed overflow in WebM timestamps, undefined in C++, wraps). A 32-bit entry mask is the set of its
bits, so OR is union. Instruction encoders are sums of fields; `ThunkEncoding.OrIsSum` shows on 32-bit words that for
disjoint fields this is the OR the source computes. Rounding with a power-of-two mask is modelled by remainders. Code
is mapped apart from the data memory that thunks write. Sections under a mutex are single steps. System calls, clocks,
allocation results, JVM references and the callees of a thunk are parameters or choices of the environment.

Findings, where the code does less than one would expect. Each has a concrete witness and the exact condition.

- A Binder proxy sent back over its own connection goes home only for targets below 2^31; from there on the signed
  Java field makes it stale and the export fails (`BinderChannel.HomeFails`, `BinderChannel.HomeIff`).
- Serving an object that was already exported gives it a second target: a run of three moves shows it, and in every
  run the targets of an end are unique exactly when no such serve happened since it was opened
  (`BinderChannel.ServedTwice`, `BinderChannel.UniqueIff`).
- The target counter wraps at 32 bits without skipping targets in use; a new object then goes out under another's
  handle, exactly when the counter stands at a taken target (`BinderHandles.WrapMisnames`, `BinderHandles.NamesIff`).
- The side that serves may send requests before it hears the peer's ready message, since sending its own sets the
  same flag (`BinderReplies.ServingSendsFirst`, `BinderReplies.SendsIff`).
- A message header that arrives in two reads makes the receive fail, for every message, though a loop that continues
  short reads would get all of it; the header gets through exactly when it is not split
  (`BinderWire.SplitHeaderRefused`, `BinderWire.HeaderIff`).
- Rolling back a publication steps back once in the planned order whatever was finalized in between: publish two
  images, finalize the second, roll back the first, and the order stands at the second again. The owner is where it
  was before the withdrawn publication exactly when nothing was finalized since, as with its callers
  (`ImageRegistry.RollbackSkips`, `ImageRegistry.RestoresIff`, `ImageRegistry.Owner.PublishOrUndo`).
- A WebM timestamp is computed from a signed 64-bit product in nanoseconds without a bound on the cluster time; it is
  right exactly when the product fits; the frame of a legal file at cluster time 2^62 comes out at time 0
  (`WebmTree.TimestampsIff`, `WebmTree.TimestampWraps`).
- A lookup of JIT code can return a mix of two registrations. A second registration of a code stores its end before
  its method, so a reader in between sees the new end with the old method; and a registration of code 1, the
  publishing marker, writes its end and method over entries being published. Every lookup returns one registration, in
  every run over a set of registrations, exactly when those of one code agree in end or in method and one of code 1
  agrees with the others (`JitRace.UpdateTears`, `JitRace.MarkerMixesEnd`, `JitRace.MarkerMixesMethod`,
  `JitRace.WholeIff`).
- Disposing a display event receiver on another thread than the looper's can close the pipe while a looper callback
  still reads it, since taking a descriptor off the looper does not wait for a running callback. It happens exactly
  when the pipe is closed while a callback drains it, and never when callbacks and disposal share a thread
  (`Vsync.CallbackOutlivesPipe`, `Vsync.ClosedReadIff`, `Vsync.SameThreadIsSafe`).

## Model

| member | source | states |
|---|---|---|
| ThunkTheorem.SemanticPreservation | darwin-art/compat/darwin_android_jni_trampoline.cc:456-562 | running the emitted bytes from any Darwin call of an accepted shorty calls push, target and pop once each, hands the target the same arguments in AAPCS64 places, with x0 the proxy for regular and lifecycle calls and the caller's x0 for critical ones, and returns its x0 and q0 with sp and callee-saved state restored |
| ThunkAnswers.CalleesPreserved | darwin-art/compat/darwin_android_jni_trampoline.cc:456-562 | the same with push, target and pop as any functions of the state they receive that keep AAPCS64's rules |
| ThunkAnswers.CalleesAnswer | darwin-art/compat/darwin_android_jni_trampoline.cc:494-530 | for any mapped code, any entry and any such callees, the answers of the one run meet what the theorem asks |
| TrampolineTheorem.RequestRuns | darwin-art/compat/darwin_android_jni_trampoline.cc:340-609 | the same for the address any request of a created set was given: the call reaches that request's own target, with the set's push, pop and proxy |
| TrampolineTheorem.CreatedIsSound | darwin-art/compat/darwin_android_jni_trampoline.cc:582-609 | every created set meets what publication in the registry relies on |
| ThunkTheorem.CallPreserved | darwin-art/compat/darwin_android_jni_trampoline.cc:462-516 | each argument, register or stacked, is where AAPCS64 wants it when the target is entered |
| ThunkTheorem.StackArgument | darwin-art/compat/darwin_android_jni_trampoline.cc:462-471 | the k-th stacked argument's bytes stand in slot k above the new stack pointer |
| ThunkCorrect.ThunkRuns | darwin-art/compat/darwin_android_jni_trampoline.cc:456-544 | a mapped thunk with room on the stack runs to its return through exactly three calls with the same x28 for push and pop |
| ThunkCorrect.EntryEffect | darwin-art/compat/darwin_android_jni_trampoline.cc:456-492 | the entry code builds the frame: saved link, argument registers and moved tail, all disjoint |
| ThunkCorrect.ExitEffect | darwin-art/compat/darwin_android_jni_trampoline.cc:531-543 | the exit code restores the frame and the kept result |
| Thunk.MoveEffect | darwin-art/compat/darwin_android_jni_trampoline.cc:462-471 | the move loop copies every stacked argument from its packed Darwin place to its 8-byte slot |
| Thunk.SaveVEffect | darwin-art/compat/darwin_android_jni_trampoline.cc:483-487 | the vector argument registers are all saved |
| Thunk.RestoreXEffect | darwin-art/compat/darwin_android_jni_trampoline.cc:504-508 | the general argument registers come back as they were saved |
| ShortyPlan.PlanShorty | darwin-art/compat/darwin_android_jni_trampoline.cc:127-182 | accepts exactly the shorties of the given shape, reports the first reason otherwise, and plans the move of every stacked argument |
| ShortyPlan.PlanLifecycle | darwin-art/compat/darwin_android_jni_trampoline.cc:184-193 | accepts exactly the two lifecycle shorties |
| ShortyPlan.MoveOfArgument | darwin-art/compat/darwin_android_jni_trampoline.cc:148-169 | move k belongs to the k-th argument that no longer fits a register, with both its offsets |
| ShortyPlan.FrameBounds | darwin-art/compat/darwin_android_jni_trampoline.cc:165-180 | every accepted shorty has a 16-aligned frame of at most 2240 bytes, at most 249 moves, and tail and save area apart |
| ThunkEncoding.OrIsSum | darwin-art/compat/darwin_android_jni_trampoline.cc:195-202 | for disjoint fields the OR of the encoder is their sum |
| ThunkEncoding.LoadStoreDecode | darwin-art/compat/darwin_android_jni_trampoline.cc:195-242 | every scaled load and store the compiler uses decodes back to itself |
| ThunkEncoding.VectorDecode | darwin-art/compat/darwin_android_jni_trampoline.cc:244-256 | likewise for the 16-byte vector accesses |
| ThunkEncoding.SubSpDecode | darwin-art/compat/darwin_android_jni_trampoline.cc:258-260 | likewise for the frame allocation |
| ThunkEncoding.LiteralDecode | darwin-art/compat/darwin_android_jni_trampoline.cc:262-268 | likewise for PC-relative literal loads |
| ThunkEmit.EmitThunk | darwin-art/compat/darwin_android_jni_trampoline.cc:450-562 | the cursor lands on the first literal, the bytes are the compiled thunk, nothing else in the buffer changes |
| ThunkEmit.CompiledMapped | darwin-art/compat/darwin_android_jni_trampoline.cc:456-562 | fetching and decoding the emitted bytes yields the intended instructions and literals |
| TrampolineSet.CreateTrampolines | darwin-art/compat/darwin_android_jni_trampoline.cc:340-609 | succeeds exactly for valid requests on a willing host, with whole pages of at most 16 MiB, so the size limit and the layout mismatch are otherwise unreachable; requests share an address exactly when target and shorty agree; only critical sets do without a proxy |
| TrampolineSet.Layout | darwin-art/compat/darwin_android_jni_trampoline.cc:395-419 | thunks are disjoint and 16-aligned, equal keys share one, and its mask is the OR of theirs |
| TrampolineSet.SetIsGood | darwin-art/compat/darwin_android_jni_trampoline.cc:582-597 | a laid-out and emitted set serves every request with a thunk compiled for it and lists every address once with its bits |
| TrampolineRegistry.Registry.Publish | darwin-art/compat/darwin_android_jni_trampoline.cc:588-606 | adds exactly one live set, reusing a free slot if any; the n-th gets generation n modulo 2^64, shared by no other before 2^64 of them, and fails exactly at 0 |
| TrampolineRegistry.Registry.Unpublish | darwin-art/compat/darwin_android_jni_trampoline.cc:291-299 | removes exactly that set and no other |
| TrampolineRegistry.Registry.EntryMask | darwin-art/compat/darwin_android_jni_trampoline.cc:664-679 | after any history the mask of an address is that of the live requests mapped to it, and zero elsewhere |
| TrampolineRegistry.LiveMaskOf | darwin-art/compat/darwin_android_jni_trampoline.cc:664-679 | an address has one live owner, whose requests decide its mask |
| TrampolineRegistry.LiveEntryHasBit | darwin-art/compat/darwin_android_jni_trampoline.cc:664-679 | a live request's address always carries the request's own bit |
| Descriptor.DescriptorToShorty | darwin-art/compat/darwin_jni_shorty.cc:166-186 | accepts exactly the strings that read as a method descriptor and yields its shorty |
| Descriptor.ParseDescriptorType | darwin-art/compat/darwin_jni_shorty.cc:122-162 | consumes exactly one type, void only where allowed, arrays of any depth |
| Descriptor.MethodRoundTrip | darwin-art/compat/darwin_jni_shorty.cc:122-186 | every legal method descriptor, printed, is read back |
| Descriptor.ParsedIsLegal | darwin-art/compat/darwin_jni_shorty.cc:122-186 | whatever is accepted was printed by a legal method |
| Descriptor.ShortyAccepted | darwin-art/compat/darwin_android_jni_trampoline.cc:127-163 | every resulting shorty of at most 256 characters is accepted for regular calls |
| Descriptor.PrimitivesKept | darwin-art/compat/darwin_jni_shorty.cc:122-186 | each of the eight primitive types keeps its letter, as parameter and as return type |
| Descriptor.ReferencesAreL | darwin-art/compat/darwin_jni_shorty.cc:122-186 | classes and arrays of anything become L, void becomes V |
| JniAbi.Widths | darwin-art/compat/darwin_android_jni_trampoline.cc:103-125 | the widths of the Java types, and which of them are arguments and floating point |
| JniAbi.TailExample | darwin-art/compat/darwin_android_jni_trampoline.cc:148-169 | on one signature, which arguments are stacked and at which offset in either convention |
| PublicationPlan.PlanPublication | darwin-art/compat/darwin_android_elf_image_registry.cc:361-381 | succeeds exactly when every image is reachable from the root and every dependency is provided or present; the order then lists each image once, a dependency first unless the two reach each other |
| PublicationPlan.Walk.Visit | darwin-art/compat/darwin_android_elf_image_registry.cc:363-375 | terminates, finishes everything it starts, and fails only with a reachable image that lacks a dependency |
| PublicationPlan.PlanIffComplete | darwin-art/compat/darwin_android_elf_image_registry.cc:376-381 | a finished walk placed all images exactly when the graph was complete |
| PublicationPlan.Leaves | darwin-art/compat/darwin_android_elf_image_registry.cc:372-374 | an image is placed behind each dependency that cannot reach it back |
| ElfHeaders.ParseProgramHeaders | darwin-art/compat/darwin_android_elf_image_registry.cc:201-269 | accepts exactly tables inside the file whose loadable segments fit the address space, and yields the smallest page span that holds them |
| ElfHeaders.ScanTable | darwin-art/compat/darwin_android_elf_image_registry.cc:228-251 | reads every entry in bounds and finds the lowest and highest loadable address |
| ElfHeaders.SpansOf | darwin-art/compat/darwin_android_elf_image_registry.cc:252-268 | rounding the extreme addresses outward covers every segment and wastes less than a page at each end |
| ElfHeaders.PrintedTable | darwin-art/compat/darwin_android_elf_image_registry.cc:201-251 | any ELF64 header, gap, table and rest, laid out as the standard says, is read as exactly that table |
| ImageRegistry.Create | darwin-art/compat/darwin_android_elf_image_registry.cc:319-393 | makes an owner exactly for a readable, complete graph, with its images in planned order |
| ImageRegistry.Prepare | darwin-art/compat/darwin_android_elf_image_registry.cc:338-347 | prepares all sources exactly when all parse, all inspections succeed and names differ |
| ImageRegistry.Registry.Publish | darwin-art/compat/darwin_android_elf_image_registry.cc:66-79 | next id is loads plus one, live images are loads minus unloads, ids are never reused |
| ImageRegistry.Registry.Unpublish | darwin-art/compat/darwin_android_elf_image_registry.cc:81-91 | removes a live image always, so the saturation guard cannot fire for one |
| ImageRegistry.Registry.Lookup | darwin-art/compat/darwin_android_elf_image_registry.cc:128-147 | finds the first image containing the address whenever there is one |
| ImageRegistry.Owner.Publish | darwin-art/compat/darwin_android_elf_image_registry.cc:424-471 | publishes exactly when the range fits the next prepared image; every segment then lies inside the range and all owners' lists stay exact |
| ImageRegistry.Owner.RollbackPublish | darwin-art/compat/darwin_android_elf_image_registry.cc:478-491 | withdraws the last receipt and steps the order back once; owner and order are as before that publication exactly when nothing was finalized since |
| ImageRegistry.RestoresIff | darwin-art/compat/darwin_android_elf_image_registry.cc:478-511 | the same on the numbers kept: the last receipt's progress is restored exactly when as many images were finalized then as now |
| ImageRegistry.RollbackSkips | darwin-art/compat/darwin_android_elf_image_registry.cc:424-511 | two images published, the second finalized, the first rolled back: the order stands at the second, the first is skipped |
| ImageRegistry.Owner.PublishOrUndo | darwin-art/compat/loader/image_lifecycle.cc:20-33 | a publication refused afterwards leaves owner and registry as they were, so the rollback never aborts |
| ImageRegistry.Owner.Finalize | darwin-art/compat/darwin_android_elf_image_registry.cc:493-511 | removes the first image with exactly that range |
| ImageRegistry.Owner.ContainsAddress | darwin-art/compat/darwin_android_elf_image_registry.cc:513-521 | holds exactly for addresses inside a range the owner published |
| ImageRegistry.Owner.UnpublishAll | darwin-art/compat/darwin_android_elf_image_registry.cc:523-532 | withdraws everything; its abort is unreachable |
| ImageRegistry.Owner.Destroy | darwin-art/compat/darwin_android_elf_image_registry.cc:534-538 | afterwards no live image belongs to the owner |
| ImageRegistry.ContainedIsFound | darwin-art/compat/darwin_android_elf_image_registry.cc:513-521 | an address an owner contains is always found by the process-wide lookup |
| ImageRegistry.ReceiptsDisjoint | darwin-art/compat/darwin_android_elf_image_registry.cc:424-471 | owners' lists are disjoint parts of the registry |
| ImageRegistry.RollbackRestores | darwin-art/compat/darwin_android_elf_image_registry.cc:478-491 | rolling back the newest image restores the list before it |
| ImageRegistry.HeldAfterRetire | darwin-art/compat/darwin_android_elf_image_registry.cc:81-91 | removing an image takes one entry from its owner's list and none from any other |
| SurfaceTextureRuns.RunKeepsInv | darwin-art/compat/darwin_android_surface_texture.cc:220-643 | every interleaving conserves frames, fences and references, excludes two consumers, keeps an abandoned queue empty, and keeps order and new-content bookkeeping |
| SurfaceTextureRuns.ExactlyOnce | darwin-art/compat/darwin_android_surface_texture.cc:220-643 | a slot, fence or reference issued once is queued, current, in one thread's hand or given back once |
| SurfaceTextureRuns.AllGivenBack | darwin-art/compat/darwin_android_surface_texture.cc:355-523 | once ownership is given up or the texture abandoned, and threads are done, everything issued was given back but frames queued since; abandoned, everything |
| SurfaceTextureRuns.ReleaseGivesBack | darwin-art/compat/darwin_android_surface_texture.cc:50-68 | returning a frame gives back its slot, fence and reference and hands over the release fence |
| SurfaceTextureRuns.AllocationFailure | darwin-art/compat/darwin_android_surface_texture.cc:241-269 | a push that cannot allocate returns only the incoming frame and leaves the queue as it was |
| SurfaceTextureRuns.WaitConserves | darwin-art/compat/darwin_android_surface_texture.cc:582-598 | the fence copied outside the mutex is closed once, after it was taken from the current frame |
| SurfaceTextureRuns.AcquiredInOrder | darwin-art/compat/darwin_android_surface_texture.cc:551-565 | frames become current in publication order, with gaps |
| SurfaceTextureRuns.FirstDeliveryIsNew | darwin-art/compat/darwin_android_surface_texture.cc:541-603 | every delivery hands out the frame acquired as it says, reports new content exactly when it is the first of that acquisition, failed waits notwithstanding, and never goes back to an older one |
| SurfaceTextureRuns.DequeuePicks | darwin-art/compat/darwin_android_surface_texture.cc:551-562 | a dequeue takes the newest published frame under MAILBOX and the oldest waiting one otherwise |
| SurfaceTextureRuns.NothingWhileUnavailable | darwin-art/compat/darwin_android_surface_texture.cc:504-550 | from any point of a run without ownership until it is taken, and for good once abandoned, nothing is acquired or delivered; once abandoned nothing is published either |
| SurfaceTextureRuns.FifoLosesNothing | darwin-art/compat/darwin_android_surface_texture.cc:241-269 | in FIFO mode, while nobody gives the texture up, frames acquired and then frames waiting are all that were published, in order |
| SurfaceTextureRuns.MailboxKeepsOne | darwin-art/compat/darwin_android_surface_texture.cc:249-262 | under constant MAILBOX mode at most one frame waits |
| SurfaceTextureRuns.NextDrained | darwin-art/compat/darwin_android_surface_texture.cc:355-383 | abandonment empties queue and current frame at once and nothing enters afterwards |
| SurfaceTextureHistory.PublishedArePushed | darwin-art/compat/darwin_android_surface_texture.cc:220-269 | in every run exactly the frames offered and pushed, before abandonment and with memory for it, were published, in order |
| SurfaceTextureHistory.PublishedAreEnqueued | darwin-art/compat/darwin_android_surface_texture.cc:220-269 | undisturbed by abandonment and allocation failure, every push is published |
| SurfaceTextureHistory.FifoKeepsPushes | darwin-art/compat/darwin_android_surface_texture.cc:241-269 | and in FIFO mode every frame pushed is acquired or waiting, in the order of the pushes |
| SurfaceTextureHistory.EnqueueQueues | darwin-art/compat/darwin_android_surface_texture.cc:241-269 | a push appends under FIFO and replaces what waited under MAILBOX; what was replaced is what the thread returns |
| SurfaceTextureHistory.AbandonedIff | darwin-art/compat/darwin_android_surface_texture.cc:355-383 | after every run the texture is abandoned exactly when some abandon or last release went through its section |
| SurfaceTextureHistory.OwnedIff | darwin-art/compat/darwin_android_surface_texture.cc:493-523 | and held exactly when it was taken and not released since |
| SurfaceTextureHistory.IssuedIsBrought | darwin-art/compat/darwin_android_surface_texture.cc:220-269 | slots and fences issued are those the moves brought in |
| SurfaceTextureHistory.DeliveriesCounted | darwin-art/compat/darwin_android_surface_texture.cc:600-616 | every successful return of a dequeue is one delivery |
| SurfaceTextureHistory.NoThreadStuck | darwin-art/compat/darwin_android_surface_texture.cc:220-643 | every thread can go on from everywhere; only the consumer mutex is waited for |
| SurfaceTextureHistory.DequeueDelivers | darwin-art/compat/darwin_android_surface_texture.cc:525-616 | with a frame waiting, a dequeue can deliver the newest or the oldest as new content and leaves it current |
| SurfaceTextureHistory.DequeueRepeats | darwin-art/compat/darwin_android_surface_texture.cc:525-616 | with none waiting it can deliver the current one again, new only if no wait for it succeeded |
| SurfaceTextureHistory.FirstFrame | darwin-art/compat/darwin_android_surface_texture.cc:220-616 | a frame offered, queued and taken up reaches the consumer |
| BinderHandles.Connection.RegisterLocalBinder | darwin-art/compat/darwin_framework_binder_natives.cc:825-841 | an object keeps its target, a new one uses up the next, entries never change, and targets stay unique |
| BinderHandles.NamesIff | darwin-art/compat/darwin_framework_binder_natives.cc:831-840 | a new target names its object exactly when the counter is not at a taken target |
| BinderHandles.WrapMisnames | darwin-art/compat/darwin_framework_binder_natives.cc:831-840 | with the counter come round, a new object is sent under the first one's handle |
| BinderHandles.Connection.ExportParcel | darwin-art/compat/darwin_framework_binder_natives.cc:880-910 | every handle written names its object, in the peer's table or in this one; with pins and room for targets an export goes through exactly when no proxy in it belongs to no live connection; a failed export only extends the table |
| BinderHandles.ExportDone | darwin-art/compat/darwin_framework_binder_natives.cc:880-910 | turn by turn, an export that goes through extends the table, keeps it unique and makes handles that still name their objects at the end |
| BinderHandles.Connection.ImportParcel | darwin-art/compat/darwin_framework_binder_natives.cc:980-1028 | succeeds exactly when every returning target is known; yields that object or a proxy for the peer's |
| BinderHandles.Connection.Serve | darwin-art/compat/darwin_framework_binder_natives.cc:1789-1813 | nothing registered is lost and only target 1 may be new; targets stay unique exactly when 1 was taken or the object had none |
| BinderHandles.ServeInjective | darwin-art/compat/darwin_framework_binder_natives.cc:1804-1811 | serving keeps targets unique exactly when target 1 is taken or the object is not yet exported |
| BinderHandles.KindIs | darwin-art/compat/darwin_framework_binder_natives.cc:845-878 | which proxies go home, are forwarded, or are stale, from their fields alone |
| BinderHandles.ForeignExport | darwin-art/compat/darwin_framework_binder_natives.cc:871-903 | a proxy of another live connection goes out under a target of this end whose entry is that proxy |
| BinderChannel.RunKeepsInv | darwin-art/compat/darwin_framework_binder_natives.cc:825-1028 | in every run of both ends, failed exports and sends included, each target held or in flight resolves to the object it was made for, and every handle that came back was imported as that very object, forwarded proxies included |
| BinderChannel.UniqueIff | darwin-art/compat/darwin_framework_binder_natives.cc:825-841 | after every run the targets of an end are unique exactly when no object was served after its export, unless the end was retired since |
| BinderChannel.SafeRunsStayUnique | darwin-art/compat/darwin_framework_binder_natives.cc:825-841 | a run without such a serve ends with unique targets at both ends |
| BinderChannel.TablesGrow | darwin-art/compat/darwin_framework_binder_natives.cc:825-841 | from any point of a run on, a table only grows until its end is retired |
| BinderChannel.ServedTwice | darwin-art/compat/darwin_framework_binder_natives.cc:1804-1811 | the run that creates, sends and serves an object ends with two targets for it |
| BinderChannel.ReceiveKeeps | darwin-art/compat/darwin_framework_binder_natives.cc:980-1028 | importing a message from the peer never fails while the connection lives |
| BinderChannel.GoesHome | darwin-art/compat/darwin_framework_binder_natives.cc:845-878 | a proxy that goes home resolves to the object it stands for |
| BinderChannel.HomeIff | darwin-art/compat/binder/remote_binder_identity_jni.cc:45-60 | a proxy goes home exactly for targets below 2^31 |
| BinderChannel.HomeFails | darwin-art/compat/binder/remote_binder_identity_jni.cc:45-60 | target 2^31 is refused |
| BinderTrips.SentIsReceived | darwin-art/compat/darwin_framework_binder_natives.cc:880-1028 | from any state with both ends live, a local object or a proxy of another connection can be sent, and the peer's new proxy stands for that very object |
| BinderTrips.ReturnedIsReceived | darwin-art/compat/darwin_framework_binder_natives.cc:845-1028 | and a proxy sent back comes home as the object it stands for |
| BinderTrips.ThereAndBack | darwin-art/compat/darwin_framework_binder_natives.cc:845-1028 | an object sent and returned is the same object, for targets below 2^31 |
| BinderTrips.Forwarded | darwin-art/compat/darwin_framework_binder_natives.cc:871-1028 | the run in which a proxy of another connection is created, sent and received, and the receiver's proxy stands for it |
| BinderTrips.RetiredIsSilent | darwin-art/compat/darwin_framework_binder_natives.cc:825-1028 | an end can be retired at any time and then neither sends nor receives; the other keeps what it has |
| BinderReplies.RunKeepsInv | darwin-art/compat/darwin_framework_binder_natives.cc:1311-1344 | with any number of callers and any arrival order, stored replies are consumed at most once and transactions in progress are distinct |
| BinderReplies.RepliesMatch | darwin-art/compat/darwin_framework_binder_natives.cc:1646-1787 | a transaction succeeds only with a status-0 reply that carries its own sequence number; another's reply carries it exactly when the two are a multiple of 2^32 requests apart |
| BinderReplies.ReadyBeforeRequests | darwin-art/compat/darwin_framework_binder_natives.cc:1683-1710 | no request goes out before the peer's ready was received or this side sent its own |
| BinderReplies.SendsIff | darwin-art/compat/darwin_framework_binder_natives.cc:1683-1710 | and from then on calls on a live connection do send |
| BinderReplies.ServingSendsFirst | darwin-art/compat/darwin_framework_binder_natives.cc:1812-1819 | a serving side can send before hearing from the peer |
| BinderReplies.CallIsAnswered | darwin-art/compat/darwin_framework_binder_natives.cc:1646-1787 | with the dispatcher running a call sends its request, and the reply to it ends the call, with success exactly for status 0 |
| BinderReplies.CallReadsAnswer | darwin-art/compat/darwin_framework_binder_natives.cc:1646-1787 | without one the caller reads the reply itself, with the same outcome |
| BinderReplies.ReadyLetsCallsGo | darwin-art/compat/darwin_framework_binder_natives.cc:1683-1710 | a call made before the peer is ready sends once the ready message is in |
| BinderReplies.RetiredLetsGo | darwin-art/compat/darwin_framework_binder_natives.cc:1646-1787 | after retirement every waiting caller goes back without success |
| BinderReplies.DispatcherReads | darwin-art/compat/darwin_framework_binder_natives.cc:1311-1344 | the dispatcher reads exactly while it runs on a live connection; an unknown message ends the connection |
| BinderReplies.FirstCall | darwin-art/compat/darwin_framework_binder_natives.cc:1646-1787 | the first call of a served connection, from opening to success |
| BinderReplies.SequenceCounts | darwin-art/compat/darwin_framework_binder_natives.cc:1707-1707 | sequence numbers start at 1, count up, and go from the largest to 0 |
| BinderWire.DecodeEncode | darwin-art/compat/darwin_framework_binder_natives.cc:652-812 | a message is self-delimiting: it decodes to itself whatever follows it |
| BinderWire.EncodeDecode | darwin-art/compat/darwin_framework_binder_natives.cc:726-812 | the other way: whatever bytes decode are the encoding of the message they give, and it is within the limits, so larger counts are refused |
| BinderWire.Stream.WriteAll | darwin-art/compat/darwin_framework_binder_natives.cc:622-635 | short writes and interruptions do not change what is written |
| BinderWire.Stream.ReadAll | darwin-art/compat/darwin_framework_binder_natives.cc:637-650 | short reads and interruptions do not change what is read |
| BinderWire.Stream.Send | darwin-art/compat/darwin_framework_binder_natives.cc:652-724 | puts exactly the encoding on the stream, descriptors with its first byte |
| BinderWire.Stream.Receive | darwin-art/compat/darwin_framework_binder_natives.cc:726-812 | yields what the bytes at the read position decode to, exactly when header, descriptors and payload arrive |
| BinderWire.Exchange | darwin-art/compat/darwin_framework_binder_natives.cc:622-812 | any list of in-limit messages sent back to back in any pieces arrives as the same list, exactly when every write and read gets through |
| BinderWire.HeaderIff | darwin-art/compat/darwin_framework_binder_natives.cc:726-760 | where a read loop would get the header, the receiver gets it exactly when the first transfer holds all of it |
| BinderWire.SplitHeaderRefused | darwin-art/compat/darwin_framework_binder_natives.cc:726-760 | any message, sent whole and read as 20 bytes and the rest, is refused |
| BinderParcel.Parcel.Write | darwin-art/compat/darwin_framework_binder_natives.cc:104-113 | a typed write lays the value's encoding over the buffer at the cursor |
| BinderParcel.OverwrittenAt | darwin-art/compat/darwin_framework_binder_natives.cc:104-113 | byte by byte: the new bytes where they go, the old ones everywhere else |
| BinderParcel.Parcel.Read | darwin-art/compat/darwin_framework_binder_natives.cc:115-125 | a typed read yields the value at the cursor or the null value, cursor in bounds |
| BinderParcel.Parcel.SetDataPosition | darwin-art/compat/darwin_framework_binder_natives.cc:166-170 | the cursor is clamped to the data |
| BinderParcel.Parcel.SetDataSize | darwin-art/compat/darwin_framework_binder_natives.cc:160-165 | resizing keeps the common prefix, fills with zeros and keeps the cursor in bounds |
| BinderParcel.JavaWrites | darwin-art/compat/darwin_framework_binder_natives.cc:195-302 | what can be written: every 32-bit int, 64-bit long, string or null, array and binder or null |
| BinderParcel.ReadEncoding | darwin-art/compat/darwin_framework_binder_natives.cc:195-302 | where a value was written it reads back |
| BinderParcel.RoundTrip | darwin-art/compat/darwin_framework_binder_natives.cc:104-302 | any list of values written from empty reads back equal from the start |
| Ebml.VintRoundTrip | darwin-art/compat/darwin_media_extractor.h:43-73 | every integer in every width that holds it is read back, with or without its marker |
| Ebml.ReadVint | darwin-art/compat/darwin_media_extractor.h:43-73 | reads exactly the integer at the cursor, never past the view |
| Ebml.ReadAt | darwin-art/compat/darwin_media_extractor.h:75-88 | reads exactly the element at the cursor; an all-ones size reaches to the end of the view |
| Ebml.ElementsPrinted | darwin-art/compat/darwin_media_extractor.h:75-88 | a printed list of elements reads back as that list |
| Webm.ParseWebm | darwin-art/compat/darwin_media_extractor.h:151-275 | the nested cursor loops compute the fold of the elements' effects on every input; the duration is the last sample's time, and there is a source exactly with a video track and a sample |
| Webm.ParseTrack | darwin-art/compat/darwin_media_extractor.h:103-149 | likewise for one track entry |
| Webm.TruncTowardZero | darwin-art/compat/darwin_media_extractor.h:255-257 | times divide toward zero, for negative ones too |
| WebmTree.BlockMeaning | darwin-art/compat/darwin_media_extractor.h:234-262 | a block of the video track without lacing becomes one sample with its data, timestamp and key flag; any other adds none |
| WebmTree.ParsePrint | darwin-art/compat/darwin_media_extractor.h:151-275 | printing any legal tree, with unhandled elements at every level, in any legal widths and parsing gives the tree's meaning, whatever its times: the video samples in order, the last one's time as duration, and a source exactly when a track entry is video and a block is kept |
| WebmTree.SamplesInOrder | darwin-art/compat/darwin_media_extractor.h:219-265 | the children of a file add their video blocks in order, each under the track and scale known by then, up to a million |
| WebmTree.TimestampsIff | darwin-art/compat/darwin_media_extractor.h:255-257 | the timestamps are the exact ones when, and only when, every kept block's product fits 64 bits |
| WebmTree.PtsIff | darwin-art/compat/darwin_media_extractor.h:255-257 | the same for one block |
| WebmTree.TimestampWraps | darwin-art/compat/darwin_media_extractor.h:255-257 | the bytes of a legal file with one video frame at cluster time 2^62 parse to a source whose frame is at time 0 |
| WebmTree.SamplesBounded | darwin-art/compat/darwin_media_extractor.h:151-275 | for arbitrary bytes the samples together are no longer than the input |
| AnnexB.NormalizeH264AccessUnit | darwin-art/compat/darwin_media_codec.cc:265-303 | terminates and computes the reference rewrite |
| AnnexB.RewriteConforming | darwin-art/compat/darwin_media_codec.cc:265-303 | conforming units behind any mix of start codes come out length-prefixed, in order |
| AnnexB.NoCodeUnchanged | darwin-art/compat/darwin_media_codec.cc:276-276 | input without a start code is unchanged |
| AnnexB.NoCodeInside | darwin-art/compat/darwin_media_codec.cc:283-290 | the scan sees no start code within a conforming unit or across its end |
| Vsync.RunKeepsInv | darwin-art/compat/darwin_framework_animation_natives.cc:115-285 | every interleaving keeps requests on their way, counts callbacks exactly and orders the teardown |
| Vsync.NoLostVsync | darwin-art/compat/darwin_framework_animation_natives.cc:182-285 | a pending request of a live receiver has the timer armed, a pulse being written, in the pipe or in hand |
| Vsync.RequestsAreDispatched | darwin-art/compat/darwin_framework_animation_natives.cc:182-235 | in every run the requests made are the dispatches begun, and one more while one is pending |
| Vsync.ScheduleLeavesRequest | darwin-art/compat/darwin_framework_animation_natives.cc:182-191 | on a live receiver a request leaves one pending with the timer armed; after disposal it does nothing |
| Vsync.RequestCanBeServed | darwin-art/compat/darwin_framework_animation_natives.cc:182-285 | from every point of every run of a live receiver, timer, pipe and callback can bring a pending request to a dispatch |
| Vsync.FirstRequest | darwin-art/compat/darwin_framework_animation_natives.cc:182-285 | the first request all the way to its dispatch |
| Vsync.FiringsAreWritten | darwin-art/compat/darwin_framework_animation_natives.cc:264-285 | each firing of the timer is written once, and the pipe never holds more than it can |
| Vsync.ClosedOnce | darwin-art/compat/darwin_framework_animation_natives.cc:115-145 | only one disposing thread has the descriptors, so the pipe is closed once |
| Vsync.DisposalEnds | darwin-art/compat/darwin_framework_animation_natives.cc:115-164 | a disposal with no dispatch in progress can finish, with timer stopped, pipe closed and references deleted |
| Vsync.DeadlinesSpaced | darwin-art/compat/darwin_framework_animation_natives.cc:182-191 | successive deadlines are at least one frame apart |
| Vsync.NoUseAfterDispose | darwin-art/compat/darwin_framework_animation_natives.cc:115-164 | no dispatch uses references after they are deleted, and no pulse is written to a closed pipe |
| Vsync.ClosedReadIff | darwin-art/compat/darwin_framework_animation_natives.cc:115-145 | a run has a callback read the closed pipe exactly when it closes the pipe while a callback drains it |
| Vsync.CallbackOutlivesPipe | darwin-art/compat/darwin_framework_animation_natives.cc:115-145 | the run that does so |
| Vsync.SameThreadIsSafe | darwin-art/compat/darwin_framework_animation_natives.cc:115-145 | with callbacks and disposal on one thread no run does |
| Vsync.NextDeadline | darwin-art/compat/darwin_framework_animation_natives.cc:27-32 | the deadline is the first frame boundary after now |
| JitTable.Table.Register | darwin-art/compat/darwin_jit_memory.cc:43-76 | codes fill a gap-free prefix in order of first registration; a repeated code keeps its place |
| JitTable.Table.LookupMethod | darwin-art/compat/darwin_jit_memory.cc:78-88 | the method of the first registered range that holds pc |
| JitTable.Table.LookupCode | darwin-art/compat/darwin_jit_memory.cc:94-102 | holds exactly when some range holds pc |
| JitTable.EndOf | darwin-art/compat/darwin_jit_memory.cc:44-50 | code, size and tail, saturating at the top of the address space |
| JitRace.RunKeepsInv | darwin-art/compat/darwin_jit_memory.cc:43-88 | under any interleaving a published entry holds an end and a method written for its own code, or for code 1 |
| JitRace.WholeIff | darwin-art/compat/darwin_jit_memory.cc:43-88 | every lookup in every run over a set of registrations returns one of them exactly when they agree |
| JitRace.FoundIsRegistered | darwin-art/compat/darwin_jit_memory.cc:78-88 | with agreeing registrations what a reader returns is one registration begun before |
| JitRace.FoundIsWritten | darwin-art/compat/darwin_jit_memory.cc:78-88 | in any run the end and the method a reader returns were each written for the code it saw, or for code 1 |
| JitRace.UpdateTears | darwin-art/compat/darwin_jit_memory.cc:64-67 | two registrations of one code that differ in both have a run in which a reader gets the new end with the old method |
| JitRace.MarkerMixesEnd | darwin-art/compat/darwin_jit_memory.cc:51-74 | a registration of code 1 can leave its end in another's entry |
| JitRace.MarkerMixesMethod | darwin-art/compat/darwin_jit_memory.cc:51-74 | or its method |
| JitRace.RunStable | darwin-art/compat/darwin_jit_memory.cc:51-74 | between any two points of a run a published start stays |
| JitRace.AloneIsSequential | darwin-art/compat/darwin_jit_memory.cc:43-88 | undisturbed, a registration fills the first entry that is free or has its code, and a lookup finds the first range that holds its address |

## Left out

- EGL and GLES forwarding, ANGLE loading, ICU, SQLite, assets, fonts and clocks: thin wrappers over foreign libraries.
- JNI class loading, exceptions, debug logging and environment variables inside the modelled functions.
- Thunks: weak memory ordering, instruction-cache maintenance and memory protection of the executable mapping.
- Thunks: a guest frame that overlaps the mapped code; code and data memory are kept apart.
- TrampolineSet.CreateTrampolines: for page sizes that are not powers of two only the refusals are stated, because the source rounds with a mask.
- ELF: dependency inspection itself, which is a parameter; the one-time binding of the snapshot source; snapshots for dl_iterate_phdr; the validation loop of CreateWithPaths, whose result is a parameter.
- ELF: owners and registry are called one operation at a time; the registry mutex makes each of its calls one step.
- SurfaceTexture: dataspace, timestamps, transform and crop outputs, the notification after a queue, and the native window's own slot queue.
- SurfaceTexture: fence descriptors are tokens, so reuse of a closed descriptor number is not modelled.
- Binder: peer credentials, service-bind intents, the broker's guest and host descriptor tables, and failures while adopting received descriptors.
- Binder: liveness of nested calls made from the dispatcher thread.
- BinderChannel.RunKeepsInv: a root proxy is taken from the moment the peer serves, because before that nothing can be sent to it; and no end issues 2^32 targets, because past that handles may misname (see the findings).
- Parcel: interface tokens, the read into a caller's byte array, and a null byte array, which writes nothing.
- WebM: laced blocks, elements the reader handles but with sizes it ignores, and unknown-size clusters followed by siblings, which the reader skips or approximates; BlockGroups mean nothing, as the reader skips them.
- AnnexB.RewriteConforming: nothing is claimed for input that is already length-prefixed, because a length can look like a start code.
- Vsync: a read of the closed pipe is taken to fail, so reuse of its descriptor number is not modelled; a pipe write is taken to fail only when the pipe is full; the callback thread is attached and the clock is not zero; LatestVsyncData is not covered.
- JIT table: steps are sequentially consistent.
- The codec, VideoToolbox, VP9 decoding, zlib, sockets and DNS code.
