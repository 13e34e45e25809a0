# PSHVK core, modelled in Dafny

PSHVK is a Windows disk tool with a Dear ImGui interface drawn by a
Direct3D 11 or Direct3D 12 renderer. This project models the parts of it
whose logic does not depend on the GPU, the operating system or the
image decoder, and proves what that logic promises. Device calls,
decoders, file reads and hashes are parameters or oracles.

The modules follow the program:

- `DescriptorHeap` (descriptor_heap.dfy) is `ExampleDescriptorHeapAllocator`. It is a LIFO free list of
  descriptor indices with handle = heap start + index · increment, plus
  `DX12_FreeSrvByImTextureID`. A ghost set records the indices that are
  held, and the invariant is "every index is free exactly once or held".
- `FrameSync` (frame_sync.dfy) models the fence counter `g_fenceLastSignaledValue` and the two frame
  contexts. The GPU's completed value is an environment variable that
  only grows and never passes the last value signalled.
- `Textures` (textures.dfy) is `TextureLoader`. It covers `FreeTexture`, the emissive companion path,
  the control flow of the DX11 and DX12 loaders, and `CycleFrames`.
- `Renderer` (renderer.dfy) is the main.cpp bookkeeping: the deferred-free queue, the
  background-reload job and its four steps, the loading-icon slots of
  `PumpTexturesToGPU` and `SwapLoadingIconTheme`, and shutdown. A slot
  invariant counts every descriptor slot held by the free list or by a record.
  The class `Renderer.Renderer` holds the globals. Every method that changes them
  requires and keeps `Valid()`, which is a valid fence plus that slot invariant.
  Submit, finalize, the DX11 apply step and the pump name their effect once, as a
  twostate predicate. A `…Steps` method follows the source's steps to that effect,
  and the public method adds the proof that `Valid()` is kept.
- `Upload` (upload.dfy) covers the 256-byte row pitch and the row copy into the mapped upload buffer.
- `Glow` (glow.dfy) is the bloom pipeline of both back ends: the nullable handles, the guarded
  Create functions, Resize and Shutdown, and Render as a recorded command
  sequence. The DX12 barriers are checked against a tracked state for each target.
- `Json` (json.dfy) covers `HvkJsonWriter` (escaping, indentation, balanced objects), the WString
  narrowing and widening, and `ReadImVec4`.
- `Instance` (instance.dfy) covers the instance file layout "JSON ‖ 0 ‖ HVKSignature",
  `CreateInstanceFile` and `ValidateInstanceFile`.
- `Text` (text.dfy) holds decimal printing, CRLF-joined script lines, field splitting and
  ASCII case folding.
- `Disk` (disk.dfy) covers the DiskPart script builders. It also has `ExtractDriveLetter`,
  `IsIsoLikeFs`, `FsToString`, the combo that picks the file system, and
  `BytesToStr` with its shared static buffer.
- `Display` and `UsbHelper` (system.dfy) cover the resolution de-duplication, the aspect filter and
  the refresh-rate picker. They also cover the VID/PID extraction, the
  composite key and the USB matching rule.
- `Widgets` (widgets.dfy) covers the `SnapSlider` index choice, the `IntSliderWithEdit` confirm
  step, the unallocated-space figure and the selection-reset rules.
- `Theme` (theme.dfy) is the theme colour table and its copy into the user's style.
- `Emissive` (emissive.dfy) is the per-frame emissive binding cache of hvk_gui.cpp and the
  texture substitution in the image widgets.
- `Backend` (backend.dfy) holds `IsDX12` and `IsDX11`. Exactly one of them holds, and the renderer's ready checks use them.

Where a source routine is wrong, the model has it twice. One version is
as written, with a lemma that exhibits the fault. The other is corrected,
with the intended property proved, and the state-changing methods use
that version. See "## Findings".

## Model

| member | source | states |
|---|---|---|
| DescriptorHeap.HandleIndex | example_win32_directx12/main.cpp:213-223 | the handle Alloc builds for index idx lies at or above the heap start, and subtracting the start and dividing by the increment (what Free does) gives back idx with no remainder |
| DescriptorHeap.InitialFreeList | example_win32_directx12/main.cpp:202-203 | the list Create builds has n entries and entry k is n-1-k |
| DescriptorHeap.PushDown | example_win32_directx12/main.cpp:202-203 | the push loop of Create, run as a loop, yields InitialFreeList(n) |
| DescriptorHeap.InitialFreeListIsRange | example_win32_directx12/main.cpp:192-203 | a freshly created list holds each of 0..n-1 exactly once, and with nothing held every slot is free exactly once or held |
| DescriptorHeap.PopOrder | example_win32_directx12/main.cpp:209-213 | k successive Allocs return the last k entries of the list, from the back |
| DescriptorHeap.AllocsAscend | example_win32_directx12/main.cpp:192-213 | on a fresh n-slot heap the first k Allocs return 0, 1, ..., k-1 |
| DescriptorHeap.AllocKeepsInvariant | example_win32_directx12/main.cpp:209-213 | Alloc from a non-empty list hands out an index below n that nobody holds, and the invariant "free exactly once or held" survives |
| DescriptorHeap.FreeKeepsInvariantIffHeld | example_win32_directx12/main.cpp:218-224 | Free of idx keeps the invariant if and only if idx was held; Free itself does not check this |
| DescriptorHeap.AllocThenFreeRestores | example_win32_directx12/main.cpp:209-224 | Free of the handles Alloc just returned puts the free list back exactly as it was |
| DescriptorHeap.DescriptorHeapAllocator.constructor | example_win32_directx12/main.cpp:185-190 | no heap, null handles and an empty free list |
| DescriptorHeap.DescriptorHeapAllocator.Create | example_win32_directx12/main.cpp:192-204 | requires no heap and an empty list (the IM_ASSERT); records the start handles and the increment, and the list becomes InitialFreeList(numDescriptors) with nothing held |
| DescriptorHeap.DescriptorHeapAllocator.Destroy | example_win32_directx12/main.cpp:205-209 | detaches the heap and empties the list; the start handles and the increment are kept |
| DescriptorHeap.DescriptorHeapAllocator.Alloc | example_win32_directx12/main.cpp:209-217 | requires a non-empty list (the IM_ASSERT); pops the last index idx and returns cpu = HeapStartCpu + idx·inc and gpu = HeapStartGpu + idx·inc; idx becomes held |
| DescriptorHeap.DescriptorHeapAllocator.Free | example_win32_directx12/main.cpp:218-224 | requires the index from the CPU handle to equal the index from the GPU handle (the IM_ASSERT); appends that index; the invariant holds afterwards if and only if the index was held |
| DescriptorHeap.DescriptorHeapAllocator.FreeSrvByTextureId | example_win32_directx12/main.cpp:763-786 | DX12_FreeSrvByImTextureID: nothing changes for a null id, no heap, an id below HeapStartGpu, a zero increment or an offset that is not a multiple of it; otherwise the slot whose CPU offset equals the GPU offset is freed. `heapPresent` stands for g_pd3dSrvDescHeap being non-null; the allocator is created over that heap as soon as it exists (main.cpp:2756-2761), and the heap is released only at cleanup (main.cpp:2874), so the two agree while the program runs |
| FrameSync.ContextOf | example_win32_directx12/main.cpp:2956 | the frame context g_frameIndex % APP_NUM_FRAMES_IN_FLIGHT is one of the two contexts and is congruent to the index modulo two |
| FrameSync.NextFrameIndex | example_win32_directx12/main.cpp:2539 | g_frameIndex++ on the 32-bit counter stays below 2^32: it is the index plus one, and 0 when the index is 2^32 - 1 |
| FrameSync.ContextsAlternate | example_win32_directx12/main.cpp:2539 | consecutive frames use different contexts, wrap-around of the 32-bit counter included |
| FrameSync.FenceTimeline.constructor | example_win32_directx12/main.cpp:440-451 | the zero-initialised globals: nothing signalled, both frame fences 0, frame index 0 |
| FrameSync.FenceTimeline.Signal | example_win32_directx12/main.cpp:1040-1041 | ++g_fenceLastSignaledValue: the value returned is one more than the last and larger than every value signalled before |
| FrameSync.FenceTimeline.GpuProgress | example_win32_directx12/main.cpp:2953-2968 | the environment step: the GPU's completed value grows, never past the last value signalled |
| FrameSync.FenceTimeline.WaitForPendingOperations | example_win32_directx12/main.cpp:2943-2951 | signals one new value and returns once the GPU has completed it |
| FrameSync.FenceTimeline.WaitForNextFrameContext | example_win32_directx12/main.cpp:2953-2968 | returns context g_frameIndex % 2; it waits on the fence exactly when the completed value is below that context's fence value, and returns with the context's frame completed |
| FrameSync.FenceTimeline.EndFrame | example_win32_directx12/main.cpp:2527-2539 | signals a new value, stores it in the frame's context, moves to the next frame index and so to the other context |
| Textures.PairSlot | example_win32_directx12/util/texhelper.cpp:25-29 | freeHandle returns no slot when both handles are null, and otherwise the one slot Free derives from the CPU handle |
| Textures.ReleaseSlots | example_win32_directx12/util/texhelper.cpp:13-32 | at most two slots; none when both ids are null or on DX11 |
| Textures.FreePair | example_win32_directx12/util/texhelper.cpp:25-29 | freeHandle on the heap: the free list gains exactly PairSlot and nothing else of the allocator changes |
| Textures.FreeDescriptorPairs | example_win32_directx12/util/texhelper.cpp:31-32 | the base pair is freed, then the emissive pair |
| Textures.ReleasedObjects | example_win32_directx12/util/texhelper.cpp:13-42 | only non-null objects are released; none when both ids are null; on DX11 exactly the non-null base and emissive views |
| Textures.FreeTexture | example_win32_directx12/util/texhelper.cpp:11-45 | nothing happens when both ids are null; otherwise the slots of ReleaseSlots go back to the free list, the objects of ReleasedObjects are released and the texture is reset to its default |
| Textures.LastIndexOf | example_win32_directx12/util/texhelper.cpp:50 | find_last_of: -1 or an index holding the character, with no later occurrence |
| Textures.EmissivePathInserted | example_win32_directx12/util/texhelper.cpp:48-55 | BuildEmissivePath inserts "_emissive" immediately before the last '.' of the whole path, or at the end when the path has no '.' |
| Textures.EmissivePathRemovable | example_win32_directx12/util/texhelper.cpp:48-55 | the result is nine characters longer, and removing those nine characters at the insertion point gives back the path |
| Textures.LoadTextureDX11Shape | example_win32_directx12/util/texhelper.cpp:163-183 | LoadTextureDX11FromFile starts from an empty texture, fails exactly when no base view is created, takes the id from the base view, sets emissiveId exactly when the emissive view exists, and never sets descriptor handles |
| Textures.SingleLoad | example_win32_directx12/util/texhelper.cpp:212-353 | loadSingle succeeds exactly when a texture resource is left in place, and takes the last free slot exactly when decoding and both creations succeeded; a failed load leaves the free list unchanged |
| Textures.SingleLoadSlots | example_win32_directx12/util/texhelper.cpp:323-352 | it holds a descriptor pair exactly when it took a slot, and that pair names the slot that left the free list |
| Textures.LoadSingle | example_win32_directx12/util/texhelper.cpp:212-353 | loadSingle on the heap: its outputs and the free list follow SingleLoad and nothing else of the allocator changes |
| Textures.EmissiveAttach | example_win32_directx12/util/texhelper.cpp:363-374 | the companion load never changes the base handles or the id, and its free list is the companion's SingleLoad |
| Textures.AttachEmissive | example_win32_directx12/util/texhelper.cpp:363-374 | the emissive half on the heap follows EmissiveAttach |
| Textures.EmissiveAttachSlots | example_win32_directx12/util/texhelper.cpp:365-374 | the slot taken for the companion moves from the free list to the texture, emissiveId is the emissive GPU handle, and the texture stays freeable |
| Textures.TextureLoad | example_win32_directx12/util/texhelper.cpp:188-378 | LoadTexture succeeds exactly when COM and the WIC factory start and the base image loads; a failure leaves the free list unchanged, and at most two slots are taken |
| Textures.TextureLoadSlots | example_win32_directx12/util/texhelper.cpp:355-374 | the loaded texture owns exactly the slots that left the free list, id is the base GPU handle and emissiveId the emissive GPU handle |
| Textures.LoadTexture | example_win32_directx12/util/texhelper.cpp:188-378 | LoadTexture on the heap: the result and the free list follow TextureLoad |
| Textures.NextCounter | example_win32_directx12/util/texhelper.cpp:394-400 | the counter stays within [start, end], steps by one inside the range and resets to start at the end or from outside the range |
| Textures.CounterCycles | example_win32_directx12/util/texhelper.cpp:389-400 | from inside [start, end], after k calls the counter is start + (current - start + k) mod (end - start + 1) |
| Textures.FrameCycler.constructor | example_win32_directx12/util/texhelper.cpp:389 | the static counter starts at -1 |
| Textures.FrameCycler.CycleFrames | example_win32_directx12/util/texhelper.cpp:384-406 | null for an empty vector with the counter untouched; otherwise the counter advances by NextCounter and the result is that frame's id, or null when the counter lies outside the vector |
| Renderer.SecondRequestLosesSettings | example_win32_directx12/main.cpp:702-707 | as written, two requests before a finish leave Lcache holding the forced values, so the restore gives vsync off and 60 fps, which equals the user's settings only when those were the forced values |
| Renderer.RequestsRestoreUserSettings | example_win32_directx12/main.cpp:1119-1122 | with the corrected cache rule, any number of requests started from the user's settings end, after the restore, with exactly those settings |
| Renderer.FailedOpenLeavesLoadingStuck | example_win32_directx12/main.cpp:736-741 | as written, a failed fopen leaves the job as the request left it, and then neither submit nor finalize nor the DX11 apply step is enabled, whatever the back end and the fence, so isLoading is never cleared |
| Renderer.SubmitJobAsWritten | example_win32_directx12/main.cpp:978-1060 | as written, a submit on a job without bytes leaves the job as it is, and only a successful upload from a ready job with bytes sets upload_submitted |
| Renderer.EmptyFileLeavesLoadingStuck | example_win32_directx12/main.cpp:743-758 | as written, a zero-byte file sets bytes_ready with no bytes. The DX12 submit stays enabled, leaves the job as it is and never enables finalize |
| Renderer.FailedOpenEnablesCompletion | example_win32_directx12/main.cpp:717-761 | with the corrected worker, a failed open enables the DX11 apply step, and on DX12 the submit step with no bytes |
| Renderer.Ready | example_win32_directx12/main.cpp:596-600 | the entries ProcessDeferredTextureFrees frees all have fence values the GPU has reached |
| Renderer.Pending | example_win32_directx12/main.cpp:601-604 | the entries it keeps all have fence values the GPU has not reached |
| Renderer.ReadyPendingSplit | example_win32_directx12/main.cpp:594-605 | every queued entry is freed or kept, never both |
| Renderer.ReadyPendingSnoc | example_win32_directx12/main.cpp:582-587 | an entry appended by DeferFreeTexture later goes to exactly one of the two lists, according to its fence value |
| Renderer.DeferredSlotsSplit | example_win32_directx12/main.cpp:594-605 | freeing the ready entries and keeping the rest neither loses nor duplicates a descriptor slot |
| Renderer.FailedLoadThenSwapFreesTwice | example_win32_directx12/main.cpp:1359-1379 | as written, a failed frame load followed by SwapLoadingIconTheme (lines 1206-1207) puts the frame's slot on the free list twice, which no heap of any size can hold |
| Renderer.FinalizeThenShutdownFreesTwice | example_win32_directx12/main.cpp:1089-1100 | as written, finalize frees the old background's base slot by id but leaves it in `bg`, and the shutdown FreeTexture(bg) (lines 2577-2581) frees it a second time |
| Renderer.ConsistentInitially | example_win32_directx12/main.cpp:120-128 | the start-up state, with no records, satisfies the slot invariant over a free list that holds no slot too often |
| Renderer.ConsistentDefer | example_win32_directx12/main.cpp:582-587 | queueing a texture whose slots are handed over keeps the invariant |
| Renderer.ConsistentProcess | example_win32_directx12/main.cpp:590-606 | freeing the ready entries and keeping the pending ones keeps the invariant |
| Renderer.ConsistentJob | example_win32_directx12/main.cpp:1044-1050 | replacing the job keeps the invariant when no slot moves, or when the job takes exactly the slot the free list gives up |
| Renderer.ConsistentBg | example_win32_directx12/main.cpp:1336-1350 | replacing the background keeps the invariant when the old one's slots go back, or when the free list gives up exactly the slots the new one holds |
| Renderer.ConsistentFinalize | example_win32_directx12/main.cpp:1080-1124 | corrected finalize, which frees the whole old background and hands the job's slot to the new one, keeps the invariant |
| Renderer.ConsistentLoading | example_win32_directx12/main.cpp:1352-1400 | new loading-icon records and bare loading frames keep the invariant when the slots of the records are accounted for |
| Renderer.ConsistentRequest | example_win32_directx12/main.cpp:682-714 | a new request drops an upload in flight with its slot (a leak), which keeps the invariant |
| Renderer.ConsistentWorker | example_win32_directx12/main.cpp:717-761 | the worker's delivery keeps the invariant |
| Renderer.ConsistentAbandon | example_win32_directx12/main.cpp:1000-1004 | a submit with no bytes moves no slot and keeps the invariant |
| Renderer.ConsistentSubmit | example_win32_directx12/main.cpp:1008-1050 | a successful submit moves the slot at the back of the free list to the job and keeps the invariant |
| Renderer.ConsistentApplyDX11 | example_win32_directx12/main.cpp:1127-1173 | the DX11 apply step keeps the invariant |
| Renderer.ConsistentSwap | example_win32_directx12/main.cpp:1200-1218 | SwapLoadingIconTheme gives every record's slot back and keeps the invariant |
| Renderer.ConsistentShutdown | example_win32_directx12/main.cpp:2569-2583 | the shutdown release keeps the invariant |
| Renderer.ConsistentPump | example_win32_directx12/main.cpp:1307-1403 | the corrected pump's new records, frames, background and free list satisfy the invariant |
| Renderer.FreeReadyTextures | example_win32_directx12/main.cpp:594-605 | the erase loop keeps exactly Pending, in order, and the free list gains exactly the slots of the Ready entries |
| Renderer.AllocForUpload | example_win32_directx12/main.cpp:1008-1033 | Alloc yields the handle pair of the back slot, and a failed upload frees it again, leaving the free list as it was |
| Renderer.FreeLoadingSrvs | example_win32_directx12/main.cpp:1206-1207 | the release loop appends the slot of every record, in order |
| Renderer.UploadFrame | example_win32_directx12/main.cpp:1357-1389 | corrected frame step: a failed upload leaves the free list and the records unchanged; an uploaded frame takes the back slot, gets a record and a loading frame named by that slot's GPU handle and sized as the upload reports |
| Renderer.UploadFrames | example_win32_directx12/main.cpp:1355-1390 | the k uploaded frames take the k back slots in pop order, the records and frames are exactly those of the uploads, and failed frames leave no trace |
| Renderer.UploadAccounting | example_win32_directx12/main.cpp:1355-1390 | the new records are in the heap, the frames hold no descriptor, and the slots that left the free list are exactly the new records' slots |
| Renderer.FreeFrames | example_win32_directx12/main.cpp:2572-2573 | freeing loading frames without descriptors changes no slot |
| Renderer.ReleaseAtShutdown | example_win32_directx12/main.cpp:2559-2583 | on DX12 the GPU is waited for; the free list gains exactly the background's slots while BgTexture is set, and the background is reset |
| Renderer.BackgroundLoad | example_win32_directx12/main.cpp:1336-1350 | loading the background uses at most two slots, and none when BgTexture is set |
| Renderer.FramesLoad | example_win32_directx12/main.cpp:1352-1390 | one loading frame per accepted upload |
| Renderer.BackgroundLoadSound | example_win32_directx12/main.cpp:1336-1350 | a set BgTexture stays; a null one takes the loaded texture exactly when LoadTexture succeeds; BgTexture stays the id of `bg` and no slot is gained |
| Renderer.FramesLoadSound | example_win32_directx12/main.cpp:1352-1390 | the records stay in the heap, the frames stay bare and follow their records, and the slots that left the free list are those of the new records |
| Renderer.PumpEffectSound | example_win32_directx12/main.cpp:1307-1403 | the corrected pump loads the background as BgLoaded says, builds one frame per accepted upload, and gains no slot |
| Renderer.PumpSlots | example_win32_directx12/main.cpp:1336-1395 | the slot work on the heap follows PumpEffect, and ends with WaitForPendingOperations |
| Renderer.GetBgPath | example_win32_directx12/main.cpp:1416-1451 | the path lies in the assets folder and names a file after it |
| Renderer.BgPathsDistinct | example_win32_directx12/main.cpp:1416-1451 | two themes give the same path if and only if they are the same theme |
| Renderer.LoadingIconFoldersDistinct | example_win32_directx12/main.cpp:1220-1224 | the light and dark loading icons are read from different folders |
| Renderer.Renderer.constructor | example_win32_directx12/main.cpp:85-128 | the globals at start-up: no background, no records, no queue, an idle job; Valid() holds (a valid fence and the slot invariant Consistent) |
| Renderer.Renderer.DeferFreeTexture | example_win32_directx12/main.cpp:582-587 | appends (tex, last signalled fence value) to the queue and keeps Valid() when the caller hands the texture's slots to the queue |
| Renderer.Renderer.ProcessDeferredTextureFrees | example_win32_directx12/main.cpp:590-606 | keeps Valid(); the queue becomes Pending at the GPU's completed value and the free list gains exactly the slots of the Ready entries |
| Renderer.Renderer.RequestBackgroundReload | example_win32_directx12/main.cpp:682-714 | keeps Valid(); the job becomes a fresh request for the path (flags, fence value and handles reset); vsync off, 60 fps and isLoading on, with the cache kept while a reload is in progress |
| Renderer.Renderer.BgReloadWorker | example_win32_directx12/main.cpp:717-761 | keeps Valid(); the corrected worker: nothing unless requested; otherwise the bytes read, or none, and bytes_ready set |
| Renderer.Renderer.SubmitBgUploadDX12 | example_win32_directx12/main.cpp:978-1060 | keeps Valid() while doing what BgUploadSubmitted says: nothing unless DX12, requested, bytes_ready and not submitted; a failed upload changes neither the flags nor the free list; a successful one signals a new fence value, records it and the slot in the job, and sets upload_submitted; empty bytes end the job (the correction) |
| Renderer.Renderer.SubmitSteps | example_win32_directx12/main.cpp:978-1060 | the function's steps, over any state with a valid fence, end as BgUploadSubmitted says and keep the fence valid |
| Renderer.Renderer.FinalizeBgUploadIfReady | example_win32_directx12/main.cpp:1063-1124 | keeps Valid() while doing what BgUploadFinalized says: nothing until upload_submitted and the fence value is reached; then the upload buffer is released, the new texture kept alive and made the background, the three flags cleared and vsync and fps restored from Lcache with isLoading off; the old background is freed whole (the correction) |
| Renderer.Renderer.FinalizeSteps | example_win32_directx12/main.cpp:1063-1124 | the function's steps end as BgUploadFinalized says |
| Renderer.Renderer.ApplyBgReloadDX11IfReady | example_win32_directx12/main.cpp:1127-1173 | keeps Valid() while doing what BgReloadAppliedDX11 says: nothing unless DX11, requested and bytes_ready; then the old background is freed, the job's path loaded and made the background when the load succeeds, the job ends and the settings are restored |
| Renderer.Renderer.ApplySteps | example_win32_directx12/main.cpp:1127-1173 | the function's steps end as BgReloadAppliedDX11 says |
| Renderer.Renderer.DeliverFrameBytes | example_win32_directx12/main.cpp:1295-1298 | keeps Valid(); the loader thread's bytes become the pending frames |
| Renderer.Renderer.PumpTexturesToGPU | example_win32_directx12/main.cpp:1307-1403 | keeps Valid() while doing what TexturesPumped says: nothing unless DX12, textures not ready and frames pending; otherwise the new state is PumpEffect's, the pending frames are taken, the GPU is waited for and the textures are marked ready. The precondition reserves one free slot per pending frame, and two for a null background, before the pump starts. That is sufficient but stronger than the source's IM_ASSERT, which needs one free slot at each Alloc (a failed upload gives its slot back). The 64-slot heap meets it for the 30 or 31 frames |
| Renderer.Renderer.PumpSteps | example_win32_directx12/main.cpp:1307-1403 | the function's steps end as TexturesPumped says and keep the fence valid |
| Renderer.Renderer.SwapLoadingIconTheme | example_win32_directx12/main.cpp:1191-1229 | keeps Valid(); textures not ready, frames and pending bytes cleared; on DX12 every record's slot goes back and the records are cleared; the folder and the frame count (30 light, 31 dark) of the theme |
| Renderer.Renderer.ShutdownTextures | example_win32_directx12/main.cpp:2559-2583 | keeps Valid(); on DX12 the GPU is waited for; the loading frames are dropped; the background's slots go back while BgTexture is set, and BgTexture becomes null |
| Upload.AlignMaskRoundsUp | example_win32_directx12/main.cpp:269 | the 32-bit mask form (x + 255) & ~255 rounds x up to the next multiple of 256 while x + 255 does not wrap |
| Upload.UploadPitch | example_win32_directx12/main.cpp:269 | the pitch is a multiple of 256 with width·4 ≤ pitch < width·4 + 256 |
| Upload.Written | example_win32_directx12/main.cpp:298-299 | what memcpy leaves keeps the buffer's size |
| Upload.Placed | example_win32_directx12/main.cpp:298-299 | the buffer after k iterations of the copy loop keeps its size |
| Upload.ReadBack | example_win32_directx12/main.cpp:298-299 | reading rows back yields rows·rowBytes bytes |
| Upload.PlacedStep | example_win32_directx12/main.cpp:298-299 | one more iteration writes source row y at offset y·pitch, within the buffer |
| Upload.WrittenKeepsRow | example_win32_directx12/main.cpp:298-299 | a later row's memcpy leaves earlier rows unchanged |
| Upload.WrittenRow | example_win32_directx12/main.cpp:298-299 | a row written at y·pitch reads back as row y |
| Upload.PlacedRow | example_win32_directx12/main.cpp:298-299 | after k iterations, row y of the buffer is source row y for every y < k |
| Upload.ReadBackPrefix | example_win32_directx12/main.cpp:298-299 | reading back the first m rows yields the first m·rowBytes source bytes |
| Upload.RowsRoundTrip | example_win32_directx12/main.cpp:269-299 | the round trip: reading the width·4 bytes at each y·pitch back yields the original pixels |
| Upload.Memcpy | example_win32_directx12/main.cpp:299 | the array afterwards is the old contents with src written at off |
| Upload.CopyRows | example_win32_directx12/main.cpp:296-299 | the copy loop leaves the mapped buffer equal to Placed after height rows |
| Glow.PairBatch | example_win32_directx12/glow_pipeline.cpp:543-549 | a batch of two transition barriers applies both in order, and a barrier is reported as mismatched exactly when its declared before-state differs from its resource's state at that point of the batch |
| Glow.GlowPipelineDX12.constructor | example_win32_directx12/glow_pipeline.h:65-88 | a new DX12 glow pipeline has a 0 x 0 size, every object null and every descriptor handle zero |
| Glow.GlowPipelineDX12.Initialize | example_win32_directx12/glow_pipeline.cpp:285-289 | the size becomes 0 x 0 and the pipeline objects are created only when no root signature exists yet |
| Glow.GlowPipelineDX12.Shutdown | example_win32_directx12/glow_pipeline.cpp:291-302 | exactly the non-null objects are released, in field order; afterwards every object is null and the size is 0 x 0, so a second Shutdown releases nothing; the descriptor handles stay as they were |
| Glow.GlowPipelineDX12.CreateTargets | example_win32_directx12/glow_pipeline.cpp:316-358 | a non-positive width or height changes nothing; otherwise the three targets and the RTV heap are the device's, and the three RTVs are one increment apart from the heap start |
| Glow.GlowPipelineDX12.CreateDescriptors | example_win32_directx12/glow_pipeline.cpp:360-387 | nothing changes unless all three targets exist; otherwise the SRV heap is the device's and the CPU and GPU handles of the three SRVs are one increment apart from the heap starts |
| Glow.GlowPipelineDX12.CreatePipeline | example_win32_directx12/glow_pipeline.cpp:389-474 | an existing root signature leaves the pipeline untouched; otherwise the root signature and both pipeline states come from the device |
| Glow.GlowPipelineDX12.Resize | example_win32_directx12/glow_pipeline.cpp:304-314 | an unchanged size with an existing emissive target releases nothing and changes nothing; any other call releases every non-null object, takes the new size and the pipeline, and leaves no targets for a non-positive size or the device's targets, RTVs and (when all targets exist) SRV heap otherwise |
| Glow.GlowPipelineDX12.Rebuild | example_win32_directx12/glow_pipeline.cpp:309-313 | from a released pipeline: the new size, the device's pipeline objects, and targets and descriptors exactly as CreateTargets and CreateDescriptors produce them for that size |
| Glow.GlowPipelineDX12.CreateSized | example_win32_directx12/glow_pipeline.cpp:312-313 | from released targets: none for a non-positive size, otherwise the device's targets and RTVs, and an SRV heap only when all three targets exist |
| Glow.GlowPipelineDX12.RunBlurPass | example_win32_directx12/glow_pipeline.cpp:476-496 | without an input or a blur pipeline nothing is recorded; otherwise one fullscreen pass into the output RTV with the blur pipeline, reading the input SRV, under the direction, radius and intensity given |
| Glow.GlowPipelineDX12.Composite | example_win32_directx12/glow_pipeline.cpp:498-516 | without a composite pipeline nothing is recorded; otherwise one fullscreen pass into the target with the composite pipeline, reading the bloom SRV, with direction (0, 0) |
| Glow.GlowPipelineDX12.BlurStage | example_win32_directx12/glow_pipeline.cpp:543-551 | the two barriers written into Render's array take effect as one batch, followed by the blur pass under RunBlurPass's guard |
| Glow.GlowPipelineDX12.HorizontalStage | example_win32_directx12/glow_pipeline.cpp:536-551 | the emissive UI pass and the horizontal blur into blur A; the emissive target ends a shader resource and blur A a render target, and the barrier for blur A is mismatched exactly when blur A was already a render target |
| Glow.GlowPipelineDX12.VerticalStage | example_win32_directx12/glow_pipeline.cpp:553-561 | the vertical blur from blur A into blur B; blur A ends a shader resource and blur B a render target, and none of its barriers is mismatched |
| Glow.GlowPipelineDX12.CompositeStage | example_win32_directx12/glow_pipeline.cpp:563-579 | blur B returns to a shader resource, the UI is drawn into the main target, then the composite of blur B onto it |
| Glow.GlowPipelineDX12.RecordPasses | example_win32_directx12/glow_pipeline.cpp:536-579 | after the first batch: the glow passes in order, every target left a shader resource, and exactly one added mismatch when the first batch already made blur A a render target |
| Glow.GlowPipelineDX12.Render | example_win32_directx12/glow_pipeline.cpp:518-580 | nothing is recorded without the emissive target, the draw data or the SRV heap; otherwise the emissive UI, horizontal blur, vertical blur, main UI and composite passes in that order, every target ends a shader resource, and exactly one barrier (blur A declared a shader resource at 546-548 after 532 already made it a render target) is mismatched |
| Glow.GlowPipelineDX12.RenderCorrected | example_win32_directx12/glow_pipeline.cpp:524-534 | the same passes and final states as Render with a first batch for the emissive target alone, and then no barrier is mismatched |
| Glow.GlowPipelineDX11.constructor | example_win32_directx12/glow_pipeline.h:27-47 | a new DX11 glow pipeline has a 0 x 0 size and every object null |
| Glow.GlowPipelineDX11.Initialize | example_win32_directx12/glow_pipeline.cpp:61-64 | the shaders and state objects as CreateShaders makes them |
| Glow.GlowPipelineDX11.Shutdown | example_win32_directx12/glow_pipeline.cpp:66-84 | exactly the non-null objects are released in field order; afterwards all are null and the size is 0 x 0 |
| Glow.GlowPipelineDX11.CreateTargets | example_win32_directx12/glow_pipeline.cpp:97-120 | with no size check, the three textures and their RTVs and SRVs are the device's |
| Glow.GlowPipelineDX11.CreateShaders | example_win32_directx12/glow_pipeline.cpp:122-185 | each shader whose source compiled is created anew and otherwise keeps its old value; the sampler, blend state and constant buffer are created only when null |
| Glow.GlowPipelineDX11.Resize | example_win32_directx12/glow_pipeline.cpp:86-95 | an unchanged size with an existing emissive texture changes nothing; otherwise every non-null object is released and everything is rebuilt at the new size, an uncompiled shader staying null |
| Glow.GlowPipelineDX11.Rebuild | example_win32_directx12/glow_pipeline.cpp:90-94 | from a released pipeline: the new size, the device's targets and views, the compiled shaders and the new state objects |
| Glow.GlowPipelineDX11.WriteConstants | example_win32_directx12/glow_pipeline.cpp:189-198 | the constants reach the shader exactly when Map succeeds: on a buffer that exists and with a successful Map outcome; otherwise the bound constants stay |
| Glow.GlowPipelineDX11.RunBlurPass | example_win32_directx12/glow_pipeline.cpp:187-211 | one fullscreen pass into the output with the blur shader and the input SRV, under the new constants when Map succeeds and the previous ones otherwise; the input is unbound afterwards |
| Glow.GlowPipelineDX11.Composite | example_win32_directx12/glow_pipeline.cpp:213-239 | one fullscreen pass of the bloom onto the target with the composite shader and the additive blend state, direction (0, 0) when Map succeeds, then the default blend state again |
| Glow.GlowPipelineDX11.Render | example_win32_directx12/glow_pipeline.cpp:241-270 | nothing without the emissive RTV; otherwise, when the buffer exists and all three Maps succeed, the emissive UI, the horizontal blur from the emissive SRV into blur A, the vertical blur from blur A into blur B, the main UI and the additive composite of blur B; with the emissive RTV, whatever the Maps do, it ends with the default blend state and no input bound |
| Json.Tabs | example_win32_directx12/settings.cpp:9-13 | Indent writes exactly `indent` tab characters, and none for a depth of zero or below |
| Json.EscapeAppend | example_win32_directx12/settings.cpp:40-53 | escaping a string is escaping its characters one at a time and concatenating the results |
| Json.DecodeEscapeChar | example_win32_directx12/settings.cpp:42-52 | a JSON reader decodes each character's escape back to that character, whatever follows it |
| Json.DecodeEscape | example_win32_directx12/settings.cpp:37-57 | decoding what String writes between the quotes gives back the original string, for every string |
| Json.ValidEscapeChar | example_win32_directx12/settings.cpp:42-52 | one escaped character keeps a string body valid JSON exactly when the character is not a control character other than LF, CR and TAB |
| Json.EscapeValid | example_win32_directx12/settings.cpp:37-57 | String's output is a valid JSON string (section 7 of RFC 8259) if and only if its input has no control character other than LF, CR and TAB, since the others are copied raw |
| Json.NarrowUnit | example_win32_directx12/settings.cpp:60-63 | converting a wchar_t to char keeps the low byte of the code unit |
| Json.Narrow | example_win32_directx12/settings.cpp:60-63 | WString passes String a string of the same length whose every char is the low byte of the corresponding code unit |
| Json.Widen | example_win32_directx12/settings.cpp:411-412 | the import widens each byte through a signed char: the same length, ASCII kept, and 128..255 sign-extended into 0xFF80..0xFFFF |
| Json.NarrowWidenUnit | example_win32_directx12/settings.cpp:411-412 | widening the narrowed code unit gives it back exactly when it is ASCII or at least 0xFF80 |
| Json.NarrowWiden | example_win32_directx12/settings.cpp:411-412 | Widen after Narrow, the byte-wise conversions of bg_image_path, is the identity if and only if every code unit is ASCII or at least 0xFF80 |
| Json.NarrowWidenAscii | example_win32_directx12/settings.cpp:411-412 | in particular Widen after Narrow gives an ASCII background image path back unchanged |
| Json.RunAppend | example_win32_directx12/settings.cpp:4-79 | running two call sequences one after the other is running their concatenation |
| Json.RunExtends | example_win32_directx12/settings.cpp:4-79 | the writer only appends: whatever the stream holds stays a prefix after any sequence of calls |
| Json.CallsBalanced | example_win32_directx12/settings.cpp:15-29 | writing any value brings the depth back to where it began and never goes below it: every BeginObject is matched by its EndObject |
| Json.MembersBalanced | example_win32_directx12/settings.cpp:31-35 | writing an object's members, each a Key and its value, leaves the depth unchanged and never drops below it |
| Json.ExportStartsWithBrace | example_win32_directx12/settings.cpp:15-19 | an exported object's text starts with "{" and a line break, so it is never empty |
| Json.ExportsBalanced | example_win32_directx12/settings.cpp:92-307 | both exporters' documents end at depth 0, having never gone below it |
| Json.HvkJsonWriter.constructor | example_win32_directx12/settings.cpp:4-7 | a new writer has an empty stream and depth 0 |
| Json.HvkJsonWriter.Indent | example_win32_directx12/settings.cpp:9-13 | the loop appends the tabs of the current depth and nothing else |
| Json.HvkJsonWriter.BeginObject | example_win32_directx12/settings.cpp:15-19 | the stream gets "{" and a line break and the depth goes one deeper |
| Json.HvkJsonWriter.EndObject | example_win32_directx12/settings.cpp:21-29 | a line break, the tabs of the depth one level back, "}", the optional comma and a line break, and the depth one level back |
| Json.HvkJsonWriter.Key | example_win32_directx12/settings.cpp:31-35 | the tabs of the depth, then the quoted key, a colon and a space |
| Json.HvkJsonWriter.String | example_win32_directx12/settings.cpp:37-57 | the loop appends the quoted, escaped string, the optional comma and a line break; the depth is unchanged |
| Json.HvkJsonWriter.WString | example_win32_directx12/settings.cpp:60-63 | a wide string is written as String writes its narrowed form |
| Json.HvkJsonWriter.Bool | example_win32_directx12/settings.cpp:65-70 | "true" or "false", the optional comma and a line break |
| Json.HvkJsonWriter.Number | example_win32_directx12/settings.cpp:72-78 | the number's text, the optional comma and a line break |
| Json.WriteImVec4 | example_win32_directx12/settings.cpp:81-90 | the four components in brackets, separated by commas, then the optional comma and a line break |
| Json.Perform | example_win32_directx12/settings.cpp:4-90 | each writer call does to the stream and the depth exactly what the call's meaning says |
| Json.Write | example_win32_directx12/settings.cpp:97-189 | an exporter's calls made one after the other leave the writer in the state of the whole sequence |
| Json.Export | example_win32_directx12/settings.cpp:92-191 | the text an exporter takes from the stream is the document's text, and the depth is back at 0 when it is taken |
| Json.ReadImVec4 | example_win32_directx12/settings.cpp:357-375 | anything but an array of exactly four numbers gives the fallback; otherwise the four numbers in order |
| Instance.Signature | example_win32_directx12/settings.cpp:532-540 | the packed signature is 40 bytes: the magic, the version and the hash |
| Instance.InstanceBytes | example_win32_directx12/settings.cpp:625-633 | the file is the JSON, one zero byte and the 40-byte signature |
| Instance.CreateInstanceFile | example_win32_directx12/settings.cpp:571-636 | no file exactly when the hash cannot be computed; otherwise the bytes written, longer than the signature and its separator |
| Instance.ValidateInstanceFile | example_win32_directx12/settings.cpp:639-715 | a file no longer than the signature and its separator, a wrong magic, a version other than 1, a non-zero separator, and a hash that differs from or cannot be computed over the JSON part are each rejected |
| Instance.InstanceBytesParts | example_win32_directx12/settings.cpp:625-633 | in a written file the JSON, the separator, the magic, the version and the hash sit exactly where the validator reads them |
| Instance.ValidateAcceptsExactlySigned | example_win32_directx12/settings.cpp:664-715 | the validator accepts a file if and only if it is a non-empty JSON part, a zero and a signature whose hash is that part's hash |
| Instance.CreatedFileValidates | example_win32_directx12/settings.cpp:571-715 | whenever CreateInstanceFile writes a file, ValidateInstanceFile accepts it |
| Instance.TamperedHashRejected | example_win32_directx12/settings.cpp:703-713 | changing the stored hash of a valid file makes the validator reject it |
| Disk.FsToString | example_win32_directx12/util/disk.h:53-63 | every file system has a CR-free DiskPart name of at least three characters |
| Disk.FsToStringInjective | example_win32_directx12/util/disk.h:53-63 | different file systems get different names |
| Disk.FileSystemOfValue | example_win32_directx12/util/disk.h:39-45 | a cast to FileSystem names an enumerator exactly for the values 0..3, and FsToString returns nullptr for any other |
| Disk.ComboFsAsWrittenMismatch | imgui/custom_widgets.cpp:1136 | as written, the combo's index is cast to FileSystem: entries 0 and 1 send their own names, but the third entry "FAT32" sends "FAT" |
| Disk.ComboFs | imgui/custom_widgets.cpp:1050 | corrected: a name is sent exactly for an index of the combo, and it is the name of the entry chosen |
| Disk.SuffixIndex | example_win32_directx12/util/disk.h:65-79 | the suffix index is at most 4 (TB), the size reaches 1024 to that power, and stays below the next power unless the suffix is TB |
| Disk.SuffixIndexUnique | example_win32_directx12/util/disk.h:65-79 | only one index meets the suffix rule for a given size |
| Disk.SizeTextInjective | example_win32_directx12/util/disk.h:65-79 | before rounding, different sizes print differently |
| Disk.ScaledStep | example_win32_directx12/util/disk.h:72-76 | each division by 1024 in the loop is one more power of 1024, and the loop test compares the size with the next power |
| Disk.StaticBuffer.constructor | example_win32_directx12/util/disk.h:67 | the static buffer starts empty |
| Disk.BytesToStr | example_win32_directx12/util/disk.h:65-79 | the loop stops at the suffix SuffixIndex picks, and the buffer holds the size divided by 1024 to that power, with that suffix |
| Disk.VolumeRowAsWrittenLoses | imgui/custom_widgets.cpp:449-455 | as written, both fields of a volume row show the buffer left by the later BytesToStr call: for either argument order, two volumes that differ in one size show the same row |
| Disk.DrawVolumeRowAsWritten | imgui/custom_widgets.cpp:449-455 | both shown fields are the text of whichever size was formatted second |
| Disk.VolumeRowDetermines | imgui/custom_widgets.cpp:449-455 | corrected: the row determines both the free and the total size |
| Disk.DrawVolumeRow | imgui/custom_widgets.cpp:449-455 | corrected: copying each result out before the next call shows each size's own text |
| Disk.NarrowChar | example_win32_directx12/util/disk.cpp:164 | the (char) cast keeps a letter below 256 unchanged |
| Disk.RecreateShape | example_win32_directx12/util/disk.cpp:148-172 | the appended pieces of a recreate script are exactly its eight CRLF-terminated lines, none holding a CR |
| Disk.BuildDiskPartRecreateScriptLines | example_win32_directx12/util/disk.cpp:690-720 | the wide recreate script reads back as select disk N, attributes disk clear readonly, clean, convert mbr, create partition primary, the format line with " quick" and the quoted label when asked for, assign (with the letter when one is forced), exit |
| Disk.RecreateDiskAndFormatLines | example_win32_directx12/util/disk.cpp:136-175 | RecreateDiskAndFormat sends the same lines with "convert gpt" when gpt is set, and for MBR the same script as BuildDiskPartRecreateScript |
| Disk.ConvertShape | example_win32_directx12/util/disk.cpp:125-130 | the convert script is five CRLF-terminated lines without CR |
| Disk.ConvertScriptsLines | example_win32_directx12/util/disk.cpp:120-133 | both convert scripts read back as select disk N, attributes disk clear readonly, clean, convert, exit, converting to GPT exactly when asked to, and they agree whenever the flag and the enum name the same scheme |
| Disk.DeletePartitionLines | example_win32_directx12/util/disk.cpp:743-755 | DeletePartition sends four lines, and the partition number on the second reads back as the zero-based index plus one |
| Disk.CreatePartitionHead | example_win32_directx12/util/disk.cpp:769-794 | the pieces up to assign are the five lines select disk, create partition (with size only when non-zero), select volume last, format, assign |
| Disk.CreatePartitionScriptLines | example_win32_directx12/util/disk.cpp:757-806 | CreatePartition sends select disk N, create partition primary with size=N only for a non-zero size, select volume last, a format line without a label, assign, a label line only for a non-empty label, and exit |
| Disk.RenameVolumeScript | example_win32_directx12/util/disk.cpp:814-815 | no script exactly when the drive letter is 0 or the new label is empty |
| Disk.RenameVolumeLines | example_win32_directx12/util/disk.cpp:809-829 | a rename script reads back as select volume X, label L, exit |
| Disk.ExtractDriveLetter | example_win32_directx12/util/disk.cpp:299-305 | a letter is returned exactly when the root starts with an ASCII letter, and it is that letter in upper case; otherwise 0 |
| Disk.DriveLetterRoundTrip | example_win32_directx12/util/disk.cpp:299-305 | the letter extracted from "X:\" is X, and upper-casing the root changes nothing |
| Disk.IsIsoLikeFs | example_win32_directx12/util/disk.cpp:589-592 | only names of three or four characters are ISO-like |
| Disk.IsIsoLikeFsUpper | example_win32_directx12/util/disk.cpp:589-592 | a name is ISO-like if and only if its upper-cased form is "CDFS" or "UDF" |
| Text.Digits | example_win32_directx12/util/disk.cpp:749 | std::to_string of a non-negative number is a non-empty string of decimal digits |
| Text.ParseDigitsOfDigits | example_win32_directx12/util/disk.cpp:749 | reading the printed digits back gives the number |
| Text.DecimalText | example_win32_directx12/util/disk.cpp:750 | a printed int is non-empty and made of digits and a minus sign |
| Text.DecimalTextRoundTrip | example_win32_directx12/util/disk.cpp:750 | the text starts with '-' exactly for negatives, and reading the digits back gives the number |
| Text.SplitJoin | example_win32_directx12/util/disk.cpp:749-752 | lines without CR, each followed by CRLF, split back into exactly those lines |
| Text.LastSep | example_win32_directx12/util/system.cpp:403-410 | the position found is the last occurrence of the separator, or -1 when there is none |
| Text.SplitJoinWith | example_win32_directx12/util/system.cpp:403-410 | fields without the separator, joined with it, split back into exactly those fields |
| Text.Upper | example_win32_directx12/util/disk.cpp:303 | upper-casing keeps the length and folds each ASCII lower-case letter |
| Text.LowerOfUpper | example_win32_directx12/util/disk.cpp:591 | upper-casing does not change a character's lower-case form, so case-blind comparison ignores it |
| Display.DedupKeys | example_win32_directx12/util/system.cpp:15-29 | the de-duplicated list has exactly the keys of its input: nothing is lost and nothing is invented |
| Display.DedupNoRepeat | example_win32_directx12/util/system.cpp:15-29 | no key occurs twice in the de-duplicated list |
| Display.DedupIsFirsts | example_win32_directx12/util/system.cpp:15-29 | the de-duplicated list is the first entry of each key, in input order |
| Display.UniqueResolutions | example_win32_directx12/util/system.cpp:10-32 | with the inner search loop, the result is the input de-duplicated by (Width, Height) |
| Display.EnumerateResolutions | example_win32_directx12/util/system.cpp:75-97 | the modes the driver reports, de-duplicated by (Width, Height, Refresh), in the order they are reported |
| Display.FilterByAspect | example_win32_directx12/util/system.cpp:126-151 | the result is the entries passing the aspect test of the index, in order |
| Display.KeptByAspectMembers | example_win32_directx12/util/system.cpp:132-148 | an entry is kept if and only if it is in the input and passes the test of 16:9, 16:10, 4:3 or 21:9 by index |
| Display.KeptByAspectProperties | example_win32_directx12/util/system.cpp:134-141 | an index outside 0..3 keeps every entry, filtering twice is filtering once, and the result is never longer than the input |
| Display.InsertSorted | example_win32_directx12/util/system.cpp:60 | inserting a new value into an ascending list gives an ascending list of one more element, holding the old ones and the new one |
| Display.SortAscending | example_win32_directx12/util/system.cpp:60 | sorting a list without repeats gives a strictly ascending list of the same length and the same elements |
| Display.AscendingUnique | example_win32_directx12/util/system.cpp:60 | two ascending lists with the same elements are equal, so the refresh list is determined by the set of rates |
| Display.ResolutionUI.constructor | example_win32_directx12/util/system.h:21-33 | a new picker has aspect and resolution index 0, a selected refresh of 60, empty lists and no pending confirmation |
| Display.ResolutionUI.UpdateRefreshRates | example_win32_directx12/util/system.cpp:35-65 | with no filtered resolutions the list is empty and the selection kept; otherwise the list is strictly ascending and holds exactly the rates of all modes (not only the filtered ones) sized like the selected resolution, and a non-empty list snaps the selection to its smallest rate |
| UsbHelper.FindFrom | example_win32_directx12/util/system.cpp:392-393 | find from a position returns the first match at or after it, or none when no match follows |
| UsbHelper.Find | example_win32_directx12/util/system.cpp:392-393 | find returns the first position where the pattern occurs, npos when it never does |
| UsbHelper.Substr | example_win32_directx12/util/system.cpp:398-399 | substr returns at most n characters |
| UsbHelper.ExtractVidPid | example_win32_directx12/util/system.cpp:390-401 | the call succeeds exactly when both "VID_" and "PID_" occur; on failure vid and pid are unchanged; on success each is the up to four characters after the first occurrence of its tag |
| UsbHelper.FindFirstAt | example_win32_directx12/util/system.cpp:392-393 | a match with no earlier occurrence of the pattern's first character is what find returns |
| UsbHelper.ExtractVidPidOfInstanceId | example_win32_directx12/util/system.cpp:390-401 | an instance id of the form ...VID_xxxx...PID_yyyy... with no earlier false start yields exactly the two four-character ids |
| UsbHelper.ExtractVidPidMissingTag | example_win32_directx12/util/system.cpp:395-396 | an id without a VID_ tag fails and leaves the out-parameters as they were |
| UsbHelper.CompositeKeyFields | example_win32_directx12/util/system.cpp:403-410 | while no field holds a '\|', splitting the key at '\|' gives back the five fields in order |
| UsbHelper.CompositeKeyInjective | example_win32_directx12/util/system.cpp:403-410 | for such fields equal keys mean equal signatures, which match |
| UsbHelper.UsbMatches | example_win32_directx12/util/system.cpp:592-602 | a match requires equal VID and PID, then equal serials when both have one, and otherwise equal manufacturer and product |
| UsbHelper.UsbMatchesEquivalence | example_win32_directx12/util/system.cpp:592-602 | the match is reflexive and symmetric |
| UsbHelper.UsbMatchesNotTransitive | example_win32_directx12/util/system.cpp:597-601 | it is not transitive: a device without a serial matches two devices whose serials differ |
| Widgets.SnapStartUnique | imgui/custom_widgets.cpp:45-65 | the starting-index rule (first exact match, else first nearest value, else 0) singles out one index |
| Widgets.SnapStartIndex | imgui/custom_widgets.cpp:45-65 | the search loop with its early break on an exact match and the min_distance fallback lands on that starting index |
| Widgets.IntCell.constructor | imgui/custom_widgets.cpp:40 | the int the slider edits holds its initial value |
| Widgets.SnapSlider | imgui/custom_widgets.cpp:40-89 | nothing happens for an empty list or a null pointer; otherwise the slider starts at the snap index, and *v is written with the chosen snap value, and true returned, exactly when the user moved the slider to another index inside the list |
| Widgets.ImClamp | imgui/custom_widgets.cpp:553 | the clamped value lies in [mn, mx] when mn <= mx, is v when v is already inside, and is always one of v, mn and mx |
| Widgets.ImClampNearest | imgui/custom_widgets.cpp:553 | the clamp is the point of [mn, mx] nearest to v, and clamping twice is clamping once |
| Widgets.SkipSpaces | imgui/custom_widgets.cpp:552 | atoi's skip of leading white space leaves a suffix of the text that does not start with white space |
| Widgets.DigitRun | imgui/custom_widgets.cpp:552 | the digits atoi reads run exactly up to the first non-digit |
| Widgets.AtoiOfDecimal | imgui/custom_widgets.cpp:544-552 | atoi reads back exactly the int that "%d" printed, negative ones included |
| Widgets.SliderEdit.constructor | imgui/custom_widgets.cpp:521-522 | the edit state starts not editing with an empty buffer |
| Widgets.SliderEdit.BeginEdit | imgui/custom_widgets.cpp:541-545 | the E button starts editing with the current value printed into the buffer |
| Widgets.SliderEdit.Type | imgui/custom_widgets.cpp:549-550 | typing replaces the buffer |
| Widgets.SliderEdit.Confirm | imgui/custom_widgets.cpp:560-566 | Enter or OK writes back the buffer parsed by atoi and clamped into [mn, mx], ends editing and reports a change |
| Widgets.ConfirmUntouched | imgui/custom_widgets.cpp:541-566 | confirming an edit without typing clamps the value it started from, so an in-range value is kept |
| Widgets.UnallocatedSpace | imgui/custom_widgets.cpp:957-973 | the loop over the partitions computes the unallocated figure: 0 without a valid disk, otherwise the disk size less the partitions above 1 MiB when they are smaller |
| Widgets.UnallocatedBounds | imgui/custom_widgets.cpp:946-973 | the figure is 0 without a valid disk, never exceeds the disk, and when positive it is exactly what the counted partitions leave of it |
| Widgets.UsedSpaceAppend | imgui/custom_widgets.cpp:963-967 | the used space of two partition lists is the sum of theirs |
| Widgets.UnallocatedAddPartition | imgui/custom_widgets.cpp:963-967 | a partition of at most 1 MiB never changes the figure, and no added partition raises it |
| Widgets.CreatePartitionEnabledRoom | imgui/custom_widgets.cpp:1081-1088 | the Create Partition button is enabled exactly for a valid disk whose counted partitions leave at least 1 MiB |
| Widgets.DiskSelection.constructor | example_win32_directx12/util/disk.h:34-36 | nothing is selected (every index is -1) |
| Widgets.DiskSelection.SelectPhysical | imgui/custom_widgets.cpp:413-418 | a physical-disk row selects that disk and clears the volume and partition selections |
| Widgets.DiskSelection.SelectVolume | imgui/custom_widgets.cpp:442-447 | a volume row selects that volume and clears the physical and partition selections |
| Widgets.DiskSelection.SelectPartition | imgui/custom_widgets.cpp:472-476 | a partition row selects that partition and clears the volume selection, keeping the physical disk; a selected volume stays exclusive |
| Widgets.FormatSelection.constructor | example_win32_directx12/settings.h:23-24 | no disk and no partition is selected |
| Widgets.RefreshFlag.constructor | example_win32_directx12/settings.h:59 | a refresh is pending at start |
| Widgets.RefreshDisks | imgui/custom_widgets.cpp:1246-1251 | the Refresh Disks button requests a refresh and clears both format selections |
| Widgets.SelectFormatDisk | imgui/custom_widgets.cpp:879-885 | a disk row selects the disk for formatting, clears the partition and moves the application's physical selection to it |
| Widgets.SelectFormatPartition | imgui/custom_widgets.cpp:914-918 | a partition row moves both partition selections to it |
| Theme.SecondaryColorOfValue | example_win32_directx12/util/theme_helper.cpp:5-24 | every colour is opaque, and a value outside 0..5 gets the purple of the default branch |
| Theme.GetSecondaryColorForTheme | example_win32_directx12/util/theme_helper.cpp:5-24 | every theme colour is opaque and PURPLE gets purple |
| Theme.SecondaryColorTable | example_win32_directx12/util/theme_helper.cpp:9-20 | each theme gets the colour listed for it in the switch |
| Theme.SecondaryColorsDistinct | example_win32_directx12/util/theme_helper.cpp:9-20 | different themes get different colours |
| Theme.UserObject.constructor | example_win32_directx12/util/theme_helper.cpp:26 | the user object holds the style it was given |
| Theme.UpdateSecondaryColorFromTheme | example_win32_directx12/util/theme_helper.cpp:26-33 | a null user changes nothing; otherwise the secondary colour and the selected-tab colour both become the current theme's colour and no other field changes |
| Theme.UpdateIdempotent | example_win32_directx12/util/theme_helper.cpp:31-32 | after the update both colours agree with the theme, and a second update changes nothing |
| Emissive.GrowCapacity | imgui/hvk_gui.cpp:31-38 | the grown capacity holds the new size, and a first push reserves 8 |
| Emissive.FullPushInvalidates | imgui/hvk_gui.cpp:31-38 | a push onto a full binding list moves it to a new block, so every address handed out before dangles |
| Emissive.AllocateTimesInBlock | imgui/hvk_gui.cpp:31-38 | up to eight bindings of one frame stay in the block that its first binding reserved |
| Emissive.NinthBindingDanglesFirst | imgui/hvk_gui.cpp:18-39 | as written, the first emissive image of a frame is still live after eight bindings, and its draw command's address dangles once the ninth is made |
| Emissive.AllocateStableResult | imgui/hvk_gui.cpp:18-39 | disabled options (no options, no emissive texture, or strength not above 0) change nothing and give no binding; otherwise the list is cleared on a new frame and the returned address holds the new binding with the magic "HVKE" |
| Emissive.AllocateStableKeepsRefs | imgui/hvk_gui.cpp:23-38 | corrected: within a frame every address handed out earlier stays live and keeps its binding |
| Emissive.EmissiveBindings.constructor | imgui/hvk_gui.cpp:15-16 | the cache starts empty, before any frame |
| Emissive.EmissiveBindings.Allocate | imgui/hvk_gui.cpp:18-39 | the corrected allocation, keeping the list to the current frame's bindings |
| Emissive.EmissiveBindings.ResolveTexture | imgui/hvk_gui.cpp:201-202 | the draw command gets a binding's address exactly when the options are enabled, a live address holding the texture and the options; otherwise the texture id itself |
| Backend.IsDX12 | imgui/hvk_gui.cpp:618-626 | the DX12 query holds exactly when the DX11 query does not, for every back end |
| Backend.IsDX11 | imgui/hvk_gui.cpp:618-626 | the DX11 query holds exactly for the back end other than DX12 |

## Left out

- Direct3D 11/12 and DXGI work is outside the model: devices, heaps, queues, command lists, the swap chain, GetCopyableFootprints and the HLSL shaders. A device call becomes a parameter that says whether it succeeded and what handle it returned. Handles and pointers are `nat`, with 0 for null.
- Threads and synchronisation are outside the model: the texture thread, the detached `BgReloadWorker`, the sleeps, mutexes, atomics and the Win32 waits. The worker's delivery of the file's bytes and the GPU's fence progress are separate environment steps (`Renderer.Renderer.BgReloadWorker`, `FrameSync.FenceTimeline.GpuProgress`), and interleavings within a step are not modelled.
- File and OS I/O is outside the model: fopen/fread, CreateFile/ReadFile, the DeviceIoControl disk and volume queries, the SetupAPI USB walk, EnumDisplaySettings, and the DiskPart process with its pipe. Each script builder returns the script text, and running it is not modelled.
- Image decoding (stb_image, WIC) is an oracle. It returns the decoded size and the outcome of each creation step, or a failure.
- SHA-256 (FIPS 180-4) is computed through BCrypt in the source. Here it is the parameter `sha`, a function of the bytes that may fail. Nothing is assumed about it except that it is deterministic.
- nlohmann::json parsing is outside the model. The importers are modelled only as far as the `ReadImVec4` shape check and the widening of imported wide strings. The other importers' field-by-field copies are not modelled.
- Json.NarrowWiden: states the byte-wise conversions only, not a file's round trip. Between export and import the text goes through `json::parse` (settings.cpp:396-400), which may reject a narrowed path whose bytes are not UTF-8, and the parser is not modelled.
- UTF-8 and ANSI conversions (ToWString, WStringToUtf8, Disk::WToUtf8, CharToWString, AnsiToWide) are taken as the identity on `seq<char>`.
- Floating point becomes exact reals, or is a parameter. This covers the blur weights and radius, FPSLimiter timing, the CPU usage figure, the GiB slider conversion, SnapSliderFloat, and the `%.2f` text of BytesToStr (only the integer suffix rule is modelled). It also covers how the stream prints a float in WriteImVec4 and the user-settings export (a `floatText` parameter).
- ImGui drawing, fonts, layout, the window procedure, the frame loop and the hotkeys are outside the model. A widget's interaction result (a slider's new index, a click, a typed text) is a parameter.
- web_helper.cpp is a network client and is not part of this model.
- Integer widths are unbounded except where a property depends on the width: the 32-bit frame index, the bv32 pitch mask, the u16 version of the instance signature, and the wide code units of WString. The aspect tests of `FilterByAspect` (`w*9 == h*16` and the others) do not model 32-bit overflow, because real display sizes do not reach it. `SnapSlider`'s `abs(a - b)` is taken without the 32-bit overflow of `abs(INT_MIN)`, and `Widgets.Atoi` without the undefined behaviour of `atoi` on an overflowing value.
- Display.ResolutionUI.UpdateRefreshRates: `std::sort` of the collected rates is modelled by an insertion into a sorted list. The contract states the sorted, duplicate-free result, not the sort algorithm.
- UsbHelper: the GUID, driver key and hash fields of UsbSignature are not read by `ExtractVidPid`, `BuildCompositeKey` or `UsbMatches`, and the model leaves them out.
- Disk script builders: the lemmas that split a script back into its lines require the label, the file-system name and the drive letter to hold no CR. A label holding a CR would give DiskPart an extra line, and for such labels the model states only the text. The narrow RecreateDiskAndFormat script casts the wide drive letter to `char`, which `Disk.NarrowChar` models as the value mod 256. The line lemmas for that script require a letter below 256.
- Widgets.SelectFormatDisk: the reload of the partition list that follows a disk change is not modelled, only the selection fields. Selecting a disk in the format row leaves the volume selection as it was, as the source does.
- Emissive: the renderer's decoding of a binding address (`ImTextureIdHasEmissive` and the bind in the render loop) is not modelled. A binding reference is a block and an index. ImVector's reallocation rule comes from Dear ImGui's imgui.h, which is not part of this model: a full vector moves to a new block of 1.5 times its capacity, or 8 when it is empty.
- Renderer.Renderer.ShutdownTextures includes the WaitForPendingOperations call that precedes it at main.cpp:2559-2560.
- Renderer.Renderer.SubmitBgUploadDX12: in the corrected model, a submit that finds no bytes ends the job (clears its flags and restores the settings). A failed open reaches this case through the corrected worker, and a zero-byte file reaches it even as written. As written, the function only returns at main.cpp:1000-1004 (Renderer.SubmitJobAsWritten).
- Glow: only the commands that decide what a pass reads and writes are recorded: targets, shader, input, constants, blend state and barriers. Viewports, scissor rects, root-signature bindings and the vertex counts of the draws are not recorded.

## Findings

| source | as written | input that shows it | evidently intended | confidence | as-written member | corrected member |
|---|---|---|---|---|---|---|
| example_win32_directx12/main.cpp:1359-1379 | a loading frame's slot is appended to `g_dx12LoadingSrvs` before the upload; when the upload fails the slot is freed at once, but it stays in the list, and `SwapLoadingIconTheme` (main.cpp:1206-1207) frees every listed slot again | one loading frame whose upload fails, then a theme swap | record the slot only after the upload succeeds, so that each slot is freed once | not executed | Renderer.FailedLoadThenSwapFreesTwice | Renderer.UploadFrames |
| example_win32_directx12/main.cpp:1089-1100 | finalize frees the old background's base slot by its id, but `bg` still holds the texture, so the shutdown `FreeTexture(bg)` (main.cpp:2577-2579) frees the same slot a second time | one completed background reload, then shutdown | free the old background whole and replace it, so that nothing is left holding its slots | not executed | Renderer.FinalizeThenShutdownFreesTwice | Renderer.ConsistentFinalize |
| example_win32_directx12/main.cpp:702-707 | every request caches the current vsync and target fps, which a pending request has already forced to false and 60 | two reload requests before the first finishes, with the user's settings vsync on and 120 fps | keep the cache of the request in progress, so that finalize restores the user's settings | not executed | Renderer.SecondRequestLosesSettings | Renderer.RequestsRestoreUserSettings |
| example_win32_directx12/main.cpp:736-741 | when the file cannot be opened the worker returns without setting `bytes_ready`, so no later step can finish the job and `isLoading` stays true | a reload request whose path cannot be opened | report the failure (bytes_ready with no bytes) so that the job ends and the settings are restored | not executed | Renderer.FailedOpenLeavesLoadingStuck | Renderer.FailedOpenEnablesCompletion |
| example_win32_directx12/main.cpp:1000-1004 | a file of zero bytes is read (main.cpp:743-758) as an empty buffer with bytes_ready set; the DX12 submit then returns on every frame without touching the job, so no upload is submitted and isLoading stays set | a reload request whose file is empty, on DX12 | end the job when there are no bytes, so that the settings are restored | not executed | Renderer.EmptyFileLeavesLoadingStuck | Renderer.Renderer.SubmitBgUploadDX12 |
| example_win32_directx12/glow_pipeline.cpp:531-548 | the first barrier batch moves both the emissive target and BlurATex to RENDER_TARGET; the later barrier before the horizontal pass still declares BlurATex PIXEL_SHADER_RESOURCE | any Render call that records the glow passes (emissive target, draw data and SRV heap present) | the first batch transitions only the emissive target, so that each barrier's before-state is the state its resource is in | not executed | Glow.GlowPipelineDX12.Render | Glow.GlowPipelineDX12.RenderCorrected |
| imgui/custom_widgets.cpp:1136 | the combo index is cast to `FileSystem`, but the labels are NTFS, exFAT, FAT32 while the enumeration is NTFS, exFAT, FAT, FAT32; the same cast feeds CreatePartition here and RecreateDiskAndFormat at custom_widgets.cpp:1224 | combo index 2, shown as "FAT32", formats as "FAT" | the file-system name sent is the label chosen | not executed | Disk.ComboFsAsWrittenMismatch | Disk.ComboFs |
| imgui/custom_widgets.cpp:449-455 | both BytesToStr results passed to one Text call point at the same static buffer, so the row shows one size twice | with the total formatted last, a volume with 0 of 1024 bytes free and one with 1 of 1024 bytes free show the same row | copy each result out before the next call, so that each field shows its own size | not executed | Disk.VolumeRowAsWrittenLoses | Disk.VolumeRowDetermines |
| imgui/hvk_gui.cpp:18-39 | AllocateEmissiveBinding returns the address of the last element of an ImVector that grows by reallocation; the ninth push of a frame moves the vector and frees the block the earlier addresses point into, before the frame's draw data is rendered | nine enabled emissive images drawn in one frame | storage that keeps its elements in place for the whole frame, so that every address handed out stays valid until the list is cleared | not executed | Emissive.NinthBindingDanglesFirst | Emissive.AllocateStableKeepsRefs |
