# Verified models of Android's camera client library and media command-line tools

This project models the stateful parts of the `camera` library and of the `stagefright` and
`screenrecord` commands of Android's `frameworks/av`, and proves properties that hold over whole
runs. `dafny verify dfyconfig.toml` checks everything.

Each module pairs a specification over plain values (the functions) with the code (classes and
methods with loops and fields, as in the source). The methods are proved equal to the functions;
the theorems are about the functions and quantify over all inputs, all runs or all reachable
states.

| file | models |
|---|---|
| `RecordingFrames.dfy`, `RecordingTheorems.dfy`, `RecordingRoutes.dfy`, `RecordingCode.dfy` | the protocol that passes recording frames between camera service, application and media server; every hop duplicates a native handle |
| `SimplePlayer.dfy`, `SimplePlayerRuns.dfy`, `SimplePlayerTimes.dfy`, `SimplePlayerCode.dfy` | the message-driven player: its state machine with self-reposting work messages |
| `PlayerInput.dfy`, `PlayerTrack.dfy`, `PlayerTiming.dfy`, `PlayerFrames.dfy` | its codecs: the feeding of samples, and per track the list of output buffers and the audio output with wrapping counters |
| `CameraMetadata.dfy`, `MetadataObject.dfy` | a growing buffer of tagged entries that has to behave as a map, and the object around it |
| `PermissionRemoval.dfy` | the bulk removal of entries and the signed and unsigned sorting in it |
| `MetadataParcel.dfy` | the aligned blob metadata travels in |
| `VendorTags.dfy`, `VendorTagWire.dfy`, `VendorTagParcels.dfy`, `VendorTagReading.dfy`, `VendorTagCache.dfy`, `VendorTagTable.dfy` | the tables of vendor tags, their reverse index and the wire format without it |
| `TagNames.dfy` | the resolution of full tag names by longest section |
| `Numerals.dfy`, `ParameterMaps.dfy`, `ParameterMeaning.dfy`, `StringOrder.dfy` | string parameters: number printing and parsing, flatten and unflatten, sorted and set-ordered maps |
| `TextWrap.dfy`, `TextLines.dfy` | line wrapping |
| `FrameOutput.dfy` | in-place pixel reduction and framed output |
| `DecodeLoop.dfy`, `DecodeRenders.dfy`, `CodecInput.dfy` | the multi-track decode loop, and what the codecs of both players are given |
| `Wrappers.dfy`, `Arithmetic.dfy` | shared helpers |

## Where the code does less than it promises

These properties are false of the code in general. The model keeps the code as it is; one lemma
gives the exact condition under which the property holds, another one an input for which it fails.

- Releasing recording frames loses frames and leaks handles exactly in runs in which the camera is
  disconnected at a release or a null handle is read (`RecordingTheorems.LossExactly`; a frame that
  is under way while the camera is disconnected: `RecordingTheorems.LossExample`).
- The player aborts on a short audio write exactly for a buffer that ends inside a frame and would
  fit (`PlayerTrack.AbortsExactly`). It never does if all buffers of a run hold whole frames of one
  size (`PlayerFrames.WholeFramesNeverAbort`). One size is needed: a buffer of twelve bytes that is
  part-written to a track with frames of four bytes aborts on the next track if its frames have six
  (`PlayerFrames.TwoSizesAbort`).
- `removePermissionEntries` sorts the removed tags as signed numbers and subtracts them from keys
  sorted as unsigned ones. Once a vendor tag was removed, the built-in tags that were removed too
  stay in the keys (`PermissionRemoval.KeysRightExactly`, `PermissionRemoval.KeysWrongExample`).
- Erasing a tag uncovers a second entry of the same tag (`CameraMetadata.EraseUncovers`; an entry
  that was appended twice: `CameraMetadata.EraseExample`).
- A vendor descriptor is read back exactly if no tag is listed twice and no name is empty
  (`VendorTagWire.ReadSucceedsExactly`, `VendorTagWire.NotReadBackExample`), and its index is
  restored exactly if the tag listed last for a label is the largest one with it
  (`VendorTagWire.RoundTripExactly`, `VendorTagWire.RoundTripExample`).
- The check on the number of sections in a parcel is computed in 32 bits, section names that come
  twice are kept once, and a later entry for a tag replaces an earlier one. Reading a parcel leads
  outside the section list exactly if the check passes, enough names follow, and some tag's last
  section number is not below the number of different names; it ends the process exactly if the
  check passes with no section at all (`VendorTagParcels.LeavesRangeExactly`,
  `VendorTagParcels.OutOfRangeExample`, `VendorTagParcels.FatalExample`).
- A text with a key twice puts two entries for it into the map in setting order; a key that is set
  becomes the latest, and a key that is removed is gone, exactly if it was there at most once
  (`ParameterMaps.SetIsLatestExactly`, `ParameterMaps.RemoveIsGoneExactly`,
  `ParameterMaps.SetOrderExample`).
- Line wrapping runs past the terminator exactly if the last character is wider than the line it is
  alone on and is not skipped at a break. Before the call this can be told from the end of the text
  (`TextWrap.OverrunByEnd`), and for a text that ends in two whitespace characters from the layout
  of the text without its last character (`TextWrap.OverrunByText`, for every text;
  `TextWrap.OverrunExample`).
- The decode loop uses -1 for "no render anchor yet", but -1 is a possible anchor; buffers are
  evenly spaced exactly if the first one does not produce it, or all do (`DecodeLoop.RenderTimes`,
  `DecodeLoop.UnevenExample`).
- Resetting an unprepared player does nothing and is answered with OK, and a successful
  setDataSource is answered with a variable that was never assigned (`SimplePlayer.AnswersTell`,
  `SimplePlayer.AnswersExample`).

Two round trips hold on all values the code can be given; their theorems also say how far the
formats reach. A frame packet is read back exactly if its length fits 32 bits
(`FrameOutput.PacketRoundTripExactly`); the code multiplies width and height as signed 32-bit
numbers before that. Metadata is read back from its parcel exactly if it is not empty, which its
header rules out, and the blob's size survives the conversion to a signed 32-bit number and back
(`MetadataParcel.RoundTripExactly`).

## Model

| member | source | states |
|---|---|---|
| `RecordingTheorems.ClosedExactlyOnce` | camera/Camera.cpp:400-458 | in every interleaving of callbacks, listener changes, releases and disconnections no process closes a handle twice or one that is not its own, and every open handle has exactly one owner or was leaked |
| `RecordingTheorems.ReturnedAtMostOnce` | camera/ICamera.cpp:163-192 | every frame the service handed out returns in at most one release transaction, and not while it is still under way |
| `RecordingTheorems.QuiescentExactlyOnce` | camera/ICameraRecordingProxyListener.cpp:53-95 | without a losing step, once nothing is in flight every duplicate was closed exactly once and every frame came back exactly once |
| `RecordingTheorems.LossExactly` | camera/Camera.cpp:235-249 | a run loses a frame exactly if a step drops a batch (null handle read, camera disconnected), and leaks a handle exactly if the dropped batch had handles in it |
| `RecordingTheorems.LossExample` | camera/Camera.cpp:235-249 | a frame that is sent, and arrives when the camera is disconnected and nobody listens, is lost and its handle leaked |
| `RecordingTheorems.EveryRunCanFinish` | camera/ICameraRecordingProxy.cpp:74-103 | after every run that leaves the camera connected there is a loss-free way to bring everything back |
| `RecordingRoutes.FirstSection` | camera/Camera.cpp:429-444 | the first lock section of the callback hands the batch to one thread, and nothing else happens |
| `RecordingRoutes.ProxyRoute` | camera/Camera.cpp:400-444 | a batch whose first lock section sees a proxy listener makes, whatever happens in between, exactly one transaction to the media server with its times and frames in order; no listener of the app gets it and nothing releases it |
| `RecordingRoutes.ListenerRoute` | camera/Camera.cpp:446-458 | without a proxy listener the handles go one by one to the listener that is set at the second lock section, or, if none is, to the release function |
| `RecordingRoutes.ReleaseRoute` | camera/Camera.cpp:235-249 | a release makes one transaction to the service with its frames in order while connected; otherwise its frames are lost and its handles leaked |
| `RecordingRoutes.DeliveryRoute` | camera/ICameraRecordingProxyListener.cpp:115-171 | a transaction that is read becomes the app's callback, one handle each with the media server's listener, or a release, with fresh copies in order |
| `RecordingRoutes.ReturnRoute` | camera/ICamera.cpp:163-192 | the service gets back the frames that a release names |
| `RecordingRoutes.NullRoute` | camera/ICameraClient.cpp:204-212 | with a null handle a batch ends and its frames are lost, and the handles read before leak; only a single release goes on, with no frame |
| `RecordingRoutes.SendRoute` | camera/ICameraClient.cpp:162-217 | a batch leaves the service if there is a time for each frame, and otherwise nothing happens |
| `RecordingRoutes.PickRoute` | camera/ICameraRecordingProxy.cpp:74-103 | handles that a listener releases leave what it holds and go to the release function or into one transaction |
| `RecordingRoutes.TripToMedia` | camera/ICameraRecordingProxyListener.cpp:53-95 | a batch sent while a proxy listener is set reaches the media server, which then holds one handle of its own per frame, in order |
| `RecordingRoutes.TripBack` | camera/ICameraRecordingProxy.cpp:74-103 | a frame that the media server releases while the camera is connected comes back to the service |
| `RecordingFrames.StepKeeps` | camera/ICameraClient.cpp:162-217 | every atomic step of every process keeps the balance of made, open, closed and owned handles and of sent, travelling, returned and lost frames |
| `RecordingFrames.CloseAllEffect` | camera/ICameraRecordingProxyListener.cpp:91-94 | the closing loop closes each of its handles once and nothing else, without a fault |
| `RecordingCode.Recorder.ReadHandles` | camera/ICameraClient.cpp:204-212 | the read loops make one fresh duplicate per handle and stop at the first null one |
| `RecordingCode.Recorder.WriteHandles` | camera/ICamera.cpp:182-184 | a parcel names the frames behind the handles, in order |
| `RecordingCode.Recorder.CloseHandles` | camera/ICamera.cpp:188-191 | the loop has the effect of closing the handles one after the other |
| `RecordingCode.Recorder.OnTransact` | camera/ICameraRecordingProxy.cpp:135-167 | a delivered transaction becomes a callback, held handles or a release; with a null handle it is dropped with what was read, except that the release of a single frame is passed on with the null |
| `RecordingCode.Recorder.PassNullOn` | camera/ICameraRecordingProxy.cpp:135-142 | the release of a single null handle goes on as a release of no frame; the frame is lost |
| `RecordingCode.Recorder.FrameCallback` | camera/Camera.cpp:429-444 | the first lock section of the callback chooses the proxy route |
| `RecordingCode.Recorder.FrameCallbackNoProxy` | camera/Camera.cpp:446-458 | the second lock section hands the frames to the listener or releases them |
| `RecordingCode.Recorder.ForwardFrames` | camera/ICameraRecordingProxyListener.cpp:67-95 | forwarding writes the frames and leaves the sender's copies to be closed, or drops a batch of unequal sizes |
| `RecordingCode.Recorder.ReleaseFrames` | camera/Camera.cpp:235-249 | a release becomes a transaction to the service, or is dropped when disconnected |
| `RecordingCode.Recorder.FinishCall` | camera/ICameraRecordingProxy.cpp:98-102 | after a transaction the caller's copies are closed |
| `RecordingCode.Recorder.TakeHeld` | camera/ICameraRecordingProxy.cpp:93-95 | the handles chosen leave what the listener holds, and no others |
| `RecordingCode.Recorder.ReleaseHeld` | camera/ICameraRecordingProxy.cpp:87-103 | a listener releases any handles it holds, in any order, one frame or a batch |
| `SimplePlayer.NoCheckFires` | cmds/stagefright/SimplePlayer.cpp:272-416 | in every reachable state no CHECK on the player's state has fired and no handler used a cleared extractor or a released codec |
| `SimplePlayer.StartedExactly` | cmds/stagefright/SimplePlayer.cpp:107-270 | the player is started exactly if one pending work message is current; all others are older; extractor and codecs exist exactly while it is prepared |
| `SimplePlayer.StaleWorkDoesNothing` | cmds/stagefright/SimplePlayer.cpp:250-265 | a work message of an older generation only disappears; a current one is delivered only while started |
| `SimplePlayer.StopSilences` | cmds/stagefright/SimplePlayer.cpp:204-248 | after stop or reset every pending work message is stale |
| `SimplePlayerRuns.TracksAreRight` | cmds/stagefright/SimplePlayer.cpp:418-569 | in every reachable state of a live process every track has a live codec and is the outcome of some run of rounds, whose buffers went back in order, each once, with a prefix of each written |
| `SimplePlayerRuns.NothingFails` | cmds/stagefright/SimplePlayer.cpp:107-650 | over every run of calls and deliveries in which buffers hold whole frames of one size, no CHECK on the state or on the bytes written fails and no object that is gone is used |
| `SimplePlayerRuns.EveryRunCanEnd` | cmds/stagefright/SimplePlayer.cpp:418-569 | after every such run a started player can go on so that every sample is fed and every buffer that came out goes back |
| `SimplePlayerRuns.OneRoundToEnd` | cmds/stagefright/SimplePlayer.cpp:418-569 | a live player that has begun to play can get there in one round, whatever happened before |
| `SimplePlayer.InputsAreRight` | cmds/stagefright/SimplePlayer.cpp:468-510 | in every reachable state of a live process every codec was given the configuration data of its track and then exactly the samples of its own track that the extractor has passed, in order, in the buffers it handed out, each used once and in order |
| `SimplePlayer.WorkFeedsUp` | cmds/stagefright/SimplePlayer.cpp:468-510 | a round of work goes on feeding until the file ends or the next sample's codec has no buffer |
| `SimplePlayer.AnswersTell` | cmds/stagefright/SimplePlayer.cpp:107-248 | every delivered call is answered once, refused and failed calls change nothing, and the answers tell the state reached and the surface set |
| `SimplePlayer.AnswersExample` | cmds/stagefright/SimplePlayer.cpp:107-248 | a run that sets a source, unanswered by any status, and resets the unprepared player, answered with OK and without effect |
| `SimplePlayerTimes.PrepareLoads` | cmds/stagefright/SimplePlayer.cpp:272-376 | preparing makes the player hold the file from its beginning, with one new codec per selected track, in order, that was given the track's configuration data and nothing else |
| `SimplePlayerTimes.StartTimeChanges` | cmds/stagefright/SimplePlayer.cpp:378-416 | starting and resetting forget when playing began, the first round of work sets it one second ahead, and nothing else touches it |
| `SimplePlayerTimes.LeadTime` | cmds/stagefright/SimplePlayer.cpp:512-516 | over every run between two starts, playing begins exactly one second after the first round of work |
| `SimplePlayerRuns.WorkedTrack` | cmds/stagefright/SimplePlayer.cpp:418-569 | a round of work that does not end the process takes the input buffers each codec hands out, and is one round of each track with what its codec put out, at the player's playing time |
| `SimplePlayer.StepKeeps` | cmds/stagefright/SimplePlayer.cpp:107-270 | every call and every delivery, in any order, keeps the invariant of the state machine |
| `SimplePlayerCode.Handler.Post` | cmds/stagefright/SimplePlayer.cpp:83-105 | a client call adds a message and changes nothing else |
| `SimplePlayerCode.Handler.Prepare` | cmds/stagefright/SimplePlayer.cpp:272-376 | preparing makes the extractor and one fresh codec per selected track, each with its configuration data queued, or nothing if the source does not open |
| `SimplePlayerCode.Handler.Start` | cmds/stagefright/SimplePlayer.cpp:378-388 | starting raises the generation and posts work with it |
| `SimplePlayerCode.Handler.Stop` | cmds/stagefright/SimplePlayer.cpp:390-396 | stopping raises the generation and leaves the posted work behind |
| `SimplePlayerCode.Handler.Reset` | cmds/stagefright/SimplePlayer.cpp:398-416 | the loop releases every codec of the player and no other |
| `SimplePlayerCode.Handler.DoMoreStuff` | cmds/stagefright/SimplePlayer.cpp:418-569 | one round drains the codecs, feeds samples and renders every track, up to one whose CHECK fails |
| `SimplePlayerCode.Handler.Drain` | cmds/stagefright/SimplePlayer.cpp:420-465 | the loop that takes input and output buffers from every codec |
| `SimplePlayerCode.Handler.Render` | cmds/stagefright/SimplePlayer.cpp:518-567 | the loop that renders track by track and ends with the process at a short write |
| `SimplePlayerCode.Handler.HandleCall` | cmds/stagefright/SimplePlayer.cpp:107-248 | the cases of the client calls, with the status each reply carries |
| `PlayerInput.FeedAllRight` | cmds/stagefright/SimplePlayer.cpp:468-510 | the feeding loop keeps what every codec was given right: configuration data, then its own samples in order, buffers used in order and once |
| `PlayerInput.FeedAllFeedsUp` | cmds/stagefright/SimplePlayer.cpp:468-510 | the feeding loop ends at the end of the file or at a sample whose codec has no buffer |
| `PlayerInput.SuppliedFeedsAll` | cmds/stagefright/SimplePlayer.cpp:468-510 | with enough buffers the feeding loop ends at the end of the file |
| `PlayerInput.FeedSamples` | cmds/stagefright/SimplePlayer.cpp:468-510 | the feeding loop |
| `PlayerInput.QueueConfig` | cmds/stagefright/SimplePlayer.cpp:352-372 | the loop that queues configuration data |
| `SimplePlayerCode.Handler.OnMessageReceived` | cmds/stagefright/SimplePlayer.cpp:107-270 | delivering a message is one step of the state machine, with its reply |
| `PlayerTrack.FirstInFirstOut` | cmds/stagefright/SimplePlayer.cpp:518-566 | over every run of rounds on a track that has had no buffer yet, of those rounds that took place (all, unless the CHECK failed), buffers are handed back in order, each once, never before they leave the list; the bytes written are, buffer by buffer, a prefix of its data: all of it if played, none if not yet at the head |
| `PlayerTrack.NeverOverfilled` | cmds/stagefright/SimplePlayer.cpp:602-650 | over every run and any number of format changes, frames written and not played never exceed the track's size, and the wrapping 32-bit subtraction is the exact free space |
| `PlayerTiming.EarlyStays` | cmds/stagefright/SimplePlayer.cpp:518-566 | a first buffer that is early by ten milliseconds or more stays, with everything behind it |
| `PlayerTiming.FatesExactly` | cmds/stagefright/SimplePlayer.cpp:518-566 | of the buffers handed back in the render loop none was early; each was dropped exactly if it was late by more than thirty milliseconds, otherwise played if there was an audio track and shown if there was none; the loop ended at an early buffer or at one that has bytes left while the audio track is full |
| `PlayerTiming.RoundFates` | cmds/stagefright/SimplePlayer.cpp:418-569 | the same over a whole round of work, with what the codec put out in it |
| `PlayerTiming.WritesWhatFits` | cmds/stagefright/SimplePlayer.cpp:602-650 | the audio track takes exactly as much of a buffer as fits |
| `PlayerTiming.DequeueLives` | cmds/stagefright/SimplePlayer.cpp:439-465 | buffers queue up in order, and the audio track is the last one that was made |
| `PlayerTrack.AbortsExactly` | cmds/stagefright/SimplePlayer.cpp:617-634 | the CHECK on the bytes written fails exactly for a buffer that ends inside a frame and would fit |
| `PlayerFrames.WholeFramesNeverAbort` | cmds/stagefright/SimplePlayer.cpp:602-650 | if all audio tracks of a run have frames of one size and all buffers hold whole frames, no CHECK fails and all buffers of the run are handled first in, first out |
| `PlayerFrames.TwoSizesAbort` | cmds/stagefright/SimplePlayer.cpp:617-634 | a run with frames of four and of six bytes that aborts although its buffer is whole frames of both |
| `PlayerTrack.AvailableExact` | cmds/stagefright/SimplePlayer.cpp:610-615 | the free-space computation never underflows |
| `PlayerTrack.RenderFits` | cmds/stagefright/SimplePlayer.cpp:620-649 | what is written fits, and the 32-bit counter stays the true count modulo 2^32 |
| `PlayerTrack.RenderHeadKeeps` | cmds/stagefright/SimplePlayer.cpp:521-565 | one iteration of the render loop keeps the invariant in its early, late, silent and audio branches |
| `PlayerTrack.DequeueKeeps` | cmds/stagefright/SimplePlayer.cpp:439-465 | taking a buffer or a new audio track keeps the invariant |
| `PlayerTrack.DequeueOutputs` | cmds/stagefright/SimplePlayer.cpp:439-465 | the loop empties the codec's answers into the list in order |
| `PlayerTrack.RenderOutputs` | cmds/stagefright/SimplePlayer.cpp:518-566 | the loop over waiting buffers stops at the first early or unfinished one and keeps the invariant |
| `CameraMetadata.BehavesAsMap` | camera/CameraMetadata.cpp:292-409 | from empty, every run of updates, erasures and appends of fresh tags leaves what a plain map would hold, with unique tags |
| `CameraMetadata.ReservedRoomSuffices` | camera/CameraMetadata.cpp:488-524 | no call of any run fails for lack of space |
| `CameraMetadata.FewReallocations` | camera/CameraMetadata.cpp:488-524 | over every run reallocations are at most logarithmic in the peak entry demand plus logarithmic in the peak data demand, and capacities stay within twice the peaks |
| `CameraMetadata.ReallocationDoubles` | camera/CameraMetadata.cpp:498-514 | a reallocation at least doubles what was outgrown and shrinks nothing; without one nothing changes |
| `CameraMetadata.NextReallocationExactly` | camera/CameraMetadata.cpp:488-524 | the first allocation and every capacity that is outgrown have exactly twice the room demanded, and the buffer is allocated anew exactly when a demand exceeds a capacity |
| `CameraMetadata.ReallocatesExactly` | camera/CameraMetadata.cpp:292-348 | an update asks for room for one entry and its data, an append for all it brings, and the buffer is allocated anew exactly if that is not there |
| `CameraMetadata.ResizeGivesRoom` | camera/CameraMetadata.cpp:488-524 | after a resize the demanded room is there and the entries are the same |
| `CameraMetadata.UpdateIsMapUpdate` | camera/CameraMetadata.cpp:292-348 | an update always succeeds and changes exactly one key of the map |
| `CameraMetadata.EraseIsMapRemoval` | camera/CameraMetadata.cpp:382-409 | on unique tags an erasure removes exactly one key |
| `CameraMetadata.EraseUncovers` | camera/CameraMetadata.cpp:382-409 | an erased tag is still there exactly if it was there twice |
| `CameraMetadata.EraseExample` | camera/CameraMetadata.cpp:382-409 | an entry that is appended twice is still there after it was erased |
| `CameraMetadata.AppendIsMapUnion` | camera/CameraMetadata.cpp:142-152 | an append succeeds; entries that were there win over appended ones |
| `MetadataObject.Metadata.ResizeIfNeeded` | camera/CameraMetadata.cpp:488-524 | the method resizes as the function does |
| `MetadataObject.Metadata.UpdateImpl` | camera/CameraMetadata.cpp:292-348 | locked, unknown tag and data inside the buffer are refused without a change; otherwise an update |
| `MetadataObject.Metadata.UpdateAs` | camera/CameraMetadata.cpp:188-199 | a wrong type or unknown tag is refused before anything changes |
| `MetadataObject.Metadata.EraseTag` | camera/CameraMetadata.cpp:382-409 | a locked object refuses; erasing what is not there succeeds |
| `MetadataObject.Metadata.AppendEntries` | camera/CameraMetadata.cpp:142-152 | a locked object refuses; otherwise an append |
| `MetadataObject.Metadata.EraseTags` | camera/CameraMetadata.cpp:452-461 | the loop erases the tags that are there and notes them in order |
| `MetadataObject.Metadata.RemovePermissionEntries` | camera/CameraMetadata.cpp:411-482 | the whole operation on the object, including the locked one |
| `MetadataObject.PermissionRemoved` | camera/CameraMetadata.cpp:444-479 | none of the tags remains, every other entry but the keys is unchanged, and the keys entry becomes what `NewKeys` says |
| `MetadataObject.PermissionReported` | camera/CameraMetadata.cpp:451-461 | exactly the tags that were present are reported, each once, besides what the list held before |
| `MetadataObject.ReportOrder` | camera/CameraMetadata.cpp:411-482 | the report is in the order of the listed tags behind what was there before, or, if there is a keys entry, sorted as signed numbers |
| `PermissionRemoval.NewKeysAre` | camera/CameraMetadata.cpp:463-476 | the new keys are sorted and lose the removed vendor tags if there are any, otherwise the removed built-in ones |
| `PermissionRemoval.KeysRightExactly` | camera/CameraMetadata.cpp:463-476 | the keys become the multiset difference exactly if no vendor tag was removed or no removed built-in tag is among the keys |
| `PermissionRemoval.KeysWrongExample` | camera/CameraMetadata.cpp:467-475 | a removed built-in tag that stays in the keys |
| `PermissionRemoval.DifferenceCounts` | camera/CameraMetadata.cpp:474-475 | on unsigned-sorted inputs the merge is the multiset difference |
| `PermissionRemoval.SignedOrder` | camera/CameraMetadata.cpp:467 | in signed order vendor tags come first, and each part is sorted as unsigned |
| `PermissionRemoval.SetDifference` | camera/CameraMetadata.cpp:474-475 | the merge with two moving iterators |
| `MetadataParcel.RoundTripExactly` | camera/CameraMetadata.cpp:545-709 | for every blob address and every 64-bit size metadata is read back byte by byte exactly if it is not empty and the blob size survives as a signed 32-bit number |
| `MetadataParcel.WritesAligned` | camera/CameraMetadata.cpp:641-709 | a parcel holds the size, a blob and an offset below the alignment that makes the address of the metadata aligned; the metadata is in the blob at that offset |
| `MetadataParcel.ReadExactly` | camera/CameraMetadata.cpp:530-603 | whatever the parcel, metadata is read exactly if it holds a blob longer than the alignment with its size and an offset below the alignment; none exactly if the size is zero; the bad values are told from too little data |
| `MetadataParcel.AlignNext` | camera/CameraMetadata.cpp:28-29 | the aligned address is a multiple of the alignment less than one alignment further |
| `MetadataParcel.LayoutSlice` | camera/CameraMetadata.cpp:666-694 | the payload fits into the blob and the reader's slice is the writer's |
| `MetadataParcel.NullRoundTrip` | camera/CameraMetadata.cpp:641-644 | no metadata is read back as no metadata |
| `VendorTagWire.RoundTrip` | camera/VendorTagDescriptor.cpp:111-293 | a descriptor built from well-formed ops is read back with every map, the sections and the reverse index, whatever follows it in the parcel |
| `VendorTagWire.RoundTripExactly` | camera/VendorTagDescriptor.cpp:204-215 | when labels are shared, it is still read back exactly if for every label no tag exceeds the one listed last |
| `VendorTagWire.RoundTripExample` | camera/VendorTagDescriptor.cpp:204-215 | two tags of one label, the larger listed first: the index comes back changed |
| `VendorTagWire.ReadSucceedsExactly` | camera/VendorTagDescriptor.cpp:111-218 | reading succeeds exactly if no tag is listed twice and no name or section is empty |
| `VendorTagWire.NotReadBackExample` | camera/VendorTagDescriptor.cpp:111-218 | a tag listed twice, or one without a name, is built and written but not read back |
| `VendorTagParcels.LeavesRangeExactly` | camera/VendorTagDescriptor.cpp:111-218 | whatever the parcel, reading it leads outside the section list exactly if the number of sections passes, enough names follow, and some tag's last section number is not below the number of different names; it ends the process exactly if the number passes and is zero |
| `VendorTagParcels.ReadStaysInRange` | camera/VendorTagDescriptor.cpp:173-215 | neither happens if no section number is the largest 32-bit one and no section name comes twice |
| `VendorTagParcels.OutOfRangeExample` | camera/VendorTagDescriptor.cpp:184-206 | two parcels that pass the check on the number of sections and lead outside the list: one by the 32-bit sum, one by a repeated name |
| `VendorTagParcels.FatalExample` | camera/VendorTagDescriptor.cpp:184-190 | the largest 32-bit section number with no section at all ends the process |
| `VendorTagReading.AcceptedExactly` | camera/VendorTagDescriptor.cpp:111-218 | whatever the parcel, it is read exactly if it has the number of tags, a vendor tag, type, name and section number for each, a number of sections that covers these, names for all, and no number that leads outside |
| `VendorTagReading.BadExactly` | camera/VendorTagDescriptor.cpp:124-189 | it is refused as a bad value exactly for too many tags, a first wrong entry with a bad tag or type, or too few sections |
| `VendorTagReading.ReadSays` | camera/VendorTagDescriptor.cpp:135-172 | the descriptor read says about every tag what the last entry for it says, and nothing about other tags |
| `VendorTagReading.ReadIndexSound` | camera/VendorTagDescriptor.cpp:204-215 | its index answers with a tag that has exactly the section and name asked for, and answers for every tag's |
| `VendorTags.LookupSound` | camera/VendorTagDescriptor.cpp:299-316 | an answer has exactly the section and name asked for, and there is one whenever some tag has them |
| `VendorTags.LookupInverseExactly` | camera/VendorTagDescriptor.cpp:235-249 | lookup undoes the getters for all tags exactly if labels are distinct |
| `VendorTags.BuiltGetters` | camera/VendorTagDescriptor.cpp:235-257 | the three getters of a built descriptor answer what the ops said, through the section numbers, and their error values for other tags |
| `VendorTags.BuiltSaysOps` | camera/VendorTagDescriptor.cpp:543-572 | for ops that pass the checks the getters answer literally what the ops said, and tags and types are in range |
| `VendorTagCache.CacheRoundTrip` | camera/VendorTagDescriptor.cpp:352-412 | a cache of descriptors is read back for every order in which its map is walked |
| `VendorTagCache.BuiltSurvives` | camera/VendorTagDescriptor.cpp:517-596 | descriptors built from well-formed ops are such descriptors |
| `VendorTagCache.ReadsAllIds` | camera/VendorTagDescriptor.cpp:373-412 | whatever the parcel, a cache that is read has as many entries as were announced, so an id that comes twice is refused |
| `VendorTagTable.Table.FillFromOps` | camera/VendorTagDescriptor.cpp:517-596 | building succeeds exactly if every tag passes the checks, and fills all tables |
| `VendorTagTable.Table.ReadOps` | camera/VendorTagDescriptor.cpp:543-572 | the first loop |
| `VendorTagTable.Table.IndexOps` | camera/VendorTagDescriptor.cpp:576-592 | the second loop: section numbers and reverse index |
| `VendorTagTable.Table.WriteToParcel` | camera/VendorTagDescriptor.cpp:259-293 | the tokens in the parcel, in order |
| `VendorTagTable.Table.LookupTag` | camera/VendorTagDescriptor.cpp:299-316 | the two-level lookup |
| `VendorTagTable.ReadFromParcel` | camera/VendorTagDescriptor.cpp:111-218 | reading into a new object, with every way to fail, to lead out of the section list or to end the process |
| `VendorTagTable.ReadTagLoop` | camera/VendorTagDescriptor.cpp:135-172 | the loop over the tags |
| `VendorTagTable.ReadSectionLoop` | camera/VendorTagDescriptor.cpp:191-199 | the loop over the sections |
| `VendorTagTable.IndexLoop` | camera/VendorTagDescriptor.cpp:204-215 | the loop that makes the index again, up to a section number that leads out of the list |
| `TagNames.BestIsBest` | camera/CameraMetadata.cpp:787-813 | the section chosen is the longest one that starts the name, the first one on ties; none only if none does |
| `TagNames.FoundDecomposes` | camera/CameraMetadata.cpp:824-863 | an answer means that the name is the best section, one character and the tag's own name, which is not empty, and that the tag is in that section: of the built-in range, or of the vendor's ops |
| `TagNames.MissedExactly` | camera/CameraMetadata.cpp:830-863 | a name that is a best section, one character and a rest has no answer exactly if no tag of that section is called like the rest |
| `TagNames.RefusedExactly` | camera/CameraMetadata.cpp:817-828 | a name is malformed exactly if nothing is behind the separator of its best section |
| `TagNames.FullNameResolves` | camera/CameraMetadata.cpp:772-864 | the full name of a vendor tag leads to it if its name is not empty, no longer section starts it, no built-in section is named like its section, and labels are distinct |
| `TagNames.FindSection` | camera/CameraMetadata.cpp:787-813 | the loop that keeps the longest section |
| `TagNames.FindBuiltIn` | camera/CameraMetadata.cpp:838-850 | the loop over built-in tags |
| `TagNames.GetTagFromName` | camera/CameraMetadata.cpp:772-864 | the whole resolution, with its three outcomes |
| `Numerals.StrtolPrint` | camera/CameraParameters.cpp:254-282 | strtol reads back what "%d" printed, up to the next character that is not a digit |
| `Numerals.PairRoundTrip` | camera/CameraParameters.cpp:297-320 | a printed pair is read back |
| `Numerals.SizesRoundTrip` | camera/CameraParameters.cpp:322-345 | a comma-joined list of printed sizes is read back as that list |
| `Numerals.PairRefused` | camera/CameraParameters.cpp:297-307 | a number that is not followed by the delimiter is no pair |
| `Numerals.SizesUpToError` | camera/CameraParameters.cpp:330-344 | a list is read up to what is wrong in it: up to a part that is no pair, or up to and without a pair with a wrong character behind it |
| `Numerals.ParsePair` | camera/CameraParameters.cpp:297-320 | a parsed pair leaves strictly less of the string |
| `Numerals.ParseSizesList` | camera/CameraParameters.cpp:322-345 | the loop ends on every string and yields the list |
| `Numerals.PrintFits` | camera/CameraParameters.cpp:254-259 | printed numbers and pairs fit the buffers of 16 and 32 characters |
| `ParameterMaps.UnflattenFlatten` | camera/CameraParameters.cpp:185-252 | unflatten after flatten is the identity on every map reachable by any mix of set, remove and unflatten with arbitrary strings |
| `ParameterMaps.UnflattenFlatten2` | camera/CameraParameters2.cpp:37-108 | the same for the map in setting order, so the set order survives too |
| `ParameterMaps.ComparesSetOrder` | camera/CameraParameters2.cpp:149-177 | for every run whose texts have no key twice, compareSetOrder answers exactly when both keys are set, and says which one was set later, by call and by place in an unflattened text |
| `ParameterMaps.SetIsLatestExactly` | camera/CameraParameters2.cpp:92-108 | a key that is set is the latest exactly if it was in the map at most once |
| `ParameterMaps.RemoveIsGoneExactly` | camera/CameraParameters2.cpp:178-181 | a key that is removed is gone exactly if it was in the map at most once |
| `ParameterMaps.SetOrderExample` | camera/CameraParameters2.cpp:59-89 | a key that was unflattened twice and then set is reported as set before another one |
| `ParameterMaps.RunSound` | camera/CameraParameters.cpp:205-252 | keys stay free of '=', values free of ';', and keys sorted, over every run |
| `ParameterMeaning.HoldsWhatWasSaid` | camera/CameraParameters.cpp:205-294 | for every run of set, remove and unflatten with any strings, the map holds for every key what was said last about it; a key or value with a separator says nothing |
| `ParameterMeaning.OrderedHoldsWhatWasSaid` | camera/CameraParameters2.cpp:59-181 | the same for the map in setting order, if no text has a key twice |
| `ParameterMeaning.ParseExactly` | camera/CameraParameters.cpp:205-236 | for every C string, these entries are found in it exactly if it is a text for them: the entries, perhaps with something without a '=' behind them |
| `ParameterMeaning.GetIntValues` | camera/CameraParameters.cpp:276-282 | getInt without a value, or with an empty one, is minus one; a value is read in the base it is written in |
| `ParameterMaps.GetPut` | camera/CameraParameters.cpp:238-274 | setting a key changes that key only |
| `ParameterMaps.SetGetInt` | camera/CameraParameters.cpp:254-282 | any 32-bit number that was set is what getInt returns |
| `ParameterMaps.SetGetPair` | camera/CameraParameters.cpp:347-361 | any pair that was set is what the size getters parse |
| `ParameterMaps.ParseFlatten` | camera/CameraParameters.cpp:185-235 | parsing undoes flattening entry by entry |
| `ParameterMaps.Parameters.FlattenAll` | camera/CameraParameters.cpp:185-203 | the loop that builds the string |
| `ParameterMaps.Parameters.UnflattenFrom` | camera/CameraParameters2.cpp:59-89 | the map is replaced by what the string holds |
| `ParameterMaps.Parameters.AddParsed` | camera/CameraParameters.cpp:212-234 | the loop over keys and values |
| `ParameterMaps.Parameters.SetValue` | camera/CameraParameters2.cpp:92-108 | a key or value with a separator is refused; otherwise the value is replaced, in the second map at the end |
| `ParameterMaps.Parameters.RemoveValue` | camera/CameraParameters.cpp:291-294 | the first entry with the key goes |
| `TextWrap.NothingLost` | cmds/screenrecord/TextRenderer.cpp:283-313 | the drawn lines and the whitespace skipped at breaks are the text |
| `TextWrap.GapsAreSmall` | cmds/screenrecord/TextRenderer.cpp:305-308 | at most one whitespace is skipped a break |
| `TextWrap.NoLineTooWide` | cmds/screenrecord/TextRenderer.cpp:283-313 | if every glyph of the text fits a continuation line, no line exceeds its space and the loop stays inside the text |
| `TextWrap.BreakIsRight` | cmds/screenrecord/TextRenderer.cpp:318-360 | a break is at the last whitespace inside the longest fitting prefix, or at its end if there is none |
| `TextLines.LinesAreBreaks` | cmds/screenrecord/TextRenderer.cpp:283-313 | every line but the last ends where the text that is left breaks in the line's own space, and exactly a whitespace at the break is skipped; the last line is all that is left |
| `TextLines.DrawnLines` | cmds/screenrecord/TextRenderer.cpp:287-311 | line k is drawn k line heights below the first one, at the first position or, behind the first line, at the indented one |
| `TextLines.DrawnEnd` | cmds/screenrecord/TextRenderer.cpp:311-315 | drawing ends below the last line |
| `TextWrap.OverrunExactly` | cmds/screenrecord/TextRenderer.cpp:343-356 | the loop runs past the text exactly if the last character is too wide for its line and is not skipped as the whitespace of a break |
| `TextWrap.OverrunByEnd` | cmds/screenrecord/TextRenderer.cpp:343-356 | unless the text ends in two whitespace characters: exactly if the last character is too wide and is no whitespace or all of the text |
| `TextWrap.OverrunByText` | cmds/screenrecord/TextRenderer.cpp:343-356 | for every text: exactly if the last character is too wide, and is no whitespace, or stands alone, or follows a whitespace behind which the text without it ends in an empty line or fills its last line |
| `TextWrap.OverrunExample` | cmds/screenrecord/TextRenderer.cpp:343-356 | a single glyph wider than the screen |
| `TextWrap.ScaledWidth` | cmds/screenrecord/TextRenderer.cpp:169-179 | the loop adds up the advances |
| `TextWrap.BreakString` | cmds/screenrecord/TextRenderer.cpp:318-360 | the two loops of breakString |
| `TextWrap.DrawPieces` | cmds/screenrecord/TextRenderer.cpp:287-311 | the lines drawn, their positions and the final one |
| `TextWrap.DrawWrapped` | cmds/screenrecord/TextRenderer.cpp:253-316 | the whole function, with its borders and its trivial cases |
| `FrameOutput.ReduceRgbaToRgb` | cmds/screenrecord/FrameOutput.cpp:193-206 | in place, every pixel keeps its first three bytes, and the bytes behind are untouched |
| `FrameOutput.RgbAt` | cmds/screenrecord/FrameOutput.cpp:193-206 | byte c of pixel p of the result is byte c of pixel p of the input |
| `FrameOutput.HeaderWords` | cmds/screenrecord/FrameOutput.cpp:157-166 | length, width, height, stride and format are at their places in the header |
| `FrameOutput.LittleEndianRoundTrip` | cmds/screenrecord/FrameOutput.cpp:32-41 | decoding gives back the low 32 bits of a value |
| `FrameOutput.PacketRoundTripExactly` | cmds/screenrecord/FrameOutput.cpp:155-177 | a packet is read back, and exactly it, if and only if its length fits the length field |
| `FrameOutput.StreamRoundTrip` | cmds/screenrecord/FrameOutput.cpp:155-177 | every sequence of packets is taken apart into exactly its frames |
| `FrameOutput.FrameCopier.FileReadsBack` | cmds/screenrecord/FrameOutput.cpp:90-191 | at any time of a recording the file begins with bytes that are taken apart into exactly the frames copied before a write failed; without a failure these are all its bytes |
| `FrameOutput.FrameCopier.RawFile` | cmds/screenrecord/FrameOutput.cpp:171-177 | a file of raw frames has nothing but their pixels, each frame at its place |
| `FrameOutput.FrameCopier.CopyFrame` | cmds/screenrecord/FrameOutput.cpp:90-191 | the flag is consumed; a frame is copied exactly if it was set, there are pixels and no write has failed; the outcomes |
| `FrameOutput.FrameCopier.WriteFrame` | cmds/screenrecord/FrameOutput.cpp:155-188 | header, unless frames are raw, and pixels are written; a failing write leaves the frames before it intact |
| `FrameOutput.FrameCopier.FillHeader` | cmds/screenrecord/FrameOutput.cpp:159-166 | the stores make the header |
| `FrameOutput.FrameCopier.SetValueLE` | cmds/screenrecord/FrameOutput.cpp:32-41 | four bytes are stored and no other is touched |
| `DecodeLoop.QueuedExactly` | cmds/stagefright/codec.cpp:158-231 | after any number of rounds with any answers, every codec was given exactly the samples of its own track so far, in order, then at most one end mark, and nothing behind it |
| `CodecInput.EverySampleOnce` | cmds/stagefright/codec.cpp:168-199 | each sample goes to one track, as often as it is in the file |
| `DecodeLoop.ExitsComplete` | cmds/stagefright/codec.cpp:204-244 | with codecs that put out the end mark only after they got it, the loop is left only when all samples and all end marks were queued |
| `DecodeLoop.LeftExactly` | cmds/stagefright/codec.cpp:233-244 | the loop is left in exactly the round that finds all outputs at their end |
| `DecodeLoop.EarlyEnd` | cmds/stagefright/codec.cpp:233-292 | a codec that ends early makes the loop leave samples behind |
| `DecodeLoop.EveryRunCanBeLeft` | cmds/stagefright/codec.cpp:158-308 | from wherever the loop has come to, codecs that keep to the rule can go on so that it is left |
| `DecodeLoop.RetriesLoseNothing` | cmds/stagefright/codec.cpp:171-202 | while the loop runs, the samples queued are as many as rounds with an input buffer, up to all |
| `DecodeLoop.ReleasedExactly` | cmds/stagefright/codec.cpp:246-307 | every output buffer up to the end mark is released once and in order, the codec is not asked after it, and both counters agree |
| `DecodeLoop.RenderTimes` | cmds/stagefright/codec.cpp:271-281 | the first buffer is shown 33 ms after it was decoded, and all are evenly spaced exactly if the first anchor is not -1 or all are |
| `DecodeRenders.RendersExactly` | cmds/stagefright/codec.cpp:246-296 | over every run, if buffers are rendered at a time, exactly those that any of the codecs put out up to its end mark are, round by round and in the order of the tracks, each with the clock of its round, and for every track in the order in which it put them out; otherwise none is |
| `DecodeRenders.SignalledExactly` | cmds/stagefright/codec.cpp:204-231 | a round signals the end to a track exactly if the file was at its end before and the track's codec has a buffer for the mark |
| `DecodeLoop.UnevenExample` | cmds/stagefright/codec.cpp:271-281 | two buffers that are rendered with different distances from their time stamps |
| `DecodeLoop.StepKeeps` | cmds/stagefright/codec.cpp:160-308 | every round keeps the invariant |
| `DecodeLoop.SelectTracks` | cmds/stagefright/codec.cpp:90-137 | the first audio and the first video track are selected, as wanted, in order |
| `DecodeLoop.Decoder.FeedSample` | cmds/stagefright/codec.cpp:161-203 | one sample goes to its track if there is a buffer; the end of the file is noticed |
| `DecodeLoop.Decoder.SignalEnd` | cmds/stagefright/codec.cpp:204-231 | the loop that signals the end, once per track |
| `DecodeLoop.Decoder.SawOutputEosOnAllTracks` | cmds/stagefright/codec.cpp:233-240 | true exactly if all outputs are at their end |
| `DecodeLoop.Decoder.Drain` | cmds/stagefright/codec.cpp:246-307 | at most one output buffer per codec |
| `DecodeLoop.Decoder.Decode` | cmds/stagefright/codec.cpp:158-308 | the whole loop is the run the theorems are about |

## Left out

- Code behind foreign interfaces is modelled by what it may answer: the metadata library (entries,
  two capacities, failure when full), Parcel (a list of items), MediaCodec and NuMediaExtractor
  (arbitrary answers), SortedVector (an empty one has no room until it is asked for some), AudioTrack
  (whole frames, never more played than written), OpenGL (pixels or a failure). Allocation succeeds.
- Locked sections are atomic; clocks are parameters.
- RecordingFrames: the camera service's own copies of handles, which it closes in code outside the
  camera library. The older callbacks with shared memory are not modelled.
- SimplePlayer: the generation counter is unbounded, as is the clock.
- SimplePlayerCode.Handler.Prepare: the CHECKs on calls of the codec and the extractor, which end the
  process; which tracks are selected is the loop of `DecodeLoop.SelectTracks`.
- SimplePlayerCode.Handler.DoMoreStuff: the CHECKs on calls of the codec, the extractor and the audio
  track, other than the one on the bytes written; these calls succeed here.
- SimplePlayerRuns.NothingFails: says nothing about those CHECKs, for the same reason.
- SimplePlayerCode.Handler.OnMessageReceived: message arguments are there, as the callers put them
  there; the path itself is not kept.
- PlayerTrack: changes of the list are made on values inside the handler object, not on linked list
  nodes.
- TextWrap: widths are exact real numbers; the glyph bitmap is a function from characters to
  advances.
- MetadataObject.Metadata.EraseTag: answers OK when there is no buffer; the code passes on what the
  library answers to a null one.
- MetadataParcel: the structural validation of the copied metadata.
- VendorTags: copyFrom and the global descriptors; they copy or store a pointer.
- ParameterMaps: setFloat and getFloat; the remaining getters and setters are one call of those
  modelled.
- ParameterMaps.ComparesSetOrder: not for texts that have a key twice, where it fails
  (`ParameterMaps.SetOrderExample`).
- FrameOutput: the size of a frame is not cut to 32 bits before the pixel buffer is allocated.
- DecodeLoop: a failing CHECK ends the process, that is, the run. An error of the extractor is the end
  of the samples, as in the code.
- OpenGL, fonts, overlay drawing, service connection and death notification, the NDK entry points,
  command-line parsing and the other commands: thin forwarding or input and output.
