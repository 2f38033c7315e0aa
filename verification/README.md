# Tactility: what the concurrent core and its neighbours guarantee

Tactility is an operating system for the ESP32. This project models its hardest parts and proves what they promise, for
every input, every interleaving and every run.

- **AudioStream**: how I/O calls, closers and the codec listener share a stream handle, one critical section of the data
  mutex per step. Handles are deleted once and only when nobody uses them; the drain waits never hang; a stopped codec is
  left alone. Where the code does not give this by itself, it is said exactly when it does, and a concrete run shows that
  it may not.
- **Resampler**, **ChannelMix**: the conversion of sample rates and channel counts between app and codec, on arrays, with
  positions as exact fractions; the buffer sizes that go with it; and exactly which channel counts the 8-bit loops of
  the downmix are right for, and for which they never end. Both rest on the arithmetic in Samples.
- **DeviceLifecycle**, **LockOrder**, **Hotplug**: devices with their five flags, ledger, parents, references and
  drivers under any interleaving, and what callers must do so that no start meets a dead driver; freedom from deadlock
  by an order of the locks and the busy flags; the debounced hotplug poller.
- **ModuleDrivers**: modules that bring drivers and take them away again.
- **OnDemandQueue**, **FileOps**: the worker that ends itself when its queue is empty, with the design shared by
  `file_ops.cpp` and `MainDispatcher.cpp`; and the refcounted link by which a subscriber may leave early.
- **PropertiesFile**, **Preferences**: the printer and parser of ".properties" files with their exact domain, and the
  typed settings on top.
- **PollSubscriptions**: poll subscriptions on an intrusive list with 32-bit sequence numbers.
- **ModuleGraph**, **UpdateCommit**, **FrameTransport**: three Python tools: the module traversal of the device tree
  compiler, the all-or-nothing replacement of SDK components, and the frames of the remote shell.
- **Keyboard**: the sticky modifiers and the ring buffer of the CL-32 keyboard.

Concurrent parts are state machines over values: a step is one critical section, or one operation outside all of them, and
`IsRun` says which sequences of steps can happen. The sections themselves are functions, and the classes beside the
machines carry them out on fields, proved against the same functions. AudioStream, DeviceLifecycle and FileOps have their
steps, and what a single step keeps, in modules of their own: AudioStreamSteps, DeviceSteps and FileOpsSteps. Sequential
parts are classes, arrays and loops.

`dafny verify dfyconfig.toml` checks everything.

## Assumptions

- An audio-stream device is not stopped while one of its directions is being opened. (That callers do not use a handle
  behind a close is not assumed: `AudioStream.OrderlyCallersAreSafe` and `DisorderlyCallersCanBeLate` say what follows
  from it and from its opposite.)
- One owner constructs, adds and destructs a device, one call at a time; parent and driver are set before it is added;
  hotplug devices are unregistered before they are destructed; changes of `use_count` are atomic.
- As far as LockOrder is concerned, callbacks keep to one of its two policies, and what `device_for_each` calls only takes
  and gives back references.
- A file operation subscription is used by its owner only.
- Sample rates are positive and samples have 16 bits.
- No driver belongs to two modules.
- Deletes, the renames of the rollback and the writes of metadata work in `update-sdk.py`; targets are distinct.

## Where code and documentation differ

The model follows the code.

- `TactilityKernel/include/tactility/device.h:112-114` and `126-128` say that the device lock is held across the driver
  callbacks. `device_start` and `device_stop` give it back first and hold the callback mutex instead.
- The comment at `TactilityKernel/source/device.cpp:45-46` says that `device_get` looks at `stopping`; it does not, and
  gives a reference on a device that is being stopped.
- `device.h:349` promises ERROR_INVALID_STATE from `device_get_by_name` for a device that is not started; the code returns
  the device with a reference.
- `TactilityKernel/include/tactility/system_event.h:190` promises ERROR_INVALID_STATE for a subscription that is already
  registered; only the head of the list is looked at (`PollSubscriptions.SubscribeTwiceNeverEnds`).
- The comment of `parse_config` speaks of a list of configurations; the result is one.
- A module whose stop callback fails stays started without its drivers, and a later `module_start` does nothing
  (`ModuleDrivers.Kernel.Stop`, `ModuleDrivers.Kernel.Start`).

## Model

| member | source | states |
|---|---|---|
| `AudioStream.OnlyLateCallsAreUnsound` | Drivers/audio-stream-module/source/audio_stream.cpp:251-376 | No section after the first one of a read, write or close, and no section of the listener, ever touches a deleted handle, in any interleaving; only a first section can, or a set_enabled that closes the placeholder |
| `AudioStream.OrderlyCallersAreSafe` | Drivers/audio-stream-module/source/audio_stream.cpp:721-764 | If no call on a handle is made once a close of it has won, no other call is before its first section when a close wins (set_enabled closes count as calls), and no direction is disabled while it is being opened, then nothing in any interleaving touches a deleted handle or the placeholder |
| `AudioStream.DisorderlyCallersCanBeLate` | Drivers/audio-stream-module/source/audio_stream.cpp:721-764 | Conversely, after every reachable action that breaks one of these rules the run can be continued, with nothing else going wrong, to a first section on a deleted handle, unless the action closes the placeholder itself or the handle is one that the listener leaked |
| `AudioStream.OvertakenCanBeLate` | Drivers/audio-stream-module/source/audio_stream.cpp:268-305 | From every reachable state the end of a handle that is being closed can be reached (all I/O ends, the waits are answered, the references are dropped, it is deleted) while a call that was overtaken has not moved |
| `AudioStream.HandleLifetime` | Drivers/audio-stream-module/source/audio_stream.cpp:268-305 | In every reachable state: a deleted handle is closed, has no I/O in flight, no references and nobody working on it; a handle without references is deleted or one thread is about to delete it; its semaphores are deleted with it; busy_count is the number of I/O calls in flight |
| `AudioStream.NoLostDrainToken` | Drivers/audio-stream-module/source/audio_stream.cpp:291-305 | A closer or listener that waits for the drain waits on a live semaphore, and either I/O is still in flight or the token has been given |
| `AudioStream.DeletedOnce` | Drivers/audio-stream-module/source/audio_stream.cpp:268-289 | No run deletes a handle twice |
| `AudioStream.FreedStays` | Drivers/audio-stream-module/source/audio_stream.cpp:268-289 | A deleted handle never comes back |
| `AudioStream.ClosedHandlesAreDeleted` | Drivers/audio-stream-module/source/audio_stream.cpp:345-376 | When no call is in progress, a handle is deleted if and only if it was closed and the listener never failed to create its semaphore |
| `AudioStream.IoGetsInExactly` | Drivers/audio-stream-module/source/audio_stream.cpp:251-263 | In every reachable state a read or write gets in, and raises busy_count by one, if and only if its handle is in the slot, however many are in already; otherwise it changes nothing |
| `AudioStream.CloseGoesOnExactly` | Drivers/audio-stream-module/source/audio_stream.cpp:731-751 | In every reachable state a close goes on if and only if no other close of the handle came first; it then takes the handle out of the slot, and waits if and only if some thread is inside the codec with it |
| `AudioStream.ListenerTakesAwayExactly` | Drivers/audio-stream-module/source/audio_stream.cpp:331-391 | In every reachable state the listener takes the handle in the slot away, severs it from the codec if and only if that has stopped, and waits if and only if it has stopped and some thread is inside it; without a handle it polls if and only if the stopped codec is being opened |
| `AudioStream.ReservedWhileOpening` | Drivers/audio-stream-module/source/audio_stream.cpp:426-540 | The placeholder is in the slot if and only if some thread is opening, and the reservation is for the codec that it opens |
| `AudioStream.OpenCommitsExactly` | Drivers/audio-stream-module/source/audio_stream.cpp:520-542 | In every reachable state the last section of an open puts a new handle with one reference into the slot if and only if the direction is still bound to its codec; else it gives the slot up and has to close the codec |
| `AudioStream.CanBeOpenedExactly` | Drivers/audio-stream-module/source/audio_stream.cpp:429-450 | A direction can be reserved if and only if it is enabled, no thread is opening it, and no handle is in its slot |
| `AudioStream.StoppedHandlerQuiets` | Drivers/audio-stream-module/source/audio_stream.cpp:331-376 | For the handle in the slot when the STOPPED handler runs, if that handler had nothing to drain or its wait was answered: in every later state no I/O is in flight on the handle, none can begin, and no closer holds its codec |
| `AudioStream.QuietExactlyWhenNothingIsLeftBehind` | Drivers/audio-stream-module/source/audio_stream.cpp:251-376 | Once codec c is no longer bound: in every continuation until c is bound again no thread is inside c and no close holds it, if and only if now no I/O is in c, no close holds c, and no unclosed handle outside of the slot leads to c |
| `AudioStream.LeftBehindComesFrom` | Drivers/audio-stream-module/source/audio_stream.cpp:331-376 | If anything is left behind, some earlier event took a handle out of the slot while c was bound and its codec is still held: a STARTED event, while the handle is unclosed or its close has not called the codec yet; a STOPPED handler, while I/O that was in flight is still; or a close, while it has not called the codec yet |
| `AudioStream.RemainsIsLeftBehind` | Drivers/audio-stream-module/source/audio_stream.cpp:331-376 | And conversely, for each of the three ways |
| `AudioStream.LeftBehindExactly` | Drivers/audio-stream-module/source/audio_stream.cpp:331-376 | So, once c is no longer bound, something is left behind of it if and only if there is such an event |
| `AudioStream.StoppedCodecStaysQuiet` | Drivers/audio-stream-module/source/audio_stream.cpp:331-376 | After the STOPPED handler of c that drained the handle in the slot, if there was one: no I/O and no close is in c until it is bound again if and only if no event before that handler has left something behind; and nobody at all calls c any more (opens included, until the direction is reserved for it again) if and only if, besides, no open of c is on its way or still has to be undone |
| `AudioStream.PolledCodecStaysQuiet` | Drivers/audio-stream-module/source/audio_stream.cpp:369-391 | If that handler found the direction reserved for c and has just seen the reservation resolved: if and only if no earlier event has left something behind and no open of c still has to be undone |
| `AudioStream.StartedLeavesBehind` | Drivers/audio-stream-module/source/audio_stream.cpp:331-367 | A handle that a STARTED event took off c is left behind as long as it is not closed |
| `AudioStream.ResolvedPollExactly` | Drivers/audio-stream-module/source/audio_stream.cpp:378-391 | When the STOPPED handler of c ends its poll because the reservation is resolved: in every continuation no open calls c until the direction is reserved for it again, if and only if no thread stands before undoing an open of c; that is, if and only if no last section of an open of c has found the direction rebound without its thread having closed c since |
| `AudioStream.TimedOutPollExactly` | Drivers/audio-stream-module/source/audio_stream.cpp:378-391 | When it ends because its time is up: if and only if, besides, no thread is still opening c; that is, none has reserved the direction for c without its open having failed or come to its last section since |
| `AudioStream.NoOpenExactly` | Drivers/audio-stream-module/source/audio_stream.cpp:457-542 | After any run: in every continuation no open calls c until the direction is reserved for it again, if and only if no thread is opening c or undoing an open of it now |
| `AudioStream.OpeningExactly` | Drivers/audio-stream-module/source/audio_stream.cpp:477-542 | A thread is opening c if and only if it reserved the direction for c in the run and its open has neither failed nor come to its last section since; so an open that fails leaves nothing |
| `AudioStream.UndoingExactly` | Drivers/audio-stream-module/source/audio_stream.cpp:520-536 | A thread has to undo an open of c if and only if its last section found the direction rebound and the thread has not closed c since |
| `AudioStream.ResolvedReservationIsNotOpening` | Drivers/audio-stream-module/source/audio_stream.cpp:378-391 | When the STOPPED handler sees the reservation resolved, no open of that codec is still before its last section |
| `AudioStream.LateIoBegin` | Drivers/audio-stream-module/source/audio_stream.cpp:251-263 | A concrete run in which a read enters before a close and reads the handle after it was deleted |
| `AudioStream.LateSetEnabled` | Drivers/audio-stream-module/source/audio_stream.cpp:872-884 | A concrete run in which set_enabled captures the handle in the slot, the owner closes and deletes it, and set_enabled then closes it |
| `AudioStream.StartedRebindKeepsOldCodec` | Drivers/audio-stream-module/source/audio_stream.cpp:331-367 | A concrete run in which a STARTED event rebinds the direction and the later close still holds the old codec |
| `AudioStream.CloseOutlivesStopped` | Drivers/audio-stream-module/source/audio_stream.cpp:341-376 | A concrete run in which a close has taken its handle out of the slot, the STOPPED handler therefore waits for nothing, and the close is still to call the stopped codec |
| `AudioStream.TimeoutLeavesIo` | Drivers/audio-stream-module/source/audio_stream.cpp:369-376 | A concrete run in which the bounded wait times out and the handler ends with a read inside the stopped codec |
| `AudioStream.MissingSemaphoreLeaks` | Drivers/audio-stream-module/source/audio_stream.cpp:354-376 | A concrete run in which the listener cannot create its semaphore and the closed handle is never deleted |
| `AudioStream.ResolvedReservationMayStillClose` | Drivers/audio-stream-module/source/audio_stream.cpp:520-536 | A concrete run for the exception in ResolvedPollExactly: the handler sees the reservation resolved while the undone open has yet to close the codec |
| `AudioStream.StreamData.IoBegin` | Drivers/audio-stream-module/source/audio_stream.cpp:251-263 | Admits I/O if and only if the handle is in its slot, not closing, not closed by the listener and has a codec; then counts it, whatever the count was, and hands out the codec |
| `AudioStream.StreamData.IoEnd` | Drivers/audio-stream-module/source/audio_stream.cpp:291-305 | Counts I/O down and gives the tokens that are waited for when it was the last |
| `AudioStream.StreamData.ReleaseLifetimeRef` | Drivers/audio-stream-module/source/audio_stream.cpp:268-289 | Drops a reference; the last one takes both semaphores off the handle |
| `AudioStream.StreamData.CloseLatch` | Drivers/audio-stream-module/source/audio_stream.cpp:731-741 | Only the first close wins; it marks the handle, empties its slot and tells whether it has to drain |
| `AudioStream.StreamData.OnCodecEvent` | Drivers/audio-stream-module/source/audio_stream.cpp:331-367 | Rebinds the direction, closes the handle in the slot and severs it from a stopped codec, taking a reference if it has to wait |
| `AudioStream.StreamData.OpenCommit` | Drivers/audio-stream-module/source/audio_stream.cpp:520-542 | Commits the handle exactly if the direction is still bound to its codec, and gives up the reservation either way |
| `Resampler.Resample` | Drivers/audio-stream-module/source/audio_stream.cpp:19-57 | Converts min(capacity, ceil(frames * out / in)) frames in place; every sample is the linear interpolation, also on the path that only copies; nothing behind the last frame is written |
| `Resampler.BetweenNeighbours` | Drivers/audio-stream-module/source/audio_stream.cpp:34-54 | Every output sample lies between its two neighbours, and is exactly the input sample where the rates meet and at the last frame |
| `Resampler.OnTheLine` | Drivers/audio-stream-module/source/audio_stream.cpp:48-53 | An interpolated sample is the exact point of the line, truncated towards zero |
| `Resampler.SameRate` | Drivers/audio-stream-module/source/audio_stream.cpp:22-26 | At equal rates interpolation gives each input sample itself, which is why copying is right |
| `Resampler.SourceFrameInRange` | Drivers/audio-stream-module/source/audio_stream.cpp:34-40 | Output frame k has a source frame in range if and only if k is below ceil(frames * out / in) |
| `Resampler.FullReadIsEnough` | Drivers/audio-stream-module/source/audio_stream.cpp:588-624 | A codec read of floor(requested * codec / app) + 2 frames yields exactly the requested frames, and none of them repeats the last frame read |
| `Resampler.OneFrameLessRepeats` | Drivers/audio-stream-module/source/audio_stream.cpp:589 | With one codec frame less, a read of n frames repeats the last frame read if and only if n > 0 and n * codec mod app >= codec; so never when the codec is at least as fast as the app |
| `Resampler.WriteConsumesEverything` | Drivers/audio-stream-module/source/audio_stream.cpp:691-705 | On a write the buffer is never the limit: ceil(frames * codec / app) frames come out, and the next one would lie behind the input |
| `Resampler.FrameSizeFits` | Drivers/audio-stream-module/source/audio_stream.cpp:503-504 | bytes_per_frame holds the frame size exactly up to 127 channels of 16 bits, and is zero for 128, which `write_stream` checks for the app, and `read_stream` for the app but not for the codec |
| `Resampler.FramesFitExactly` | Drivers/audio-stream-module/source/audio_stream.cpp:564-624 | The frames that read_stream and write_stream take to be in a buffer fit into it if and only if the channel count is at most 127, or there is none; from 129 on, one frame is too much already |
| `Resampler.StreamConverter.WholeFrames` | Drivers/audio-stream-module/source/audio_stream.cpp:564-598 | A buffer is taken to hold as many frames as fit into it, and data are converted if and only if rate or channels differ from those of the codec and there is at least one frame |
| `Resampler.StreamConverter.ReadStream` | Drivers/audio-stream-module/source/audio_stream.cpp:553-624 | ERROR_INVALID_STATE exactly for an app with 128 channels, whose frame size is zero; a division by the zero frame size of the codec (line 598) exactly for a codec with 128 channels where something is to be converted; nothing is read for less than a frame; where nothing is to be converted the codec data are passed through, for every channel count; else the app gets their conversion, all it has room for if the codec served the read in full |
| `Resampler.StreamConverter.WriteStream` | Drivers/audio-stream-module/source/audio_stream.cpp:639-710 | No result exactly for 128 channels; the codec is handed the data of the app as they are where nothing is to be converted, for every channel count, else all of their conversion |
| `Resampler.StreamConverter.Read` | Drivers/audio-stream-module/source/audio_stream.cpp:588-624 | What the app gets is the conversion of what the codec delivered; all that it requested if the codec served the read in full |
| `Resampler.StreamConverter.Write` | Drivers/audio-stream-module/source/audio_stream.cpp:674-706 | The whole input, converted to the codec channels and rate, lies at the front of the codec buffer; ceil(frames * codec / app) frames |
| `ChannelMix.ConvertChannels` | Drivers/audio-stream-module/source/audio_stream.cpp:66-93 | On every pair of channel counts for which the code returns: every frame is copied, mixed down or repeated as its counts ask, and nothing behind is written |
| `ChannelMix.MixChannel` | Drivers/audio-stream-module/source/audio_stream.cpp:77-86 | For every output whose loop ends, the loop over uint8_t indices, count and sum computes the truncated average of the channels that it comes by, also where the index comes round |
| `ChannelMix.EndsExactly` | Drivers/audio-stream-module/source/audio_stream.cpp:81 | For every pair of counts and every output: with g the greatest common divisor of 256 and the channels that go out, the loop of an output ends if and only if the channels that come in, plus g, are at most 256 plus the output modulo g |
| `ChannelMix.DownmixEndsExactly` | Drivers/audio-stream-module/source/audio_stream.cpp:77-86 | A downmix returns, every output of it ending, if and only if the channels that come in plus g are at most 256; otherwise the loop of its first output already goes on for ever |
| `ChannelMix.DownmixesThatNeverEnd` | Drivers/audio-stream-module/source/audio_stream.cpp:81 | Instances: any count above 128 mixed down to 128, 255 to 2, 193 to 192 |
| `ChannelMix.MixedRightExactly` | Drivers/audio-stream-module/source/audio_stream.cpp:79-86 | Of the outputs whose loop ends, one is the average of its own channels for every frame if and only if its index leaves the frame before it comes round |
| `ChannelMix.StrideOverflows` | Drivers/audio-stream-module/source/audio_stream.cpp:81 | Some output of a downmix has its index come round if and only if the two channel counts add up to more than 256 |
| `ChannelMix.DownmixAverages` | Drivers/audio-stream-module/source/audio_stream.cpp:77-86 | Up to that sum, every output of a downmix is the truncated average of its own channels |
| `ChannelMix.DownmixTakesEachChannelOnce` | Drivers/audio-stream-module/source/audio_stream.cpp:78-86 | The sums behind those averages add up to the whole frame |
| `ChannelMix.AverageWithin` | Drivers/audio-stream-module/source/audio_stream.cpp:79-85 | An average lies within the range of the channels of its frame |
| `ChannelMix.MixedWithin` | Drivers/audio-stream-module/source/audio_stream.cpp:79-85 | So does what the loop computes, even where the index comes round |
| `ChannelMix.UpAndDownAgain` | Drivers/audio-stream-module/source/audio_stream.cpp:77-91 | Mixing a frame up and down again gives it back, if the two counts add up to at most 256 or are the same |
| `ChannelMix.ComesBackExactly` | Drivers/audio-stream-module/source/audio_stream.cpp:77-91 | Among the larger counts from which the way down returns, every frame comes back if and only if the two counts add up to at most 256 |
| `DeviceLifecycle.LifecycleInEveryRun` | TactilityKernel/source/device.cpp:104-311 | In every interleaving: started implies added, starting implies added and not started, stopping implies started, removing implies none of them; an added device is exactly once in the ledger and exactly once among the children of its parent, and no device is twice in either; the ledger holds only constructed devices; a referenced device is constructed |
| `DeviceLifecycle.ParentsStay` | TactilityKernel/source/device.cpp:104-130 | The parent of an added device is constructed and cannot be destructed |
| `DeviceLifecycle.RemoveAlwaysFinds` | TactilityKernel/source/device.cpp:174-221 | device_remove always finds its device in the ledger, so its rollback is never taken |
| `DeviceLifecycle.OnlyStartsMeetDeadDrivers` | TactilityKernel/source/device.cpp:223-311 | No step of any run touches a destructed device, and no step but a start at its bind uses a destructed driver |
| `DeviceLifecycle.CarefulCallersAreSafe` | TactilityKernel/source/driver.cpp:48-61 | If every device is started while its driver is there, and no driver is destructed while a start is before or inside its bind, then in every interleaving every step is sound: none touches a destructed device or a destructed driver |
| `DeviceLifecycle.CarelessCallersMeetDeadDrivers` | TactilityKernel/source/driver.cpp:133-165 | Conversely, after any reachable start or destruct that breaks one of these rules the run can be continued, by nothing but ends of probes, to a start that uses the destructed driver |
| `DeviceLifecycle.NoFlagNoBind` | TactilityKernel/source/device.cpp:238-247 | While no device of a driver has `starting` set, destructing the driver keeps to these rules |
| `DeviceLifecycle.ReferencesPreventDestruct` | TactilityKernel/source/device.cpp:104-130 | While references are outstanding a device stays constructed and device_destruct changes nothing |
| `DeviceLifecycle.BindsAlternate` | TactilityKernel/source/driver.cpp:133-189 | Two successive successful binds or unbinds of a device are one of each |
| `DeviceLifecycle.FirstSwitchIsABind` | TactilityKernel/source/driver.cpp:133-189 | The first of them is a bind |
| `DeviceLifecycle.UseCountIsExact` | TactilityKernel/source/driver.cpp:48-61 | use_count is the number of devices bound to the driver, and destructing it succeeds exactly when there is none |
| `DeviceLifecycle.CallbacksNeverOverlap` | TactilityKernel/source/device.cpp:223-311 | The start, stop and probe callbacks of one device never run on two threads at once |
| `DeviceLifecycle.OneSwitchAtATime` | TactilityKernel/source/device.cpp:223-311 | In every interleaving at most one start or stop of a device is between its first section and its last |
| `DeviceLifecycle.DestructedUnderAStart` | TactilityKernel/source/driver.cpp:133-165 | A concrete run in which a driver is destructed while a start is inside its callback, before the use is counted |
| `DeviceLifecycle.RunKeepsInv` | TactilityKernel/source/device.cpp:104-311 | The whole account of flags, lists, references, binds and use counts holds in every reachable state |
| `DeviceLifecycle.CallsGoAheadExactly` | TactilityKernel/source/device.cpp:104-311 | In every reachable state: a remove begins if and only if the device is added and neither started nor starting; an add if and only if it is neither added nor being removed; a start if and only if it is added, has a driver and is neither started nor starting; a stop if and only if it is started and not stopping; a destruct succeeds if and only if there are no references and no children and it is neither added nor being removed. Otherwise nothing changes |
| `DeviceLifecycle.AnswersDecide` | TactilityKernel/source/device.cpp:247-310 | In every reachable state the answer of the driver decides whether a start or stop takes effect, and whether the use is counted |
| `DeviceLifecycle.StartedExactlyWhenBound` | TactilityKernel/source/device.cpp:247-310 | While no start or stop of it is in progress a device is started if and only if the last bind or unbind of it that worked was a bind |
| `DeviceLifecycle.ReferencesAreCounted` | TactilityKernel/source/device.cpp:417-434 | ref_count is the number of references taken by lookups, gets and probes and not given back, and is never negative |
| `DeviceLifecycle.DeviceInternal.MayBeDestructed` | TactilityKernel/source/device.cpp:104-130 | device_destruct goes ahead exactly without references, flags and children |
| `DeviceLifecycle.DeviceInternal.BeginRemove` | TactilityKernel/source/device.cpp:180-187 | Goes ahead, and withdraws the device, if and only if it is added and neither started nor starting, whatever its references |
| `DeviceLifecycle.DeviceInternal.BeginStart` | TactilityKernel/source/device.cpp:226-245 | Which start goes ahead and what the others answer |
| `DeviceLifecycle.DeviceInternal.EndStart` | TactilityKernel/source/device.cpp:254-266 | The flags and the answer after a bind |
| `DeviceLifecycle.DeviceInternal.BeginStop` | TactilityKernel/source/device.cpp:272-290 | Which stop goes ahead and what the others answer |
| `DeviceLifecycle.DeviceInternal.EndStop` | TactilityKernel/source/device.cpp:298-310 | The flags and the answer after an unbind |
| `DeviceLifecycle.DeviceLedger.Remove` | TactilityKernel/source/device.cpp:195-202 | Erases the first occurrence of the device, if there is one |
| `DeviceLifecycle.DeviceLedger.Find` | TactilityKernel/source/device.cpp:491-516 | Finds the first device that matches, or none if none does |
| `LockOrder.OpDisciplined` | TactilityKernel/source/device.cpp:223-311 | Under either policy every lock that an allowed call takes keeps the lock order, or is held already and recursive, whichever of its nested starts and stops are turned down as busy; every lock and every flag is given back |
| `LockOrder.AllDisciplined` | TactilityKernel/source/device.cpp:223-311 | So does every list of calls, whatever callbacks and listeners call in turn within the policy |
| `LockOrder.LocksOfPlainCall` | TactilityKernel/source/device.cpp:104-221 | Which locks the calls without callbacks take, and in which order; a remove takes the own lock, that of the parent, the ledger and the own lock again |
| `LockOrder.LocksOfCall` | TactilityKernel/source/device.cpp:223-311 | The same for starts, stops, probes and polls: a callback runs between two sections of the device and under its callback mutex, and listeners are notified before a stop that goes on and after what worked |
| `LockOrder.LocksAreExclusive` | TactilityKernel/source/device.cpp:24-46 | Whatever the calls are, no two threads ever hold the same lock or are inside a start or stop of the same device |
| `LockOrder.WaitForGraphIsAcyclic` | TactilityKernel/source/device.cpp:24-46 | With starts and stops that find their device busy turned down, no state that any number of threads can reach has a cycle of threads that wait for each other, if callbacks start, stop and probe descendants only, or else if only probes are restricted: none inside a callback, and only starts and stops of descendants inside one |
| `LockOrder.NeverDeadlocked` | TactilityKernel/source/device.cpp:24-46 | In every such state some thread can go on, or every call has returned and every lock and flag is given back |
| `LockOrder.RunsEnd` | TactilityKernel/source/device.cpp:223-311 | Every step does some of the work, so no schedule goes on for ever and all calls come to an end |
| `LockOrder.CrossingProbesCanDeadlock` | TactilityKernel/source/device.cpp:672-674 | Probes outside of both policies can deadlock in spite of the busy flags: two threads, each in the start or probe callback of one device and about to start or probe that of the other, wait for each other for ever in some schedule, whenever no device is started by both |
| `Hotplug.ActsOnEverySecondDisagreement` | TactilityKernel/source/device.cpp:675-694 | After any polls, the next one starts or stops a device if and only if it completes two polls in a row that disagree with the last action that worked, counted from the polls alone |
| `Hotplug.StartedIsLastAction` | TactilityKernel/source/device.cpp:675-709 | After any polls of a device with a probe that begins stopped and absent, it is started if and only if the last action that worked was a start |
| `Hotplug.NeedsTwoInARow` | TactilityKernel/source/device.cpp:679-690 | A single odd probe result does nothing |
| `Hotplug.OneOfTwoActs` | TactilityKernel/source/device.cpp:679-690 | Of two disagreeing polls in a row one acts, also after an action that failed |
| `Hotplug.CountsDisagreement` | TactilityKernel/source/device.cpp:679-709 | The two fields of a device hold the direction of the last action that worked and the number of disagreeing polls modulo two |
| `Hotplug.Poller.PollOnce` | TactilityKernel/source/device.cpp:640-716 | Every registered device that is constructed is polled: with a probe, it is started or stopped as the probe says if and only if two polls in a row have disagreed and that works; without, it is started. Every other one stays as it was, no reference is kept, and the error is that of the first registered device that had to be started and was not |
| `Hotplug.Poller.Act` | TactilityKernel/source/device.cpp:697-709 | Each device is started or stopped as its action says if that works, and else stays as it was; the result is the first mandatory start that failed |
| `OnDemandQueue.RunsInOrder` | TactilityKernel/source/file_ops.cpp:84-129 | In every interleaving: the items taken are a prefix of those accepted, at most one worker is active and exactly while `running` is set, and whenever the mutex is free without a worker the queue is empty |
| `OnDemandQueue.RefinesFifo` | Tactility/Source/MainDispatcher.cpp:30-101 | Every step of the linked queue with its worker is nothing, one item added at the back, or the front item taken |
| `OnDemandQueue.FailedStartLosesOnlyItsItem` | TactilityKernel/source/file_ops.cpp:210-221 | When no worker can be started, the queue holds the new item only, and that one is dropped |
| `OnDemandQueue.MutexHolderProceeds` | TactilityKernel/source/file_ops.cpp:110-129 | A client that holds the mutex can go on, or the worker that it joins can end without the mutex |
| `OnDemandQueue.WaitingHasANextStep` | TactilityKernel/source/file_ops.cpp:84-107 | While items wait there is an active worker with a step to take |
| `OnDemandQueue.NothingStranded` | TactilityKernel/source/file_ops.cpp:99-107 | When all calls have returned and all workers have ended, everything accepted has been run |
| `OnDemandQueue.WorkerQueue.Queue` | Tactility/Source/MainDispatcher.cpp:75-101 | Appends the item, starting a worker if none runs; on failure the list is empty again |
| `OnDemandQueue.WorkerQueue.PopOrStop` | TactilityKernel/source/file_ops.cpp:84-97 | Takes the front item, or clears `running` when there is none |
| `FileOps.SharesAreExact` | TactilityKernel/source/file_ops.cpp:16-24 | owners is one for a live subscription plus the items queued, in flight or being given up that name the link; the link is deleted exactly when that is zero |
| `FileOps.SubmissionsAreConserved` | TactilityKernel/source/file_ops.cpp:180-239 | While subscribed: items submitted = dropped + pending + completed + polled |
| `FileOps.NoUseAfterDelete` | TactilityKernel/source/file_ops.cpp:58-82 | No step of any run touches a deleted link |
| `FileOps.DeletedOnce` | TactilityKernel/source/file_ops.cpp:58-82 | A run deletes a link at most once |
| `FileOps.WorkerRespectsUnsubscribe` | TactilityKernel/source/file_ops.cpp:154-178 | A completion touches the subscription only while it is registered or inside its own unsubscribe, never after |
| `FileOps.NoLostWakeup` | TactilityKernel/source/file_ops.cpp:241-258 | Whoever is about to wait while a completion is there finds its bit set |
| `FileOps.AwaitConsumesExactlyOne` | TactilityKernel/source/file_ops.cpp:241-258 | A whole await, from its call to its return, over any steps of other threads: it returns by its own poll, and then exactly one completion was consumed meanwhile, or by its timeout, and then none |
| `FileOps.AwaitPollsOnce` | TactilityKernel/source/file_ops.cpp:241-258 | Each of its polls ends it exactly by consuming one completion, and goes on to wait only if there was none |
| `FileOps.TakenInOrder` | TactilityKernel/source/file_ops.cpp:84-129 | With subscriptions on top, items are still taken in the order accepted, one at a time |
| `FileOps.FileOpsLink.Complete` | TactilityKernel/source/file_ops.cpp:67-82 | Counts a completion for a live subscription, drops the share and tells whether it was the last |
| `FileOps.FileOpsLink.Sever` | TactilityKernel/source/file_ops.cpp:154-178 | Ends the subscription, drops its share and tells whether it was the last |
| `FileOps.FileOpsLink.Poll` | TactilityKernel/source/file_ops.cpp:226-239 | Consumes one completion if there is one |
| `PropertiesFile.SurvivesExactlyInDomain` | TactilityKernel/source/properties_file.cpp:65-127 | A map reloads unchanged, in whatever order it is printed, if and only if every key has no line end, =, NUL, does not begin with # [ blank or CR nor end with a blank, and every value has no line end or NUL, does not begin with a blank nor end with white space |
| `PropertiesFile.SavingNormalises` | TactilityKernel/source/properties_file.cpp:65-127 | For every text without NUL, parse(print(parse(text))) = parse(text) in every order if and only if no entry stands in a section |
| `PropertiesFile.SavingNormalisesPlainTexts` | TactilityKernel/source/properties_file.cpp:65-127 | So it is for every text without section lines |
| `PropertiesFile.ParseExactly` | TactilityKernel/source/properties_file.cpp:65-98 | For every text: a key has a value if and only if the last of the lines that set it gives it that value, where a line sets the text of the last section line before it followed by its own trimmed key |
| `PropertiesFile.ReadsTheLastLine` | TactilityKernel/source/properties_file.cpp:65-98 | The same on top of the entries there were; a key that no line sets keeps its value |
| `PropertiesFile.EntriesStandUnderTheirSection` | TactilityKernel/source/properties_file.cpp:77-87 | Behind a section line, whatever comes before it, every entry stands under the text of that line and its own key, up to the next section line |
| `PropertiesFile.ReloadTrimsValues` | TactilityKernel/source/properties_file.cpp:69-127 | With keys in the domain every entry comes back with its value trimmed, and nothing else changes |
| `PropertiesFile.ReloadsWithoutSections` | TactilityKernel/source/properties_file.cpp:65-98 | A map that comes back as it was has not printed a section line |
| `PropertiesFile.EntryInDomain` | TactilityKernel/source/properties_file.cpp:69-88 | Whatever a line outside a section yields can be written and read again |
| `PropertiesFile.TrimMeaning` | TactilityKernel/source/properties_file.cpp:17-24 | Trimming takes characters of the set off both ends, and as many as there are |
| `PropertiesFile.Store.Load` | TactilityKernel/source/properties_file.cpp:54-107 | The loop over characters reads the lines of the text one by one; a missing file is an empty one |
| `PropertiesFile.Store.Save` | TactilityKernel/source/properties_file.cpp:125-127 | Prints every entry once, in some order |
| `PropertiesFile.Store.Get` | TactilityKernel/source/properties_file.cpp:180-191 | The value and its terminator, or an error that leaves the buffer as it was |
| `PropertiesFile.Store.Set` | TactilityKernel/source/properties_file.cpp:193-195 | Sets that entry and no other |
| `Preferences.ReadsLastPut` | TactilityKernel/source/preferences.cpp:162-286 | After any puts, each key reads as the last value put there, and under the type of that value only |
| `Preferences.ReadsLastPutAfterReopen` | TactilityKernel/source/preferences.cpp:162-286 | After a close and an open too, less the trailing blanks and CRs of a text, for keys in the domain of the file format and every print order |
| `Preferences.SessionKeepsSettings` | TactilityKernel/source/preferences.cpp:162-286 | A session on a settings file without section lines (load, any puts, save in any order, load) leaves every key that was put with its last value, and every other key reading as after the first load |
| `Preferences.WhatComesBack` | TactilityKernel/source/preferences.cpp:24-37 | Flags and numbers come back always, a text exactly if it does not end in space, tab or CR |
| `Preferences.ReadsExactly` | TactilityKernel/source/preferences.cpp:162-265 | A key has a value under a type if and only if its text spells it: "b:0" or "b:1", "i32:" or "i64:" and a number, or "s:" and an escaped text |
| `Preferences.UnescapeEscape` | TactilityKernel/source/preferences.cpp:24-51 | unescape(escape(s)) = s |
| `Preferences.EscapedMeaning` | TactilityKernel/source/preferences.cpp:24-37 | Each character is escaped by itself: a backslash doubled, a line end as backslash and n, any other as it is |
| `Preferences.EscapedIsOneLine` | TactilityKernel/source/preferences.cpp:24-37 | Escaped text has no line end |
| `Preferences.EscapedTrims` | TactilityKernel/source/preferences.cpp:24-37 | Escaping commutes with the trimming of the file format |
| `Preferences.ParsePrintInt` | TactilityKernel/source/preferences.cpp:84-117 | A printed number is parsed as that number, whatever the width of long |
| `Preferences.ParsedIsANumber` | TactilityKernel/source/preferences.cpp:84-117 | What is accepted is white space, a sign and digits, with nothing behind and a value in range |
| `Preferences.ParsesExactly` | TactilityKernel/source/preferences.cpp:84-117 | A text is parsed as a value if and only if it is white space, a sign and digits that have this value, within the range of long and of the result |
| `Preferences.MostSignificantFirst` | TactilityKernel/source/preferences.cpp:84-117 | The digits are decimal, the most significant one first |
| `Preferences.IntsFit` | TactilityKernel/source/preferences.cpp:271-281 | No printed number is cut by its buffer |
| `Preferences.Preferences.TryGetTagged` | TactilityKernel/source/preferences.cpp:162-174 | The grow-and-retry loop ends and finds the tag and payload of the key |
| `Preferences.Preferences.Opt` | TactilityKernel/source/preferences.cpp:230-252 | Reads the value that the key has under the type |
| `Preferences.Preferences.Has` | TactilityKernel/source/preferences.cpp:207-228 | Whether the key has a value under the type |
| `Preferences.Preferences.OptString` | TactilityKernel/source/preferences.cpp:254-265 | The text with its terminator, or an error that leaves the buffer as it was |
| `Preferences.Preferences.PutBool` | TactilityKernel/source/preferences.cpp:267-269 | Stores "b:1" or "b:0" under the key, as the last put there; nothing else changes |
| `Preferences.Preferences.PutInt32` | TactilityKernel/source/preferences.cpp:271-275 | Stores "i32:" and the number under the key, as the last put there, through a buffer of 32 characters; nothing else changes |
| `Preferences.Preferences.PutInt64` | TactilityKernel/source/preferences.cpp:277-281 | The same for 64 bits and a buffer of 40 characters |
| `Preferences.Preferences.PutString` | TactilityKernel/source/preferences.cpp:283-286 | Stores "s:" and the escaped text under the key, as the last put there; nothing else changes |
| `ModuleGraph.HandlesEachModuleOnce` | Buildscripts/DevicetreeCompiler/source/config.py:20-57 | On every finite graph, cycles included, a successful parse handles each reachable module once and no other, and the bindings are theirs in that order |
| `ModuleGraph.DependenciesComeFirst` | Buildscripts/DevicetreeCompiler/source/config.py:36-54 | Without cycles every module comes after all that it needs, directly or not |
| `ModuleGraph.ListedOrderIsKept` | Buildscripts/DevicetreeCompiler/source/config.py:36-54 | Cycles included: of two dependencies of the root the one listed later is handled first only if one listed no later than the other leads to it |
| `ModuleGraph.BindingsAreTheModules` | Buildscripts/DevicetreeCompiler/source/config.py:51-54 | The bindings of the result are those of the reachable modules that have some, each relative to a path that names its module |
| `ModuleGraph.SucceedsExactlyWhenComplete` | Buildscripts/DevicetreeCompiler/source/config.py:29-48 | The parse succeeds exactly when every reachable module has a file and the root flag is a flag |
| `ModuleGraph.SettingsAreTheRoots` | Buildscripts/DevicetreeCompiler/source/config.py:42-49 | Dependencies, dts and dts-only of the result are those of the root module |
| `ModuleGraph.SameFileTwice` | Buildscripts/DevicetreeCompiler/source/config.py:23-29 | A file is handled twice if and only if two different reachable keys name it |
| `ModuleGraph.OneModuleHandledTwice` | Buildscripts/DevicetreeCompiler/source/config.py:23-29 | It happens: a root that needs "d" and "d/module.yaml" parses, and that module is handled twice |
| `ModuleGraph.Parser.ParseRecursive` | Buildscripts/DevicetreeCompiler/source/config.py:22-54 | The recursion over the shared set and lists ends and does what the traversal says |
| `ModuleGraph.Parser.Parse` | Buildscripts/DevicetreeCompiler/source/config.py:14-57 | From an empty start, fields and result end as the traversal says |
| `UpdateCommit.Update.Commit` | Buildscripts/TactilitySDK/Tools/update-sdk.py:84-107 | All or nothing: it succeeds exactly if every rename that is needed works, and then each component and its metadata are the new ones; otherwise each component (or its absence) and its metadata are as before; nothing else changes |
| `UpdateCommit.Update.ReplaceAll` | Buildscripts/TactilitySDK/Tools/update-sdk.py:86-94 | The loop stops at the first rename that fails; everything it moved can be undone |
| `UpdateCommit.Update.RollBack` | Buildscripts/TactilitySDK/Tools/update-sdk.py:96-99 | Every target is as it was |
| `UpdateCommit.Update.Stage` | Buildscripts/TactilitySDK/Tools/update-sdk.py:62-77 | Only the staging folder of the component changes; it holds the archive on success |
| `UpdateCommit.Update.Discard` | Buildscripts/TactilitySDK/Tools/update-sdk.py:79-82 | Removes the staging folders and nothing else |
| `UpdateCommit.InstallSucceeds` | Buildscripts/TactilitySDK/Tools/update-sdk.py:89-94 | A component is replaced exactly if the renames that it needs work |
| `UpdateCommit.UndoEffect` | Buildscripts/TactilitySDK/Tools/update-sdk.py:97-99 | Undoing a replaced or vacated component gives back what was there first |
| `PollSubscriptions.PollSeesEvents` | TactilityKernel/source/system_event.cpp:221-237 | While a subscription is registered a poll succeeds exactly if the number of matching events since it was added or last polled with success is not a multiple of 2^32 |
| `PollSubscriptions.PollSeesAnyEvent` | TactilityKernel/source/system_event.cpp:221-237 | Below 2^32 events: exactly if there was one |
| `PollSubscriptions.PollAfterRemoval` | TactilityKernel/source/system_event.cpp:197-237 | Once a subscription has been removed, and until it is added again, a poll still reports what is pending, and otherwise, also after such a report, that the subscription is gone |
| `PollSubscriptions.HoldsLastEvent` | TactilityKernel/source/system_event.cpp:73-95 | A registered subscription holds the data of the last matching event, cut at the size of its buffer, and none before the first |
| `PollSubscriptions.ListHoldsTheRegistered` | TactilityKernel/source/system_event.cpp:167-219 | In every run the list holds exactly the registered subscriptions, each of them once |
| `PollSubscriptions.SubscribeTwiceNeverEnds` | TactilityKernel/source/system_event.cpp:176-190 | Adding a subscription keeps the list finite if and only if it was not in it; the check turns down only the one at the head |
| `PollSubscriptions.PollList.Subscribe` | TactilityKernel/source/system_event.cpp:167-195 | Refuses without a bit or for the node at the head, and changes nothing; puts any other new subscription in front and resets it; one that is further down turns the list into a circle |
| `PollSubscriptions.PollList.Unsubscribe` | TactilityKernel/source/system_event.cpp:197-219 | Takes out exactly that subscription |
| `PollSubscriptions.PollList.Notify` | TactilityKernel/source/system_event.cpp:73-95 | Every registered subscription takes note of a matching event, and no other |
| `PollSubscriptions.Subscription.Poll` | TactilityKernel/source/system_event.cpp:221-237 | Succeeds if there is something new, and marks it as seen |
| `PollSubscriptions.Subscription.GetData` | TactilityKernel/source/system_event.cpp:239-253 | Copies the data if there is room for all of them |
| `FrameTransport.AllPayloadsArrive` | Buildscripts/TactilitySDK/Tools/shell.py:258-272 | Popping the bytes of any sequence of send_frame calls gives exactly the frames sent, in order; put together they are the payloads |
| `FrameTransport.CutMeaning` | Buildscripts/TactilitySDK/Tools/shell.py:258-261 | The pieces of a payload have its kind, all but the last have 1024 bytes and that at most as many, and they are the payload when put together |
| `FrameTransport.EncodeMeaning` | Buildscripts/TactilitySDK/Tools/shell.py:258-261 | A frame is its kind, the length of its payload as two bytes with the more significant one first, and the payload |
| `FrameTransport.PopAllEncoded` | Buildscripts/TactilitySDK/Tools/shell.py:263-272 | Popping gives back the frames that were encoded, and leaves an incomplete one |
| `FrameTransport.PopNothingEarly` | Buildscripts/TactilitySDK/Tools/shell.py:263-272 | Nothing is popped before all of a frame is there |
| `FrameTransport.PopStays` | Buildscripts/TactilitySDK/Tools/shell.py:263-272 | Data behind a complete frame do not change it |
| `FrameTransport.Sender.SendFrame` | Buildscripts/TactilitySDK/Tools/shell.py:258-261 | The loop sends the encoded pieces of the payload; an empty payload is one empty frame |
| `FrameTransport.Connection.ReadLine` | Buildscripts/TactilitySDK/Tools/shell.py:247-256 | Uses exactly the line and its line feed, or nothing; a line that is there is found however it was received |
| `FrameTransport.Connection.ReadFrame` | Buildscripts/TactilitySDK/Tools/shell.py:274-283 | The next frame is the first one of all that is unused, however that was received; without one nothing is lost |
| `FrameTransport.ReadSession` | Buildscripts/TactilitySDK/Tools/shell.py:247-283 | The greeting line and then exactly the frames sent behind it are read, in order, however all of it was cut into pieces |
| `FrameTransport.Connection.PopFrame` | Buildscripts/TactilitySDK/Tools/shell.py:263-272 | Takes the first complete frame off the buffer |
| `FrameTransport.ChunksDoNotMatter` | Buildscripts/TactilitySDK/Tools/shell.py:337-347 | However the output is cut into chunks, the terminal gets the same bytes |
| `FrameTransport.OutputMeaning` | Buildscripts/TactilitySDK/Tools/shell.py:337-347 | Every line feed comes behind a carriage return, of which one is added for each line feed without one; the text is otherwise the same, and whole line ends stay as they are |
| `FrameTransport.WriteOutput` | Buildscripts/TactilitySDK/Tools/shell.py:337-347 | The loop writes that output |
| `Keyboard.Driver.ReadKey` | Devices/cl32-v04/source/cl32_v4_keyboard.cpp:263-290 | With nothing waiting, exactly the down codes among the events that one drain takes are added to what was pressed, and exactly its answers are used up, else the chip is not asked; what was handed out and what waits is exactly the report of all down codes ever read, so no event is dropped; the next of them is handed out |
| `Keyboard.Driver.DrainEvents` | Devices/cl32-v04/source/cl32_v4_keyboard.cpp:227-261 | Reports exactly the down codes among the events of one drain, uses up exactly its answers, and clears the interrupt exactly if the status had the bit and the count could be read |
| `Keyboard.DrainMeaning` | Devices/cl32-v04/source/cl32_v4_keyboard.cpp:227-261 | One drain takes the events that the chip announces by a count above zero and that can be read, in order, up to the first that is not, and at most 16 |
| `Keyboard.Driver.TakeEvents` | Devices/cl32-v04/source/cl32_v4_keyboard.cpp:238-256 | The loop: the same from the read of the count on |
| `Keyboard.Driver.HandleKeyDown` | Devices/cl32-v04/source/cl32_v4_keyboard.cpp:179-225 | One key code more is reported, by at most two events, and the modifiers follow |
| `Keyboard.ReportsPairs` | Devices/cl32-v04/source/cl32_v4_keyboard.cpp:197-217 | Every key but the modifiers is reported once, by a press and the release of the same key |
| `Keyboard.LetterReports` | Devices/cl32-v04/source/cl32_v4_keyboard.cpp:120-217 | A letter, pressed after any keys, adds a press and a release; they carry its symbol if Fn is on and it has one, else the letter, in upper case if and only if Shift is on, and the Shift modifier if and only if Shift is on |
| `Keyboard.OthersReport` | Devices/cl32-v04/source/cl32_v4_keyboard.cpp:120-217 | Every other key but the modifiers adds a press and a release with its own character, or none for Menu, File and, with Fn, the page keys |
| `Keyboard.ModifiersToggle` | Devices/cl32-v04/source/cl32_v4_keyboard.cpp:61-68 | A press of Shift or Fn takes its own toggle one step on, and leaves the other one and the report alone |
| `Keyboard.PlainKeys` | Devices/cl32-v04/source/cl32_v4_keyboard.cpp:149-176 | The characters of digits, signs, white space and arrows |
| `Keyboard.ShiftLasts` | Devices/cl32-v04/source/cl32_v4_keyboard.cpp:179-225 | Until Shift is pressed again, a locked Shift stays and one pressed once lasts until the first ordinary key |
| `Keyboard.FnLasts` | Devices/cl32-v04/source/cl32_v4_keyboard.cpp:179-225 | The same for Fn |
| `Keyboard.ThreeShiftsCancel` | Devices/cl32-v04/source/cl32_v4_keyboard.cpp:61-68 | Pressing Shift three times changes nothing |
| `Keyboard.KeysDiffer` | Devices/cl32-v04/source/cl32_v4_keyboard.cpp:120-177 | Under the same modifiers two keys give the same character if and only if they are the two Enter keys or the two keys with a period |
| `Keyboard.WhatModifiersChange` | Devices/cl32-v04/source/cl32_v4_keyboard.cpp:120-177 | Shift matters exactly for letters that show no symbol; Fn exactly for the letters but Z and for the arrows |
| `Keyboard.Driver.PushPending` | Devices/cl32-v04/source/cl32_v4_keyboard.cpp:96-104 | Appends to the ring, or drops the event if it is full |
| `Keyboard.Driver.PopPending` | Devices/cl32-v04/source/cl32_v4_keyboard.cpp:106-114 | Takes the oldest event |
| `ModuleDrivers.Kernel.Start` | TactilityKernel/source/module.cpp:74-102 | A started module has each of its drivers in the ledger once, behind those that were there; a failed callback changes nothing |
| `ModuleDrivers.Kernel.Stop` | TactilityKernel/source/module.cpp:109-136 | It runs into a failed check exactly if one of its drivers is in use; otherwise none of them is left in the ledger and the others keep their order |
| `ModuleDrivers.Kernel.EnsureDestructed` | TactilityKernel/source/module.cpp:163-179 | After it none of the drivers of the module is left |
| `ModuleDrivers.Kernel.EnsureStarted` | TactilityKernel/source/module.cpp:146-161 | The module is in the ledger once and started |
| `ModuleDrivers.AppendedAndTakenOut` | TactilityKernel/source/module.cpp:88-125 | Taking out what was appended gives the driver ledger back |
| `ModuleDrivers.OneMoreRemoved` | TactilityKernel/source/module.cpp:121-123 | The step of the teardown loop, on the ledger and on the drivers |
| `ModuleDrivers.Kernel.RemoveDestruct` | TactilityKernel/source/driver.cpp:92-96 | Succeeds exactly for a driver in the ledger that is not in use |

## Left out

- AudioStream: the two directions of a device are independent copies, so one is modelled; volume, mute, gain, the search
  for codecs and change notifications play no part in the handle protocol.
- AudioStream: stop_device, which closes what is in the slot as set_enabled(false) does; and what close_stream does with
  the placeholder, which is no handle.
- Resampler: rounding of double precision positions, the floating-point gain of an input stream, and PCM of 8, 24 or 32
  bits, which the code treats as 16-bit samples.
- Resampler: errors of the codec, which are passed on.
- ChannelMix.ConvertChannels: channel counts for which the code never returns; `ChannelMix.DownmixEndsExactly` says
  exactly which these are.
- ChannelMix.MixChannel: the same, for one output; `ChannelMix.EndsExactly` says exactly which.
- Resampler.StreamConverter.Read: more than 127 channels, where the code takes more frames to be in a buffer than there
  are; `Resampler.FramesFitExactly` says exactly when.
- Resampler.StreamConverter.Write: the same.
- Resampler.StreamConverter.ReadStream: the same, where something is to be converted; the division by zero for a codec
  with 128 channels is an outcome of its own.
- Resampler.StreamConverter.WriteStream: the same, where something is to be converted.
- DeviceLifecycle: the order of listener notifications between racing calls, which the code does not fix, and the text
  of error logs.
- DeviceLifecycle: `device_add_child` on a parent that is not added aborts the system; such steps are not taken.
- LockOrder: locks that drivers, listeners and applications own themselves.
- Hotplug: what else happens to a device between its probe and its action; that is part of DeviceLifecycle.
- OnDemandQueue: the idle timeout of thread creation, stack sizes and thread priorities.
- FileOps: the wrap-around of the 32-bit `owners` and `completed` counters; a release and the deletion that follows it are
  one step, as nobody else can reach the link in between.
- PropertiesFile: errors of the file system, and the temporary file with its rename.
- Preferences: the creation of parent directories; has and opt are each one member for the three types besides text.
- ModuleGraph: YAML syntax and values of unexpected types other than that of dts-only.
- UpdateCommit: downloads, checksums and archive entries; an earlier ".old" folder is lost even when a commit fails, as
  the code removes it first.
- PollSubscriptions: the bits of event groups and the wakeup of waiting threads; listeners with callbacks.
- FrameTransport: TLS, the JSON greeting and its decoding, and the session loops.
- Keyboard: events that the chip loses itself, and whether clearing the interrupt bit works.
- ModuleDrivers: symbol lookup, and `destroying`, which is never seen set because the driver is gone by then.
- Hardware drivers, LVGL, applications and board definitions: thin wrappers and registration lists.
