# wlblur, modelled and proved in Dafny

wlblur is a blur service for Wayland compositors: a GPU library (`libwlblur`) and a daemon
(`wlblurd`) that serves it over a socket. This project models the state both of them keep and proves
what that state guarantees. `dafny verify dfyconfig.toml` checks everything.

How it is laid out:

- **GPU side.** `Gpu` is the driver: texture contents are terms of shader invocations, so an equation
  between images holds for every shader. `Layers` writes down the passes of a blur one by one.
  `Framebuffer` is the pool, `Kawase` the blur over it,
  `PoolRuns` what any sequence of blurs keeps, `Dmabuf` the import list and the export, and
  `BlurContext` the call that joins them.
- **Daemon side.** `Protocol` is the messages, `Kernel` the process and what the kernel decides for it.
  `DaemonState` is the daemon as a state machine, one step per event; `DaemonRuns`,
  `DaemonTheorems` and `DaemonRenders` prove what every run keeps, `SevenRenders` that the bound on
  renders is reached, and `DaemonLimits` where the daemon falls short, with inputs that show it. The code
  itself is in `BlurNodes` (heap list), `Connections` (client table), `Requests` (request handlers) and
  `EventLoop`, with `EventRuns` on the runs it makes; each handler reports the event it served and is
  proved to take the state exactly one step of the machine, and the whole program from startup through
  any number of rounds is proved to be one run of it.
- **Configuration.** `PresetTable` is the preset table as a value, `Presets` its heap form, `Config`
  loading and resolution, `ConfigKeys` what each key of a file sets, `Reload` the signal machine and the
  code that takes its steps. `EglHelpers` is the extension scan.

What a driver, the kernel or the allocator decides is left open: methods such as `GenTexture`, `NewFd`
and `EpollAdd` promise only what their real counterparts promise, and callers are proved against any
choice. So that nothing can fail without a reason, every such choice is recorded: the process keeps a log of
what accept, epoll_ctl, epoll_wait, recvmsg and each allocation came back with, and contracts fix the log
exactly; and with a driver that is `reliable`, one whose own calls never fail, blur, import and export
succeed exactly when the input and the pool allow; what the driver reports about an exported buffer is logged
too, and the reply repeats it. Real numbers stand for floats. Texture names, images and
descriptors may be released only while they are live, so "closed exactly once" follows from the accounts
balancing. A clause `P(x) == true` means `P(x)`; the form keeps a large predicate folded for the verifier.

Main results:

- The blur, which upsamples back into the buffers it downsampled into, leaves exactly the pure nested
  pipeline in the returned texture: 2n + 1 passes over the input, each with the size and the radius of its
  level, written down without reference to the pipeline. No pass samples its own target; buffers handed out
  earlier are untouched (`Kawase.Renderer.Blur`, `Kawase.PipelineIsBlurred`).
- Two framebuffers stay acquired per success and one per late failure, so a pool with nothing acquired
  serves at most (16 - n) / 2 blurs of n passes, seven at most, and then none ever again; with a driver
  that never fails it serves exactly so many of any one job. A full pool serves no size but those it holds
  (`PoolRuns.SuccessBound`, `PoolRuns.ExactlySoMany`, `PoolRuns.OtherSizesNeverSucceed`).
- So a daemon answers at most seven render requests in its life, whoever asks for what
  (`DaemonRenders.AtMostSevenRenders`), and there is a run that answers seven
  (`SevenRenders.SevenRendersHappen`).
- The descriptor sent in reply to a render request shows the blur of exactly the buffer that came with it, as
  a driver reads its size, format, stride, offset and modifier out of the import list, with the parameters
  the request asked for, and goes on showing it for the rest of the run
  (`DaemonRenders.SentBuffersStay`). Every image and temporary texture is gone on every path.
- The id in the reply to a create request is the one its node is found under, and it works for its owner
  after any run in which the owner sent nothing (`DaemonTheorems.CreatedServes`).
- The daemon invariant over all runs, client isolation in every step and over runs, no resurrection of ids,
  exact descriptor accounts with what leaks, one reply for every dispatched message, and the safety of a
  batch in which descriptors are closed and reused. `EventLoop.RunDaemon` is the code from startup through
  any number of rounds, and it is one run of that machine, whose events the logs pin to what really came back.
- The preset table refines a map for names of every length, and the plain map exactly for names of at
  most 31 characters. The extension scan decides token membership. The attribute list can be read back.
- No reload is lost: within five steps of the main loop after a signal a load begins, although signals and
  edits may come between any two statements. The code reads the file in the machine's loading step, after
  the flag has been cleared, and loads the version it read there: at the end of every number of rounds the
  settings in force are those of the version the latest reload read, unless an allocation has failed. Every
  round polls once, everything reported is handled in order, and a signal pending before a round is served
  in it (`EventLoop.Server.RunEventLoop`).
- A configuration table is accepted exactly if it writes valid parameters, missing keys filled in, and what
  it writes is what is in force after the load (`ConfigKeys.AcceptedIff`, `ConfigKeys.LastPresetIsFound`).

Where the code and its documents disagree, the model follows the code:

- The configuration guide (docs/configuration-guide.md:364-376) says an erroneous file keeps the settings
  in force; the code replaces them. `Config.ErroneousFileKeepsSettings` says exactly when nobody can tell
  the difference, and `Config.RadiusInDefaultsIsNotKept`, `Config.RadiusInPresetIsNotKept` and
  `Config.BuiltinsMayBeLost` are cases where it shows. The branch of `handle_config_reload` that rejects a
  loaded configuration is never taken.
- A preset name of more than 31 characters is stored but never found (`PresetTable.LongNameIsLost`).
- The daemon accepts noise up to 1.0, the library up to 0.1, so a preset with more is loaded and found but
  no render with it succeeds (`DaemonLimits.GrainyIsAccepted`, `DaemonLimits.GrainyIsRefused`).
- main.c never calls `ipc_protocol_init`, so the shipped daemon has no blur context and answers every
  render request with an error (`DaemonLimits.WithoutContextNothingRenders`).
- A node created when the 32-bit counter has wrapped to 0 is stored but reported as a failure, and a run
  gets there (`DaemonLimits.StoredButRefusedHappens`). The invariant is therefore stated for runs that
  issue fewer than 2^32 - 1 ids of each kind.
- A message may bring two descriptors: the control buffer is padded to 24 bytes, which holds both, and
  only the first is read. The second stays open for good (`DaemonLimits.SecondDescriptorStaysOpen`);
  `DaemonTheorems.NothingLeaksIff` says exactly which runs leak nothing.
- A reload always reads the default file (wlblurd/src/main.c:95), so a daemon started with `--config X`, the
  option in docs/configuration-guide.md:425, drops what only X says on the first SIGUSR1
  (`DaemonLimits.NamedFileIsDropped`).
- The enforced node limit is the constant 100 of blur_node.c, not the configured one.

## Model

| member | source | states |
|---|---|---|
| Kawase.ShiftIsHalving | libwlblur/src/blur_kawase.c:243-248 | one division by 2^(level + 1), clamped, equals halving level + 1 times without going below one pixel |
| Kawase.LevelsShrink | libwlblur/src/blur_kawase.c:242-248 | level sizes stay between one pixel and the full size and never grow with depth |
| Kawase.PyramidFitsImage | libwlblur/src/blur_kawase.c:240-251 | all n levels together hold at most width * height + n pixels, for every positive size |
| Kawase.PipelineIsBlurred | libwlblur/src/blur_kawase.c:262-390 | pass by pass from the outside in, without naming the pipeline: the finish with the four colour parameters; n upsamples to max(1, size / 2^k) with radius + k; n downsamples to max(1, size / 2^(k + 1)) with radius + k; the input |
| Framebuffer.FboPool.CreateFbo | libwlblur/src/framebuffer.c:14-68 | a new framebuffer has the asked size and a texture name nobody had; a failure leaves no texture behind |
| Framebuffer.FboPool.FindReusable | libwlblur/src/framebuffer.c:132-140 | the first free framebuffer of exactly that size, or none exists |
| Framebuffer.FboPool.Acquire | libwlblur/src/framebuffer.c:123-158 | reuse of the first match without touching memory, else growth by one below sixteen, else nothing changes; never an acquired one |
| Framebuffer.FboPool.Release | libwlblur/src/framebuffer.c:160-170 | exactly that framebuffer becomes free |
| Kawase.Renderer.AcquireLevels | libwlblur/src/blur_kawase.c:240-260 | pairwise different buffers of the level sizes, none of them held before; on failure everything is given back |
| Kawase.Renderer.DownsamplePasses | libwlblur/src/blur_kawase.c:262-291 | the smallest level holds the downsample chain of the input; one draw per level, only into the levels |
| Kawase.Renderer.UpsamplePasses | libwlblur/src/blur_kawase.c:293-342 | overwriting the levels bottom-up leaves the nested pipeline from level 1 in the first buffer |
| Kawase.Renderer.FullSizePass | libwlblur/src/blur_kawase.c:299-334 | the last upsample goes into a newly acquired full-size buffer; without one all levels are given back |
| Kawase.Renderer.FinishPass | libwlblur/src/blur_kawase.c:344-390 | post-processing into another new buffer; all levels are given back on every path; an error also gives back the result |
| Kawase.Accounts | libwlblur/src/blur_kawase.c:301-390 | the full-size buffer is never given back: one buffer retained by a late failure, two by a success, and a success needed passes + 2 free places |
| Kawase.Renderer.Blur | libwlblur/src/blur_kawase.c:216-391 | rejection exactly for invalid arguments; the returned texture holds 2n + 1 passes over the input, finish, upsamples and downsamples with the sizes and radii of their levels; only free buffers drawn to, none sampling itself; exact retained count per exit; 2n + 1 draws; the pool grows by two buffers, and by the levels only if none wait for them; with a reliable driver only a full pool makes it fail |
| PoolRuns.Accounting | libwlblur/src/blur_kawase.c:344-390 | over any sequence of calls the acquired count grows by exactly what the exits retain |
| PoolRuns.HeldIsStable | libwlblur/src/framebuffer.c:132-157 | a buffer held at some point stays held, keeps its contents and is never drawn to again |
| PoolRuns.ResultIsStable | libwlblur/src/blur_kawase.c:345-390 | a returned texture is never a target of a later call, nor returned again |
| PoolRuns.SuccessBound | libwlblur/src/blur_kawase.c:240-390 | from nothing acquired, calls of at least n passes succeed at most (16 - n) / 2 times, and never more than seven times |
| PoolRuns.ExhaustionIsPermanent | libwlblur/src/framebuffer.c:142-147 | once a call's passes + 2 buffers no longer fit, no call of as many passes ever succeeds |
| PoolRuns.ExactlySoMany | libwlblur/src/blur_kawase.c:240-390 | with a driver that never fails, from an empty pool, of the calls for one valid job exactly the first (16 - n) / 2 succeed, levels of equal size included |
| Kawase.Renderer.TakeLevel | libwlblur/src/blur_kawase.c:242-260 | if of every size as many buffers are free as the levels from this one on need, the level is served without growing the pool, and as many remain as those below need |
| PoolRuns.FullPoolIsFrozen | libwlblur/src/framebuffer.c:142-157 | slots never change texture or size, so sixteen occupied slots stay the same over any sequence of calls |
| PoolRuns.OtherSizesNeverSucceed | libwlblur/src/framebuffer.c:132-157 | once the pool is full, no call of a size that none of its framebuffers has ever succeeds |
| Dmabuf.PutPlane | libwlblur/src/dmabuf.c:53-66 | the keys and values of one plane, modifier halves included, are appended after what is there |
| Dmabuf.BuildAttributes | libwlblur/src/dmabuf.c:42-119 | the array holds the encoded list and the index stays within 47 of the 50 slots |
| Dmabuf.RoundTrip | libwlblur/src/dmabuf.c:46-119 | reading the list by the EGL key numbers returns size, format, planes and the 64-bit modifier, absent when invalid |
| Dmabuf.ListShape | libwlblur/src/dmabuf.c:43-119 | at most 47 entries, with one EGL_NONE among the keys, at the very end |
| Dmabuf.Import | libwlblur/src/dmabuf.c:22-164 | no EGLImage survives; a new texture showing the buffer that the attribute list describes, or nothing changed; with a reliable driver it succeeds exactly if the extension is there and the plane count is 1 to 4 |
| Dmabuf.Export | libwlblur/src/dmabuf.c:166-263 | no EGLImage survives; on success the attributes hold exactly what was newly opened, and every descriptor shows the given texture; else nothing stays open; with a reliable driver it succeeds exactly if the extension is there and there is a texture; format, modifier, plane count, strides and offsets are those the driver reported |
| Dmabuf.CloseAttribs | libwlblur/src/dmabuf.c:265-278 | each held descriptor is closed once and forgotten |
| BlurContext.TemporaryInput | libwlblur/src/blur_context.c:92-127 | a blur whose input texture exists only during the call leaves no texture outside the pool, and the pipeline of the input in the result |
| BlurContext.Context.ApplyBlur | libwlblur/src/blur_context.c:69-131 | on every path images balance and the imported texture is gone; on success the output's descriptors are exactly the new ones and show the texture that holds the pipeline of the import; with a reliable driver the blur is made exactly for valid input, only a full pool makes it fail, and the error code is exactly the one of the first check that fails; the output repeats what the driver reported about it |
| EglHelpers.TokenIffDelimited | libwlblur/src/egl_helpers.c:24-26 | a space-free name is one of the tokens exactly if it occurs between spaces or string ends |
| EglHelpers.CheckExtension | libwlblur/src/egl_helpers.c:15-33 | the loop ends, and answers true exactly if the space-free name is a token, although it jumps ahead after a rejected hit |
| PresetTable.HashName | wlblurd/src/presets.c:19-25 | the 32-bit hash lands in the bucket of the unbounded djb2 value modulo 64, for signed characters too |
| PresetTable.AddRefinesUpdate | wlblurd/src/presets.c:115-147 | adding under any name is a map update at the bucket of the full name and the stored part of it |
| PresetTable.LookupRefinesRead | wlblurd/src/presets.c:152-166 | looking up reads that map, except that an over-long name is never found |
| PresetTable.TableIsKeyMap | wlblurd/src/presets.c:30-187 | after any additions whatever the table is the map of their keys |
| PresetTable.FoundIffShort | wlblurd/src/presets.c:136-143 | what was just added is found exactly if its name has at most 31 characters |
| PresetTable.LongNameIsLost | wlblurd/src/presets.c:137-141 | a preset named by 32 letters a is stored under 31 and not found |
| PresetTable.TriedIsKept | wlblurd/src/presets.c:115-147 | with memory running out anywhere, the table is that of the additions that came through |
| PresetTable.AllGranted | wlblurd/src/presets.c:115-147 | when every allocation that a sequence of additions asks for is granted, none of them is dropped |
| PresetTable.TableIsMap | wlblurd/src/presets.c:30-187 | with names that fit: lookups agree with a plain map, entries sit in their bucket, no name occurs twice, the size is the map's |
| Presets.Registry.CountIsSize | wlblurd/src/presets.c:145 | preset_count is the number of entries in all chains |
| Presets.Registry.Find | wlblurd/src/presets.c:158-163 | walking the chain ends at the first preset of that name |
| Presets.Registry.Add | wlblurd/src/presets.c:115-147 | the heap table takes exactly one step of the table; a preset that is there is updated without an allocation, a new one is stored exactly if its one allocation is granted, and otherwise nothing changes |
| Presets.Registry.Free | wlblurd/src/presets.c:171-187 | every allocated preset is freed exactly once and the table is empty |
| Config.AcceptedIsClean | wlblurd/src/config.c:77-203 | parameters that parse and validate are valid for the daemon and leave tint and vibrancy darkness zero |
| Config.ValidatorsAgree | libwlblur/src/blur_params.c:81-103 | what the daemon accepts untinted the library accepts exactly up to noise 0.1; what the library accepts the daemon accepts exactly for kawase |
| Config.LoadedIsClean | wlblurd/src/config.c:252-374 | whatever a file holds and whichever allocations fail, the settings loaded from it are valid |
| Config.LoadedInFull | wlblurd/src/config.c:252-374 | when every allocation that the load asks for is granted, everything the file describes is loaded |
| Config.ResolvedIsValid | wlblurd/src/presets.c:198-243 | with valid settings every name resolves to parameters the daemon accepts, and the library accepts exactly up to noise 0.1 |
| Config.SameAnswersIff | wlblurd/src/presets.c:198-243 | two configurations answer every name and override alike exactly if they agree on the defaults and on every preset |
| Config.ErroneousFileKeepsSettings | wlblurd/src/config.c:264-368 | the exact condition, over every erroneous file and every outcome of the allocations, for a reload to leave all answers as they were |
| Config.RadiusInDefaultsIsNotKept | wlblurd/src/config.c:324-336 | the guide's own example, a radius of 25, replaces the settings in force |
| Config.RadiusInPresetIsNotKept | wlblurd/src/config.c:352-363 | the same mistake in a preset makes the preset in force under that name disappear |
| Config.BuiltinsMayBeLost | wlblurd/src/config.c:276-280 | when memory runs out for the presets only, a syntax error loses even the built-in settings |
| Config.DaemonConfig.AddFromFile | wlblurd/src/config.c:342-368 | presets that do not parse or validate are skipped and all others added in file order, each stored exactly if it is there already or the allocation asked for it is granted |
| Config.DaemonConfig.ResolveName | wlblurd/src/presets.c:198-243 | named preset, configured defaults, built-in defaults, in this order |
| Config.Load | wlblurd/src/config.c:252-374 | what is loaded is a function of the file and of the outcomes of the allocations, which are exactly those the process was asked for and in that order; NULL exactly if a configuration cannot be allocated; defaults that the file writes with every key set are the ones in force |
| Config.LoadForReload | wlblurd/src/reload.c:73-87 | validation rejects nothing, so a reload yields what the load yields, with the same allocations |
| ConfigKeys.AcceptedIff | wlblurd/src/config.c:77-170 | a table is accepted as certain parameters exactly if they are valid and it writes them key by key, missing keys at their built-in values and the pass count cut to 32 bits |
| ConfigKeys.AcceptedRanges | wlblurd/src/config.c:153-203 | acceptance exactly for the algorithm kawase and the ranges of the seven numbers, spelled out |
| ConfigKeys.MissingIsBuiltin | wlblurd/src/config.c:77-140 | leaving out one key of a valid table changes its own field, to the built-in value, and no other |
| ConfigKeys.OthersAreRefused | wlblurd/src/config.c:59-72 | a table with any other algorithm string is refused |
| ConfigKeys.DefaultsAreLoaded | wlblurd/src/config.c:320-337 | with every allocation granted the defaults in force are those that [defaults] writes |
| ConfigKeys.LastPresetIsFound | wlblurd/src/config.c:342-368 | with every allocation granted the last preset under a short name is what a lookup of that name finds |
| ConfigKeys.StandardIsThere | wlblurd/src/presets.c:30-110 | each of the four standard presets is found with the listed parameters unless the file sets its name |
| ConfigKeys.UnusableIsBuiltin | wlblurd/src/config.c:264-336 | a file that cannot be read, parsed or used leaves the built-in defaults and the four standard presets, and no others |
| Reload.NoLostReload | wlblurd/src/reload.c:67-91 | in every reachable state the flag is set, or a load is about to start, or the latest load began after the latest signal |
| Reload.SignalIsServed | wlblurd/src/main.c:91-112 | within five steps of the main loop after any signal a load begins, which reads a file at least as new as at the signal |
| Reload.EverySignalIsServed | wlblurd/src/main.c:91-112 | every signal anywhere in a run, so in the code's own run, is served by a load that begins after it and reads a file at least as new, once five main steps have followed it |
| Reload.ServedInThreeRounds | wlblurd/src/main.c:91-134 | a record six main steps later, as after three rounds, has served every signal of the earlier one |
| Reload.Reloader.OnSignal | wlblurd/src/reload.c:29-32 | the handler sets the flag, whatever the file |
| Reload.Reloader.ReadFile | wlblurd/src/config.c:264-272 | only in the loading step; the contents returned are those of the version the machine reads then |
| Reload.Reloader.HandleConfigReload | wlblurd/src/reload.c:67-91 | with signals and edits between any two statements: what is loaded is the version of the file read in the machine's loading step, after the flag was cleared; afterwards the flag is set again or the load began after the latest signal |
| NodeList.RemoveIdMembers | wlblurd/src/blur_node.c:105-117 | destroying an id removes exactly that node |
| NodeList.OthersMembers | wlblurd/src/blur_node.c:122-140 | destroying a client's nodes removes exactly those |
| NodeList.OthersCommute | wlblurd/src/blur_node.c:122-140 | the clean-ups of two clients commute |
| BlurNodes.NodeRegistry.CountClient | wlblurd/src/blur_node.c:43-51 | the number of nodes a client owns |
| BlurNodes.NodeRegistry.Create | wlblurd/src/blur_node.c:56-88 | below the limit of 100 one allocation is asked for, and exactly if it is granted there is a new head node with the next id; at the limit, or if refused, 0 and no change; the counter wraps at 32 bits |
| BlurNodes.NodeRegistry.Lookup | wlblurd/src/blur_node.c:93-100 | the first node of that id, or none exists |
| BlurNodes.NodeRegistry.Unlink | wlblurd/src/blur_node.c:106-114 | writing through the pointer to a pointer removes one node and keeps the list acyclic and all others in place |
| BlurNodes.NodeRegistry.Destroy | wlblurd/src/blur_node.c:105-117 | the list is the old one without that id |
| BlurNodes.NodeRegistry.DestroyClient | wlblurd/src/blur_node.c:122-140 | the list is the old one filtered by owner, in order |
| Connections.Table.Register | wlblurd/src/client.c:24-41 | the first free of 64 slots gets the next id, otherwise 0 and no change |
| Connections.Table.FindClient | wlblurd/src/client.c:46-53 | the first active slot of that descriptor, or none exists |
| Connections.Table.Unregister | wlblurd/src/client.c:58-74 | the client's nodes, slot and descriptor go, and nothing else |
| Connections.Table.HandleNewConnection | wlblurd/src/main.c:36-62 | one accept step on every path, with the outcomes of accept and epoll_ctl as they were: descriptors that are not registered are closed and not watched |
| Connections.Table.HandleHangUp | wlblurd/src/main.c:122-127 | one hang-up step |
| Connections.Table.HandleCreate | wlblurd/src/ipc_protocol.c:55-79 | reply and registry of a create request, an id of 0 included, with the outcome of its one allocation as it was; the id in the reply is that of the stored node, with the size and parameters of the request |
| Connections.Table.HandleDestroy | wlblurd/src/ipc_protocol.c:174-193 | only the owner's node is destroyed; otherwise INVALID_NODE and no change |
| Connections.Table.Send | wlblurd/src/ipc.c:57-86 | only an open descriptor is sent; the reply and what the descriptor shows are logged |
| Requests.Handler.BlurOwned | wlblurd/src/ipc_protocol.c:107-160 | the state after the call is that of a blur of the request's own buffer with its resolved parameters, exported exactly if the library's guarantees say so; the first plane's descriptor shows its result |
| Requests.Handler.HandleRender | wlblurd/src/ipc_protocol.c:84-169 | blur only for an owned node with a context; a rendered reply has the size of the request, and the texture behind it the blur of the buffer that the fields of the request describe, with the parameters it asks for; all exported descriptors are new and the one to be sent shows the result |
| DaemonState.InputIsOfRequest | wlblurd/src/ipc_protocol.c:107-121 | a driver reads out of the import list the size, format, stride, offset and modifier of the request and the descriptor it came with |
| DaemonState.BlurShows | wlblurd/src/ipc_protocol.c:107-152 | what a render leaves in its texture, in terms of the fields of the request alone |
| Requests.Handler.Dispatch | wlblurd/src/ipc_protocol.c:237-263 | reply and state of every operation code; the descriptor to be sent is still open and shows the blur of the request's buffer |
| Requests.ClosedAgain | wlblurd/src/ipc_protocol.c:271-277 | closing the read and the sent descriptor leaves what was open before, a second received one, and the planes beyond the first |
| Requests.Handler.SendAndClose | wlblurd/src/ipc_protocol.c:265-277 | exactly one reply is handed to sendmsg, with the descriptor that shows the blur, while it is open; afterwards both descriptors are closed |
| Requests.Handler.HandleRequest | wlblurd/src/ipc_protocol.c:198-278 | every path takes one step of the machine: one reply sent if the message was dispatched and none otherwise, the read descriptor closed once and the sent one once |
| Kernel.Process.Receive | wlblurd/src/ipc.c:22-52 | a message brings no, one or two new descriptors, of which the first is read; the log has the message |
| EventLoop.Server.CheckReload | wlblurd/src/main.c:92-102 | a pending reload leaves in force what the version of the file it read and the allocations yield, else the old settings; no signal that came meanwhile is lost |
| EventLoop.Server.RunBatch | wlblurd/src/main.c:104-133 | any batch of reported descriptors is a feasible run of the machine, one event per report and in their order, and only open descriptors stay watched |
| EventLoop.Server.RunEventLoop | wlblurd/src/main.c:91-134 | any number of rounds, each polling once unless a poll fails, with signals, edits and reloads in between: one feasible run of the machine in which everything reported is handled, one event per report and in order; a signal pending at the call is served; two steps of the reload machine a round; the settings in force at the end are those of the version the latest reload read, unless an allocation failed |
| Kernel.Epoll.Wait | wlblurd/src/main.c:104-112 | a poll is logged; it reports watched descriptors, none twice, at most 32 |
| EventRuns.TurnedThen | wlblurd/src/main.c:91-134 | rounds and the rounds after them: all reports handled in order, signals that had come before served, main steps added up |
| EventRuns.Concatenate | wlblurd/src/main.c:91-134 | the runs of consecutive rounds make up one run |
| EventLoop.InitialConfig | wlblurd/src/main.c:170-178 | the program starts with what the first or else the default file yields, or not at all, with exactly the allocations these loads ask for |
| EventRuns.Life | wlblurd/src/main.c:163-239 | after every run from startup at most seven renders were answered; as long as the 32-bit ids have not been used up the invariant holds, and exactly the loop's, the clients' and the leaked descriptors are open |
| EventLoop.RunDaemon | wlblurd/src/main.c:163-239 | the program ends at once exactly if neither file yields a configuration; otherwise the settings at the start are those of the file asked for or else the default one, and startup and rounds are one run from there, with every report handled; reloads read the default file whatever file was asked for, and what is in force at the end is what the latest reload read |
| EventRuns.ReloadedIsInForce | wlblurd/src/reload.c:67-91 | after a reload the settings in force are those the file describes, unless an allocation was refused |
| EventRuns.StepIsTidy | wlblurd/src/main.c:36-133 | every step, at any id, keeps watched descriptors open, and watched those it is not about |
| EventRuns.ReportedIsBatch | wlblurd/src/main.c:104-133 | what epoll reports becomes events about watched descriptors, each at most once |
| DaemonRuns.AcceptKeeps | wlblurd/src/main.c:36-62 | accepting keeps ids and descriptors distinct and the epoll set equal to the active descriptors |
| DaemonRuns.HangUpKeeps | wlblurd/src/client.c:58-74 | a disconnect keeps every remaining node owned by an active client |
| DaemonRuns.RequestKeeps | wlblurd/src/ipc_protocol.c:55-193 | requests keep node ids distinct, owners active and at most 100 nodes per client |
| DaemonRuns.CountersCount | wlblurd/src/blur_node.c:72 | both counters are their start plus the ids issued, below 2^32 |
| DaemonRuns.StartedOk | wlblurd/src/main.c:161-186 | the invariant holds at startup |
| DaemonRuns.RunKeeps | wlblurd/src/main.c:91-134 | the invariant holds after every run that has not used up the 32-bit ids |
| DaemonTheorems.RequestIsolation | wlblurd/src/ipc_protocol.c:84-193 | any request leaves the sequence of everybody else's nodes as it was |
| DaemonTheorems.RunIsolation | wlblurd/src/main.c:104-133 | over any run without events about a client's descriptor its slot and the sequence of its nodes stay as they are |
| DaemonTheorems.DestroyedIsGone | wlblurd/src/ipc_protocol.c:187-190 | a destroyed node's id is gone |
| DaemonTheorems.DisconnectedIsGone | wlblurd/src/client.c:64-70 | after a disconnect the client's id and every id of its nodes are gone and it owns nothing |
| DaemonTheorems.NoResurrection | wlblurd/src/blur_node.c:72 | no run brings back a node id or a client id that is gone |
| DaemonTheorems.ForeignIsInvalid | wlblurd/src/ipc_protocol.c:93-98 | INVALID_NODE exactly for nodes the client does not own, and then nothing changes |
| DaemonTheorems.NeverServedAgain | wlblurd/src/ipc_protocol.c:93-185 | any later request that names a gone id gets INVALID_NODE |
| DaemonTheorems.CreatedIff | wlblurd/src/ipc_protocol.c:55-79 | a create request is answered with an id exactly if the client has fewer than 100 nodes, memory is granted and the counter is not 0, and with OUT_OF_MEMORY otherwise |
| DaemonTheorems.CreatedIsFound | wlblurd/src/ipc_protocol.c:65-77 | under the id in the reply the node of that client with the request's size and parameters is found, and no node had the id before |
| DaemonTheorems.CreatedServes | wlblurd/src/ipc_protocol.c:76-193 | after any run in which its owner sends nothing, a destroy request naming that id succeeds and a render request naming it is not INVALID_NODE |
| DaemonTheorems.ConnectedIff | wlblurd/src/main.c:36-62 | a connection is taken on, under the next id, open and watched, exactly if accept and epoll_ctl succeed and one of 64 slots is free; otherwise nothing of it is left |
| DaemonTheorems.RepliedIff | wlblurd/src/ipc_protocol.c:198-269 | a message is answered, once, exactly if it is a request of version 1 from a connected client; otherwise nodes and pool stay as they were |
| DaemonTheorems.StepBalance | wlblurd/src/ipc_protocol.c:265-277 | each step keeps the open descriptors equal to the loop's, the clients' and the leaked ones |
| DaemonTheorems.OpenInRun | wlblurd/src/ipc_protocol.c:198-278 | after any run exactly these descriptors are open |
| DaemonTheorems.LeakFree | wlblurd/src/ipc_protocol.c:163-277 | an export leaks nothing exactly if no plane but the first holds a descriptor |
| DaemonTheorems.NothingLeaksIff | wlblurd/src/ipc_protocol.c:198-278 | a run leaks nothing exactly if no message brought a second descriptor and no export had one beyond the first plane |
| DaemonLimits.SecondDescriptorStaysOpen | wlblurd/src/ipc.c:31-49 | a feasible run of two events, a connection and a message with two descriptors, after which the second is open and the first is not |
| DaemonTheorems.BatchKeepsSlot | wlblurd/src/main.c:114-133 | events about other descriptors leave a client's slot alone |
| DaemonTheorems.BatchIsSafe | wlblurd/src/main.c:114-133 | each event of a batch is handled for the client that held its descriptor when it was reported, though descriptors are closed and reused in between |
| DaemonRenders.RenderAccounting | wlblurd/src/ipc_protocol.c:142-168 | over any run each answered render costs two framebuffers for good; with renders of at least n passes, twice their number plus n stays within the pool of sixteen |
| DaemonRenders.AtMostSevenRenders | wlblurd/src/ipc_protocol.c:142-168 | from a start with an idle pool no run of the daemon, however long, answers more than seven render requests |
| SevenRenders.SevenRendersHappen | wlblurd/src/ipc_protocol.c:142-168 | with a driver that never fails and an empty pool there is a feasible run from the start that answers seven renders |
| DaemonRenders.ExhaustedForGood | libwlblur/src/framebuffer.c:142-147 | framebuffers are never given back, so a render that no longer fits is never answered later in a run |
| DaemonRenders.RoomIsEnough | wlblurd/src/ipc_protocol.c:84-169 | with a driver that never fails, a valid render of an owned node is answered with a blur whenever the pool has room for its levels and two more |
| DaemonRenders.FullPoolFixesSizes | libwlblur/src/framebuffer.c:132-157 | once the pool is full, no run ever answers a render of a size that none of its framebuffers has |
| DaemonRenders.OneReplyEach | wlblurd/src/ipc_protocol.c:198-269 | the replies of a run are one for each dispatched message, and earlier ones never change |
| DaemonRenders.SentBuffersStay | wlblurd/src/ipc_protocol.c:107-168 | the buffer sent for a render request has its size and shows the blur of the buffer that the fields of the request describe, with the parameters it asked for, at the end of any run that follows |
| DaemonRenders.SentBuffersDiffer | libwlblur/src/framebuffer.c:132-157 | no two replies of a run share a buffer |
| DaemonLimits.NoisyPresetNeverRenders | wlblurd/src/ipc_protocol.c:127-152 | remark: parameters with noise above 0.1 fail the library's check |
| DaemonLimits.GrainyIsAccepted | wlblurd/src/config.c:191 | a file with a preset of noise 0.5 loads and the preset is found under its name |
| DaemonLimits.GrainyIsRefused | libwlblur/src/blur_params.c:90 | a request that names it resolves to it and is never answered with a blur |
| DaemonLimits.WithoutContextNothingRenders | wlblurd/src/ipc_protocol.c:100-105 | remark: without a blur context at the start no run answers a render |
| DaemonLimits.NamedFileIsDropped | wlblurd/src/main.c:95 | once a reload has read an empty default file, with every allocation granted, a preset that the file named at the start has is not found |
| DaemonLimits.StoredButRefused | wlblurd/src/ipc_protocol.c:65-73 | a create request is refused though its node is stored exactly when the counter has wrapped to 0 |
| DaemonLimits.CounterGoesAnywhere | wlblurd/src/blur_node.c:72 | for every n there is a feasible run after which the node counter is 1 + n modulo 2^32 |
| DaemonLimits.StoredButRefusedHappens | wlblurd/src/blur_node.c:72 | so a run exists after which a create request is refused and its node stored |

## Left out

- Kawase.Renderer.Blur: a null renderer is not modelled, and the input must be a live texture other than a free pool buffer, as the imported texture of its one caller is.
- Kawase.ClampedShift: the shift is a division by a power of two, which it is for the positive sizes that reach it.
- EglHelpers.CheckExtension: excludes an empty name whose first position does not match, because the C loop then never ends; every caller passes a fixed, non-empty name.
- Dmabuf.BuildAttributes: the four planes the source spells out one after the other are a loop here.
- EventLoop.RunDaemon: the invariant is stated as long as the 32-bit ids have not been used up; everything else for any number of rounds.
- DaemonRuns.RunKeeps: says nothing beyond 2^32 - 1 ids of one kind, where ids repeat; DaemonLimits.StoredButRefused describes the step at the wrap.
- EventLoop.Server.RunEventLoop: runs for a given number of rounds or until epoll_wait fails; shutdown is not modelled.
- Requests.Handler.HandleRender: the parameters are resolved before the ownership check instead of after it; resolution has no effect.
- Shader contents, shader loading, quad geometry, EGL context creation and pool destruction: wrappers over libraries.
- TOML parsing and the search for a configuration file: loading starts from a parsed file.
- The daemon section of a configuration (socket path, log level, node limit): stored and never used for what is modelled.
- Floating-point rounding and NaN: reals are used.
- Logging and statistics: they change no state that is modelled. A reply that fails to be sent is logged and no more.
- Uninitialised fields of a refused reply: only its status is modelled.
- Signals other than SIGUSR1, shutdown, and socket setup.
- `wlblur_params_compute`, the library's own preset tables, error strings and version checks: one reading settles them.
