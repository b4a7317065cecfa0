# Scape, a model and its proofs

Scape is a Wayland compositor made of threads that talk over FIFO channels, and of small state machines
inside the display thread. This project models the parts whose correctness depends on more than one function
and proves what they promise.

How the modules are built: the objects that the program updates in place are classes (`InputState`,
`CallbackState`, `UdevState`, `Composition`, `EguiInner`, `CursorState`, ...) whose methods take the program's
branches and loops. The contract of each method says which step of a specification it performs
(`View() == Step(old(View()))`, where `View` is the object's state as a value). The lemmas are about these
steps, and the main ones about every run of them.

| module | what it is about |
|---|---|
| `Common` | options, points, rectangles, rounding |
| `InputThread`, `InputHistory` | key bindings and the routing of key events, over whole histories |
| `ConfigThread`, `CallbackProtocol`, `CallbackRuns` | Lua callbacks: the registry, the life of a reference across two threads and two queues, and which function each message and key calls |
| `Udev`, `UdevRuns` | devices, connectors, surfaces and outputs under hotplug |
| `FrameScheduler` | the three flags of a surface, idle callbacks and timers: nothing lost, bounded response, pacing |
| `WindowStack` | cycling through the windows of an application |
| `Layout` | mapping outputs to spaces, zones, placing windows |
| `Tiling` | outputs side by side, the pointer kept on them, the preview grid |
| `KeyStream`, `KeyFilter` | when a receiver of filtered key strokes keeps the right view; shortcut interception in the display thread |
| `EguiKeys` | which keys egui believes are down |
| `PointerConstraints` | pointer lock and confinement |
| `Resize` | anchoring of an interactive resize |
| `Cursor` | the animated cursor and its caches |
| `Shutdown`, `ShutdownRuns` | the shutdown protocol of main and four workers, and what its runs conserve |

Things the model records interactions with but does not decide are inputs: the key symbol and modifiers of an
event come from xkb, the success of setting up a surface from the graphics stack, the surface under a point
from the window tree, and whether a worker fails from the worker. Lua functions are numbers.

## What turned out not to hold

The code is modelled as it is. Where a promise that one would expect does not hold, a lemma says exactly
when it does:

- The input thread looks bindings up on releases too. Callbacks run once per press of a bound key if and only if
  no release is bound when it is handled (`InputHistory.OneRunPerBoundPressIff`), and since bindings are never
  removed, a key whose modifiers do not change while it is held always runs its callback twice
  (`InputHistory.UnchangedModifiersRunTwice`, with the instance `PlainBindingRunsTwice`).
- The second run leaves the symbol suppressed, so that the display can get a press without its release
  (`InputHistory.DisplayIsRightIffReleasesAre`, with the instance `DisplayMissesRelease`).
- A key name is lowercased before its case is looked at. A capital asks for shift if and only if it has no
  lower-case form (`InputThread.ShiftIsAddedIffCapitalRemains`), so no ASCII letter does.
- Callbacks leak: exactly replaced connector-change callbacks and those of bindings without a slot, which for
  ASCII names are the empty ones (`CallbackProtocol.StrandedExactly`, `LeaksAreForever`).
- Output names do not mention the device. A surface loses its output if and only if another connector sets one
  up under a name in use (`UdevRuns.SurfacesKeepOutputsIffNoNameTaken`).
- New zones can leave a default zone that no longer exists (`Layout.PlacementFailsIff`, `StaleDefaultZone`).
- An output keeps its first active space. A layout that moves it to another space leaves it with an active
  space that does not map it (`Layout.ActiveSpaceIsStaleIff` says exactly when).
- The pointer is clamped to the closed range of columns, so at the right end of outputs side by side its height is
  not clamped (`Tiling.ClampLandsOnOutput`, `TiledOutputsMissAPoint`). Moreover nothing puts the outputs side by
  side: the only call of `fixup_positions` is commented out (crates/scape-display/src/composition.rs:146) and a
  layout places outputs anywhere. `Tiling.EveryPointLandsIff` says for which placements no point is missed.
- A release whose symbol differs from that of its press, or is shared by another held key, upsets the
  interception of shortcuts (`KeyFilter.ReleaseIsConsistentIff` and `ClientIsRightIffReleasesAre`, with the
  instances `ChangedSymbolBreaksBalance` and `SharedSymbolBreaksBalance`).
- Egui loses a held key when another key code with the same egui key is released (`EguiKeys.ReleaseIsExactIff`).
- A relative motion gives the focus to what was under the pointer before it, so the focus is wrong at rest if and
  only if the last motion crossed a boundary (`PointerConstraints.FocusLagsBehind`).
- A resize never ends: the code after the release of the button is commented out, contrary to the comment in
  `ack_configure` (`Resize.ResizeNeverEnds`), and every later commit undoes moves on the dragged axes
  (`Resize.EveryLaterCommitAnchors`, `EndedResizeSnapsBack`).
- A named cursor whose images have no delay takes the time modulo zero (`Cursor.DrawingShowsTheFrame`).

## Model

| member | source | states |
|---|---|---|
| `InputThread.CapitalNamesDoNotImplyShift` | crates/scape-input/src/keymap.rs:8-73 | with ASCII letters a capital never adds shift, only the empty name has no slot, and names that differ only in case share a slot |
| `InputThread.SymbolFitsModifiers` | crates/scape-input/src/keymap.rs:57-73 | a named key is bound as itself, and a character is raised exactly if its slot has shift; with ASCII letters a slot has a capital with shift and a small letter without, and the letter is that of the name |
| `InputThread.BackspaceIsNamed` | crates/scape-input/src/keymap.rs:8-73 | without shift the backspace character and the backspace key have one slot |
| `InputThread.ShiftIsAddedIffCapitalRemains` | crates/scape-input/src/keymap.rs:8-73 | for any case maps: shift is added if and only if the first character of the lowered name is still a capital; there is no slot if and only if nothing is left of the name or that character cannot be raised again; names lowered to the same share a slot |
| `InputThread.Bind` | crates/scape-input/src/keymap.rs:75 | the nested insert changes the lookup of one (modifiers, symbol) pair and of no other |
| `InputThread.InputState.constructor` | crates/scape-input/src/lib.rs:22-63 | no bindings, nothing pressed or suppressed, nothing sent |
| `InputThread.InputState.SetKeymap` | crates/scape-input/src/keymap.rs:8-80 | binds the callback at the normalised slot and sends `ForgetCallback` for the one replaced; a name without a slot changes nothing |
| `InputThread.InputState.KeyboardShortcut` | crates/scape-input/src/keyboard.rs:62-97 | finds the callback bound to modifiers and symbol, if any |
| `InputThread.InputState.HandleKeyboardEvent` | crates/scape-input/src/keyboard.rs:7-59 | an event fires a callback, or is a swallowed release, or is forwarded, with the whole new state of each case |
| `InputHistory.SuppressedIffFiredSinceSwallowed` | crates/scape-input/src/keyboard.rs:40-51 | over every history, a symbol is suppressed if and only if a shortcut fired on it with no release of it swallowed since |
| `InputHistory.EveryEventHasOneOutcome` | crates/scape-input/src/keyboard.rs:40-58 | over every history, the display got exactly the forwarded events in order, and the config thread exactly one run request per event that fired, in order |
| `InputHistory.LookupIsLastBinding` | crates/scape-input/src/keymap.rs:75 | over every history, lookup gives the callback of the last binding normalising to the slot, and fails if and only if there is none |
| `InputHistory.OutcomeFromHistory` | crates/scape-input/src/keyboard.rs:7-59 | for every event of every history, from the history alone: it runs a callback, the one bound last, if and only if its symbol was bound before under the modifiers in force with it; else it is swallowed if and only if it is a release of a symbol on which a callback ran that no swallowed release has answered |
| `InputHistory.OneRunPerBoundPressIff` | crates/scape-input/src/keyboard.rs:40-51 | over every history, callbacks run exactly once per press of a bound symbol and at no other time, if and only if no release is of a symbol bound then |
| `InputHistory.OneRunPerPressIffUnboundOnRelease` | crates/scape-input/src/keyboard.rs:40-51 | whatever happens between a press of a bound symbol and a release, the press runs a callback, and the release runs one too if and only if its symbol was ever bound, before it, under the modifiers in force at it |
| `InputHistory.UnchangedModifiersRunTwice` | crates/scape-input/src/keyboard.rs:40-51 | a bound key whose modifiers do not change while it is held always runs a callback on release too, whatever is bound meanwhile |
| `InputHistory.PlainBindingRunsTwice` | crates/scape-input/src/keyboard.rs:42-46 | an instance where one press runs the callback twice and leaves the symbol suppressed |
| `InputHistory.DisplayIsRightIffReleasesAre` | crates/scape-input/src/keyboard.rs:40-58 | for every physically alternating history, the forwarded stream always alternates per key and leaves the display with exactly the held keys whose press it got down, if and only if each release is bound or suppressed exactly when its press was not forwarded |
| `InputHistory.DisplayMissesRelease` | crates/scape-input/src/keyboard.rs:42-51 | an instance where the display gets a press and never the release, with nothing held |
| `InputHistory.PressedAreHeld` | crates/scape-input/src/keyboard.rs:7-20 | over every history the pressed keys are those physically held |
| `KeyStream.AlwaysRightIff` | crates/scape-display/src/input_handler.rs:209-265 | for any filter of key strokes: the receiver always has down exactly the held keys whose press it got if and only if each release is passed on exactly when its press was |
| `ConfigThread.CallbackState.constructor` | crates/scape-config/src/callback.rs:16-21 | an empty registry whose first reference is 1 |
| `ConfigThread.CallbackState.RegisterCallback` | crates/scape-config/src/callback.rs:36-43 | the function is stored under the counter, which is incremented |
| `ConfigThread.CallbackState.RunCallback` | crates/scape-config/src/callback.rs:63-81 | runs the function of a registered reference and reports a missing one |
| `ConfigThread.CallbackState.ForgetCallback` | crates/scape-config/src/callback.rs:96-98 | removes the reference and nothing else |
| `ConfigThread.ConfigState.constructor` | crates/scape-config/src/lib.rs:46-56 | in the fresh state nothing is registered, no startup or connector-change callback is set, nothing is sent |
| `ConfigThread.ConfigState.OnMapKey` | crates/scape-config/src/keymap.rs:16-28 | registers the callback and sends its binding to the input thread |
| `ConfigThread.ConfigState.SetDefaultKeymaps` | crates/scape-config/src/lib.rs:164-294 | every default binding is registered and sent, in order |
| `ConfigThread.ConfigState.OnStartupRegistered` | crates/scape-config/src/lib.rs:302-313 | the replaced startup callback is forgotten before the new one is registered |
| `ConfigThread.ConfigState.OnConnectorChangeRegistered` | crates/scape-config/src/output.rs:30-38 | the new callback replaces the old one, which stays registered |
| `ConfigThread.ConfigState.HandleMessage` | crates/scape-config/src/lib.rs:62-95 | only `ForgetCallback` changes the registry; which function a message calls is said by `CallbackRuns` |
| `CallbackProtocol.StepKeepsInv` | crates/scape-config/src/callback.rs:36-98 | every step of either thread keeps conservation of references and the order of runs and forgets |
| `CallbackProtocol.InputTakesMoves` | crates/scape-input/src/keymap.rs:75-79 | a binding taken from the queue moves each reference to one new place: the bound one to its slot, the replaced one to the queue of those to forget |
| `CallbackProtocol.InputTakesComesFrom` | crates/scape-input/src/keymap.rs:56-79 | conversely, every place after a binding got its reference from the matching place before |
| `CallbackProtocol.EveryReferenceIsInOnePlace` | crates/scape-config/src/callback.rs:36-43 | in every interleaving each live reference is in exactly one place (in flight, bound, being forgotten, startup, connector change, leaked) and everything in a place is live |
| `CallbackProtocol.NoCallbackIsMissing` | crates/scape-config/src/callback.rs:63-81 | in every interleaving the callback that a received message asks for is registered |
| `CallbackProtocol.FunctionsNeverChange` | crates/scape-config/src/callback.rs:36-98 | in every run a live reference keeps its function |
| `CallbackProtocol.BindingsRunTheirFunction` | crates/scape-config/src/keymap.rs:16-28 | a mapped key gets a new reference, and every later request to run it calls the function it was mapped with, whatever was mapped, replaced and forgotten meanwhile |
| `CallbackRuns.StartupRunsLastSet` | crates/scape-config/src/lib.rs:62-95 | after every run a startup message calls exactly the function set last for startup, and nothing if none was set |
| `CallbackRuns.ConnectorChangeRunsLastSet` | crates/scape-config/src/output.rs:30-98 | after every run a connector change calls exactly the function set last for it, and nothing if none was set |
| `CallbackRuns.KeyFiresIffMapped` | crates/scape-input/src/keymap.rs:8-80 | after every run a key event runs a callback if and only if one of the keys mapped in the run, other than those still queued, has the slot of its symbol under the modifiers in force |
| `CallbackRuns.KeyCallsLastMapping` | crates/scape-config/src/keymap.rs:16-28 | and when the config thread gets to it, whatever happens until then, it calls the function that was mapped to that slot last |
| `CallbackRuns.MapKeysMapsEach` | crates/scape-config/src/lib.rs:164-294 | each default binding is registered under its own reference with its own function and sent in its place |
| `CallbackProtocol.ForgetsAreBehindRuns` | crates/scape-input/src/keymap.rs:76-79 | a queued request to forget a reference is behind every queued request to run it |
| `CallbackProtocol.ReferencesAreNeverReused` | crates/scape-config/src/callback.rs:36-43 | a reference given out and no longer live never becomes live again, and the counter never falls |
| `CallbackProtocol.StrandedExactly` | crates/scape-config/src/output.rs:30-38 | over every run, the live references that no queue, binding or setting holds are exactly the connector-change callbacks that were replaced and the callbacks of bindings without a slot |
| `CallbackProtocol.LeaksAreForever` | crates/scape-input/src/keymap.rs:57-60 | a stranded reference stays registered and stranded in every later run |
| `Udev.UdevState.constructor` | crates/scape-display/src/udev.rs:693-704 | no devices, outputs, idle callbacks or timers, and the invariant holds |
| `Udev.UdevState.ScheduleSurface` | crates/scape-display/src/udev.rs:1365-1400 | a request on a pending surface waits, on an idle one queues a render callback, and is otherwise absorbed |
| `Udev.UdevState.ScheduleSurfaces` | crates/scape-display/src/state.rs:662-678 | requests for all surfaces, one after the other |
| `Udev.UdevState.FrameFinished` | crates/scape-display/src/udev.rs:1170-1363 | a frame to be repainted makes a live surface with an output pending and starts its timer; nothing else changes anything |
| `Udev.UdevState.TimerFired` | crates/scape-display/src/udev.rs:1340-1360 | clears the pending flag and turns a wait into a request |
| `Udev.UdevState.IdleRan` | crates/scape-display/src/udev.rs:1382-1395 | clears the scheduled flag and no other, and attempts a render of the surface if it still exists (`FrameScheduler.StepChangesFlags`) |
| `Udev.UdevState.Connect` | crates/scape-display/src/udev.rs:842-1050 | a leasable connector is recorded, a failed surface changes nothing, and otherwise a fresh surface and an output under the connector's name appear |
| `Udev.UdevState.FindOutput` | crates/scape-display/src/udev.rs:1196-1207 | finds an output naming the device and crtc, and fails only if there is none |
| `Udev.UdevState.Disconnect` | crates/scape-display/src/udev.rs:1052-1095 | drops the leasable entry, or else the surface and exactly the outputs that name it |
| `Udev.UdevState.HandleReport` | crates/scape-display/src/udev.rs:1097-1131 | one report of the scanner keeps devices, surfaces and outputs in agreement |
| `Udev.UdevState.ChangeDevice` | crates/scape-display/src/udev.rs:1097-1131 | all reports of a scan, in order, keep the agreement |
| `Udev.UdevState.AddDevice` | crates/scape-display/src/udev.rs:774-840 | a new device with the reports of its first scan keeps the agreement |
| `Udev.UdevState.DisconnectAll` | crates/scape-display/src/udev.rs:1133-1168 | in whatever order the connectors are listed, disconnecting them all removes exactly the outputs of the device |
| `Udev.UdevState.RemoveDevice` | crates/scape-display/src/udev.rs:1133-1168 | removes the device and all its outputs and keeps the agreement |
| `Udev.ScanKeepsInv` | crates/scape-display/src/udev.rs:1041-1090 | every report keeps: outputs name live surfaces, no two the same one, and leasable connectors and surfaces are where the scanner says |
| `Udev.DeviceRemovedKeepsInv` | crates/scape-display/src/udev.rs:1133-1168 | after a device is removed no output refers to it, and the surfaces and outputs of all others are as before |
| `Udev.LeasableHasNoSurface` | crates/scape-display/src/udev.rs:1065-1090 | a connector recorded as leasable has no surface on its crtc, so the early branch of a disconnect strands nothing |
| `UdevRuns.OutputsAgreeWithSurfaces` | crates/scape-display/src/udev.rs:1041-1168 | over every run of hotplug and scheduling events each udev output names a live surface and no two name the same one |
| `UdevRuns.SurfacesKeepOutputsIffNoNameTaken` | crates/scape-display/src/udev.rs:1041-1043 | a step leaves each live surface with an output if and only if it does not set one up under a name in use |
| `UdevRuns.TakenNameLosesOutput` | crates/scape-display/src/udev.rs:1041-1043 | the surface whose output's name is taken stays alive without an output |
| `UdevRuns.DistinctNamesGiveBijection` | crates/scape-display/src/udev.rs:1041-1168 | while names stay distinct, udev outputs and live surfaces are in bijection over every run |
| `UdevRuns.SurfacesAreAsReported` | crates/scape-display/src/udev.rs:842-1168 | over every run a crtc has a surface, or a leasable connector, if and only if the last report about it set one up, and only an output with its connector's name refers to it |
| `UdevRuns.OutputsAreAsReported` | crates/scape-display/src/udev.rs:1041-1090 | while names stay distinct, the output under a name refers to a crtc if and only if the last report about the crtc set up a connector of that name |
| `UdevRuns.ForeignOutputsStay` | crates/scape-display/src/udev.rs:1073-1090 | outputs of other backends are left alone in every run in which no connector takes their name |
| `FrameScheduler.ScheduleRenderPromises` | crates/scape-display/src/udev.rs:1374-1395 | after a request exactly the surfaces promised before and the requested one are promised a render, and every flag is backed |
| `FrameScheduler.RequestsAreInOrder` | crates/scape-display/src/state.rs:662-678 | requests for several surfaces are made one after the other, in their order |
| `FrameScheduler.StepLosesNothing` | crates/scape-display/src/udev.rs:1334-1400 | every step keeps: owed renders are promised, `scheduled` has a queued idle callback, `pending` a timer, `waiting` implies `pending` and excludes `scheduled` |
| `FrameScheduler.NoRenderRequestIsLost` | crates/scape-display/src/udev.rs:1334-1400 | that holds over all runs, also when a surface reappears on the crtc of an old one while callbacks of the old one are queued |
| `FrameScheduler.HotplugKeepsLiveSurface` | crates/scape-display/src/udev.rs:1034-1040 | no hotplug event replaces the flags of a surface that is alive |
| `FrameScheduler.RankNeverRises` | crates/scape-display/src/udev.rs:1354-1395 | the distance of an owed render from its attempt never rises, and drops with the surface's timer at 2 and its idle callback at 1 |
| `FrameScheduler.RankIsBacked` | crates/scape-display/src/udev.rs:1334-1395 | at distance 2 a timer is outstanding, at distance 1 an idle callback is queued |
| `FrameScheduler.ServedFromTheQueue` | crates/scape-display/src/udev.rs:1380-1395 | with an idle callback of the surface at position k, the render is attempted by the time k + 1 idle callbacks have run, whatever happens in between |
| `FrameScheduler.ServedAfterTimerAndIdles` | crates/scape-display/src/udev.rs:1354-1395 | once a timer of the surface fires, the render is attempted by the time the idle callbacks then queued have run |
| `FrameScheduler.NoRenderBeforeTimer` | crates/scape-display/src/udev.rs:1334-1378 | after a frame no render of the surface is queued until its timer fires, however many are requested |
| `FrameScheduler.VBlankPaces` | crates/scape-display/src/udev.rs:1334-1357 | the vertical blank of a repainted frame begins such a pause |
| `FrameScheduler.StepChangesFlags` | crates/scape-display/src/udev.rs:1334-1395 | what one step does to the flags of a surface: a repaint makes it pending and only its timer ends that; a wait ends only then; while it is pending only its idle callback changes whether it is scheduled |
| `FrameScheduler.PendingLastsUntilTimer` | crates/scape-display/src/udev.rs:1334-1395 | once pending, a surface stays so over every run in which it lives and its timer does not fire, also with idle callbacks of it queued, whose number never grows |
| `FrameScheduler.PendingFollowsRepaintsAndTimers` | crates/scape-display/src/udev.rs:1334-1360 | over every run in which a surface lives it is pending exactly if its last repaint is later than the last timer of it that fired |
| `FrameScheduler.TimersAreConserved` | crates/scape-display/src/udev.rs:1334-1360 | over every run the timers of a surface that have fired and those outstanding are those it had and one for each repaint |
| `FrameScheduler.ExactlyOneIdleWithoutHotplug` | crates/scape-display/src/udev.rs:1380-1393 | without hotplug a surface has exactly one idle callback queued if it is scheduled and none otherwise |
| `WindowStack.FocusState.FocusWindow` | crates/scape-display/src/composition.rs:99-108 | raises the window and gives it the keyboard focus, if there is a space |
| `WindowStack.FocusState.WindowToFocus` | crates/scape-display/src/composition.rs:78-92 | the walk from the top picks the lowest window of the application if one of its windows is on top, and otherwise its highest |
| `WindowStack.FocusState.FocusWindowByAppId` | crates/scape-display/src/composition.rs:74-97 | true if and only if some window matches; then the picked window is raised and focused, else nothing changes |
| `WindowStack.FocusPermutes` | crates/scape-display/src/composition.rs:74-108 | no window is lost or duplicated, and the application ends up on top |
| `WindowStack.FocusRotates` | crates/scape-display/src/composition.rs:74-108 | the application's windows rotate by one if it is on top and keep their order otherwise; all others keep theirs |
| `WindowStack.FocusIsRoundRobin` | crates/scape-display/src/composition.rs:74-108 | with the application on top, request n focuses the n-th of its windows from the bottom, for each n below their number |
| `WindowStack.FullRoundRestoresOrder` | crates/scape-display/src/composition.rs:74-108 | as many requests as windows bring them back to their old order, on top of the others in theirs |
| `Layout.LayoutState.constructor` | crates/scape-display/src/state.rs:297-306 | there is one space, `main`, with no outputs, and there are no zones and no rules |
| `Layout.LayoutState.SetLayout` | crates/scape-display/src/composition.rs:115-141 | each named space maps exactly the listed ones of the known outputs, each at its last location; other spaces are unchanged; listed outputs without an active space get one that lists them |
| `Layout.LayoutState.ReconcileSpace` | crates/scape-display/src/composition.rs:118-140 | the same for one space, which becomes the active one of listed outputs that have none |
| `Layout.LayoutState.MapListed` | crates/scape-display/src/composition.rs:118-132 | every listed known output is mapped at its last location, and no output is unmapped |
| `Layout.LayoutState.UnmapUnlisted` | crates/scape-display/src/composition.rs:133-140 | exactly the known outputs that are not listed are unmapped |
| `Layout.LastLocationIsLast` | crates/scape-display/src/composition.rs:118-132 | of several locations listed for an output the last one counts |
| `Layout.ReconciledIsUnique` | crates/scape-display/src/composition.rs:115-141 | that determines the result, so it does not depend on the order in which the maps are walked |
| `Layout.ReconcilingIsIdempotent` | crates/scape-display/src/composition.rs:115-141 | applying a layout twice is the same as once |
| `Layout.ActiveSpaceIsStaleIff` | crates/scape-display/src/composition.rs:121-140 | after a layout an output's active space does not map it if and only if it had an active space already which the layout takes it from, or which is not named and did not map it |
| `Layout.LayoutState.SetZones` | crates/scape-display/src/composition.rs:64-72 | the zones become those listed, and the default the last one marked or else the old one |
| `Layout.ZonesOfNames` | crates/scape-display/src/composition.rs:64-72 | a zone exists if and only if it is listed, and of two with one name the later counts |
| `Layout.DefaultAfterIsMarked` | crates/scape-display/src/composition.rs:66-69 | the default zone is the last one marked; it is a listed one if any is marked, and the old one otherwise |
| `Layout.DefaultIsMarkedLast` | crates/scape-display/src/composition.rs:64-72 | after every run of zone lists the default zone is the last one marked in the last list that marks any, and there is none if no list does |
| `Layout.StaleDefaultZone` | crates/scape-display/src/composition.rs:20-72 | a window without a rule cannot be placed after new zones if and only if none is marked as default and the old default is not listed |
| `Layout.PlacementFailsIff` | crates/scape-display/src/composition.rs:20-72 | over every run of zone lists, a window cannot be placed if and only if the zone asked for, or without one the zone of its rule, or without one the zone last marked as default in any list so far, is not in the last list |
| `Layout.PlacementIsDecided` | crates/scape-display/src/composition.rs:20-62 | a window is placed in the last zone of the last list with the name that decides, the one asked for, else that of its rule, else the default, and at the fallback if nothing decides |
| `Tiling.Space.FixupOutputs` | crates/scape-display/src/shell.rs:342-354 | every output starts where the ones before it end, at the top, with its identity and size kept |
| `Tiling.TilesPartitionColumns` | crates/scape-display/src/shell.rs:342-354 | the tiled outputs do not overlap and cover exactly the columns from 0 to their total width |
| `Tiling.ClampIsIdempotent` | crates/scape-display/src/input_handler.rs:1193-1224 | clamping twice is the same as once |
| `Tiling.ClampLandsOnOutput` | crates/scape-display/src/input_handler.rs:1193-1224 | on tiled outputs the clamped point is on one of them if and only if it was left of the right end or its height fits an output that ends there |
| `Tiling.ClampMovesStraight` | crates/scape-display/src/input_handler.rs:1193-1224 | a point over the columns of an output moves only vertically, onto that output; one left of all outputs is treated as at their left edge |
| `Tiling.EveryPointLandsIff` | crates/scape-display/src/input_handler.rs:1193-1224 | however the outputs are placed, every point is clamped onto some output if and only if each column of the range has an output across the top row and, where that output begins above the top row, others fill in down to its height |
| `Tiling.TiledOutputsMissAPoint` | crates/scape-display/src/input_handler.rs:1193-1224 | side by side outputs never meet this: some point at their right end is clamped onto none |
| `Tiling.PreviewCellsAreDisjoint` | crates/scape-display/src/render.rs:389-423 | for any number of elements, previews of positive size do not overlap |
| `Tiling.PreviewCellsAreInside` | crates/scape-display/src/render.rs:389-423 | and they stay inside the output |
| `Tiling.PreviewGridIsRegular` | crates/scape-display/src/render.rs:389-423 | the first preview is in the upper left corner, each next one a padding to the right, or in the next row after at most four, and all have one size |
| `Tiling.PreviewsFillOutput` | crates/scape-display/src/render.rs:389-423 | rows and columns with their padding take up the whole output, up to half a pixel each |
| `Tiling.RowsAreNeeded` | crates/scape-display/src/render.rs:389-403 | there are just as many rows as needed |
| `KeyFilter.DisplayKeyboard.KeyToAction` | crates/scape-display/src/input_handler.rs:153-265 | which events are intercepted, which forwarded, what stays suppressed, and which action results |
| `KeyFilter.ForwardingIsBalanced` | crates/scape-display/src/input_handler.rs:209-265 | over every regular history and any shortcut lookup, the forwarded stream alternates per key, the client has down exactly the held keys whose press it got, and suppressed are exactly the symbols of the held intercepted keys |
| `KeyFilter.NothingHeldNothingSuppressed` | crates/scape-display/src/input_handler.rs:209-265 | with nothing held, nothing is suppressed and the client has nothing down |
| `KeyFilter.ReleaseIsConsistentIff` | crates/scape-display/src/input_handler.rs:209-256 | in any state where the client has the right view, a release of a held key keeps it right if and only if it is intercepted exactly when its press was, whatever its symbol now is, whoever shares it, and with or without an exclusive layer |
| `KeyFilter.ClientIsRightIffReleasesAre` | crates/scape-display/src/input_handler.rs:209-265 | for every physically alternating history, the client always has the right view if and only if each release is intercepted exactly when its press was |
| `KeyFilter.KeptFromClientIff` | crates/scape-display/src/input_handler.rs:209-265 | for every event of every history, from the history alone: a press is kept from the client if and only if it triggers a shortcut that is not inhibited, a release if and only if a shortcut was triggered with its symbol that no release has answered; and neither under an exclusive layer |
| `KeyFilter.ChangedSymbolBreaksBalance` | crates/scape-display/src/input_handler.rs:243-256 | an instance where the client gets a release without a press |
| `KeyFilter.SharedSymbolBreaksBalance` | crates/scape-display/src/input_handler.rs:243-256 | an instance with stable symbols: of two held keys with one symbol, both intercepted, the second release reaches the client, which has no press for it |
| `EguiKeys.EguiInner.constructor` | crates/scape-display/src/egui/mod.rs:109-133 | nothing pressed, no events, and an empty xkb state if there is a keymap |
| `EguiKeys.EguiInner.HandleKeyboard` | crates/scape-display/src/egui/mod.rs:182-215 | emits the key event, records or forgets the code, updates the xkb state and emits text on a press |
| `EguiKeys.EguiInner.KeyboardEnter` | crates/scape-display/src/egui/mod.rs:543-566 | each key held on entry is emitted as pressed and recorded |
| `EguiKeys.EguiInner.KeyboardLeave` | crates/scape-display/src/egui/mod.rs:568-588 | each recorded key is emitted as released and none stays recorded |
| `EguiKeys.EguiInner.Render` | crates/scape-display/src/egui/mod.rs:354 | the collected events are handed over once, in order |
| `EguiKeys.NoStuckKeys` | crates/scape-display/src/egui/mod.rs:182-588 | over every run of enter, leave, key events and frames, what egui sees down is among the recorded keys, and xkb, if there is a keymap, has down exactly the recorded codes |
| `EguiKeys.EguiIsToldTheSteps` | crates/scape-display/src/egui/mod.rs:182-588 | over every run egui is told exactly the key and text events of the steps, once each and in order; the recorded codes and the focus are those that the steps say |
| `EguiKeys.LeaveReleasesEverything` | crates/scape-display/src/egui/mod.rs:568-588 | after leaving, egui sees nothing down, nothing is recorded and xkb has nothing down |
| `EguiKeys.ReleaseIsExactIff` | crates/scape-display/src/egui/mod.rs:182-206 | a release keeps egui's view exact if and only if no other recorded code has the same egui key |
| `PointerConstraints.PointerState.OnPointerMove` | crates/scape-display/src/input_handler.rs:673-784 | a locked pointer stays, a confined one stays if it would leave, any other goes to the clamped destination, and the constraint there is activated |
| `PointerConstraints.LockedPointerNeverMoves` | crates/scape-display/src/input_handler.rs:686-727 | a locked pointer does not move, for every sequence of deltas |
| `PointerConstraints.ConfinedPointerStays` | crates/scape-display/src/input_handler.rs:686-754 | with static geometry a confined pointer stays on its surface and in its region, for every sequence of deltas |
| `PointerConstraints.PointerMovesUnlessLeaving` | crates/scape-display/src/input_handler.rs:724-763 | a pointer that is not locked reaches its destination if and only if it is there already, is not confined, or stays within the surface and region |
| `PointerConstraints.FreePointerMovesByDelta` | crates/scape-display/src/input_handler.rs:728-763 | a pointer that nothing constrains moves by exactly the delta on each axis, as long as that leaves it on an output |
| `PointerConstraints.FreePointerFollowsDeltas` | crates/scape-display/src/input_handler.rs:728-763 | over every such run it ends where it began plus the sum of the deltas |
| `PointerConstraints.InForceIff` | crates/scape-display/src/input_handler.rs:686-710 | a constraint is in force if and only if it is active and that of the surface under the pointer, everywhere without a region and else at the pixels of the region, relative to the surface, nearest to the pointer |
| `PointerConstraints.ActiveIffMovedOnto` | crates/scape-display/src/input_handler.rs:728-783 | over every run, a constraint is active if and only if it was or the pointer has moved onto its surface within its region; its kind and region never change |
| `PointerConstraints.FocusLagsBehind` | crates/scape-display/src/input_handler.rs:675-763 | over every run the focus is what was under the pointer before the last delta that moved it; at rest it is wrong if and only if that delta took the pointer onto something else |
| `PointerConstraints.BlockedRunsChangeNothing` | crates/scape-display/src/input_handler.rs:724-754 | a run in which every delta is blocked changes neither location, focus nor constraints |
| `Resize.EdgesRoundTrip` | crates/scape-display/src/grabs.rs:268-323 | protocol edges survive conversion and back; a set of edges does if and only if it combines no opposite sides |
| `Resize.EdgesHaveTheirSides` | crates/scape-display/src/grabs.rs:268-323 | each protocol edge has the sides in its name and no other |
| `Resize.RequestsAreWithinLimits` | crates/scape-display/src/grabs.rs:392-448 | a requested size is at least one pixel and within the client's limits; a request fails if and only if these are the wrong way round |
| `Resize.LimitsMean` | crates/scape-display/src/grabs.rs:425-448 | within the limits means at least one pixel, at least the minimum and at most the maximum, or unbounded for a maximum of zero |
| `Resize.RequestsAreNearest` | crates/scape-display/src/grabs.rs:392-448 | of all lengths within the limits the one asked for is nearest to the dragged one |
| `Resize.DraggedEdgesFollowPointer` | crates/scape-display/src/grabs.rs:392-448 | within the limits each dragged edge of the anchored window follows the pointer to within a pixel, exactly for whole pixels, and every other edge stays |
| `Resize.ToplevelResize.OnResizeRequest` | crates/scape-display/src/protocols/xdg_shell.rs:116-241 | records the window's location and size for grab and surface |
| `Resize.ToplevelResize.OnMotion` | crates/scape-display/src/grabs.rs:376-449 | a motion requests the clamped size and fails only for limits the wrong way round |
| `Resize.ToplevelResize.OnRelease` | crates/scape-display/src/grabs.rs:461-593 | ends the grab and leaves the resize state as it is |
| `Resize.ToplevelResize.OnCommit` | crates/scape-display/src/protocols/xdg_shell.rs:689-738 | moves a window being resized from the left or above, and otherwise only takes the new size (a final commit ends the resize, shell.rs:277-280) |
| `Resize.ToplevelResize.OnAckConfigure` | crates/scape-display/src/protocols/xdg_shell.rs:243-290 | the final ack of a resizing client moves on to waiting for its commit |
| `Resize.ResizeKeepsAnchor` | crates/scape-display/src/protocols/xdg_shell.rs:689-738 | over every run of motions, releases, acks and commits of any size, a left resize keeps x + width, a top resize y + height, and other axes their coordinate |
| `Resize.ResizeBeginsAnchored` | crates/scape-display/src/protocols/xdg_shell.rs:116-241 | so it does from every resize request on, in whatever state the window was |
| `Resize.EveryRequestedSizeIsWithinLimits` | crates/scape-display/src/grabs.rs:392-448 | over every run each size asked for is within the limits given with some motion of the run |
| `Resize.MotionDragsFromRequest` | crates/scape-display/src/grabs.rs:376-449 | over every run a motion asks for a size if and only if the grab's last event was a request, and drags from the window as it was then |
| `Resize.ResizeNeverEnds` | crates/scape-display/src/grabs.rs:461-593 | over every run the resize state is that of the last request, with the location and size the window had then, whatever releases, acks, commits and moves follow |
| `Resize.EveryLaterCommitAnchors` | crates/scape-display/src/protocols/xdg_shell.rs:689-738 | every commit after a request, in any run without a new one and with any other moves, pulls the window back to the old anchor on the axes dragged from the left or above, and moves no other axis |
| `Resize.EndedResizeSnapsBack` | crates/scape-display/src/grabs.rs:461-593 | after a request and any run without a new one, a window that is moved stays there at the next commit if and only if the new place agrees with the old anchor |
| `Resize.AwaitedAckEndsResize` | crates/scape-display/src/protocols/xdg_shell.rs:243-290 | were a final ack awaited, an ack and a commit would end the resize if and only if the ack is of that configure or a later one from a client that was resizing |
| `Cursor.NearestImagesAreNearest` | crates/scape-display/src/cursor.rs:242-256 | the choice from a non-empty list is non-empty: all images with the dimensions of one nearest in size |
| `Cursor.NearestIsFirst` | crates/scape-display/src/cursor.rs:242-247 | of the images nearest in size the first one decides |
| `Cursor.SameDimensionsKeepsOrder` | crates/scape-display/src/cursor.rs:249-255 | the chosen images keep their order, each as often as it occurs |
| `Cursor.FrameAtIsInterval` | crates/scape-display/src/cursor.rs:258-267 | frame k is shown at a time if and only if the time is between the total delays before and after it |
| `Cursor.FrameLastsItsDelay` | crates/scape-display/src/cursor.rs:258-267 | frame k is shown for exactly its delay |
| `Cursor.Frame` | crates/scape-display/src/cursor.rs:258-267 | below the total delay the walk finds that frame and never runs out of images |
| `Cursor.AnimationRepeats` | crates/scape-display/src/cursor.rs:119-153 | after any number of whole cycles setting the time fails, or shows the same buffer and caches the same images, as before them |
| `Cursor.SumDelays` | crates/scape-display/src/cursor.rs:109-112 | the total delay is the sum of all delays |
| `Cursor.CursorState.constructor` | crates/scape-display/src/cursor.rs:25-64 | the default icon is loaded and nothing is chosen or cached |
| `Cursor.CursorState.Update` | crates/scape-display/src/cursor.rs:74-94 | an icon is loaded once and invalidates the chosen images; any other status needs none |
| `Cursor.CursorState.ChangeScale` | crates/scape-display/src/cursor.rs:96-117 | images and total delay are chosen again if the scale or the icon changed |
| `Cursor.CursorState.ChangeTime` | crates/scape-display/src/cursor.rs:119-153 | shows the frame for the time, with its first buffer if it was shown before; fails on a total delay of zero |
| `Cursor.CallKeepsCoherence` | crates/scape-display/src/cursor.rs:74-153 | every call keeps the chosen images and delay those of the current icon, size and scale whenever they count as loaded, and each image and buffer cached once |
| `Cursor.Run` | crates/scape-display/src/cursor.rs:74-153 | that holds after every sequence of calls |
| `Cursor.RepeatedFramesReuseBuffers` | crates/scape-display/src/cursor.rs:128-150 | a frame shown once is shown with its first buffer after any further calls |
| `Cursor.DrawingShowsTheFrame` | crates/scape-display/src/cursor.rs:96-153 | setting scale and time shows the buffer of the icon's frame for that time, and fails if and only if none of its images has a delay |
| `Cursor.DrawingShowsTheLastIcon` | crates/scape-display/src/cursor.rs:25-153 | after any calls on a new cursor, drawing shows the frame for the time among the theme's images of the icon set last that are nearest to the nominal size times the scale |
| `Cursor.OtherStatusesDrawNothing` | crates/scape-display/src/cursor.rs:96-153 | while the status set last is no icon, drawing never fails and changes neither buffers nor the choice of images |
| `Shutdown.Comms.constructor` | crates/scape-shared/src/comms.rs:25-39 | all channels are open and empty |
| `Shutdown.Comms.RequestShutdown` | crates/scape-shared/src/comms.rs:56-60 | appends a request to main's channel, or panics if that is closed |
| `Shutdown.Comms.Send` | crates/scape-shared/src/comms.rs:77-156 | appends to the worker's channel if it is open and otherwise asks main to shut down; panics if both are closed |
| `Shutdown.MainData.constructor` | src/main.rs:82-114 | main is not shutting down and no timer is armed |
| `Shutdown.MainData.OnShutdownMessage` | src/main.rs:137-166 | the first request tells every worker in order and arms the timer or forces the shutdown; later ones do nothing |
| `Shutdown.MainData.OnTimer` | src/main.rs:149-156 | forces the shutdown |
| `Shutdown.MainData.OnWait` | src/main.rs:218-231 | main stops if and only if it is shutting down with all workers finished, or is forced to |
| `Shutdown.TellingStepsTellAll` | src/main.rs:142-160 | the separate steps of the broadcast amount to the whole when no other thread comes in between |
| `Shutdown.ShutdownIsOrderly` | src/main.rs:137-333 | every interleaving keeps the invariant, whichever workers fail and whatever they request |
| `Shutdown.FromTheStart` | src/main.rs:137-333 | from the start: one broadcast at most, a finished worker means a request is queued or main is shutting down, and main stops only if shutting down with all finished or forced |
| `Shutdown.NoWorkerStopsBeforeBroadcast` | src/main.rs:251-333 | without errors and panics every worker runs and none is asked to stop before main begins to shut down |
| `Shutdown.ChannelsNeverClose` | src/main.rs:118-210 | in no run does a worker see its channel closed: each owns a clone of the sending ends until it leaves its loop |
| `Shutdown.ToldWorkersStop` | src/main.rs:295-333 | with a shutdown message at position k of its queue, a worker has been asked or has left once it has handled k + 1 messages |
| `Shutdown.MainMayStop` | src/main.rs:137-333 | once main has told all workers, after each has handled the messages queued for it, has waited and has ended its thread, main may stop without being forced, whatever else happens in whatever order |
| `ShutdownRuns.RequestsAreConserved` | crates/scape-shared/src/comms.rs:77-156 | over every run, while main runs, the requests it has taken and those queued are those that were queued and one for each request, last act of a thread and message to a worker that has left |
| `ShutdownRuns.FailedSendsAreNoticed` | crates/scape-shared/src/comms.rs:77-156 | in every run from the start, once a message has failed a request is queued or main is shutting down |
| `ShutdownRuns.MessagesAreDeliveredInOrder` | crates/scape-shared/src/comms.rs:77-156 | over every run what a worker has received followed by what is queued for it is what was queued followed by what was sent to it |
| `ShutdownRuns.AskedIffReceived` | src/main.rs:295-333 | a worker was asked to stop if and only if it has received a shutdown message |
| `ShutdownRuns.RunsUntilItLeaves` | src/main.rs:251-333 | a worker runs until it waits after being asked, fails, sees its channel closed or sends in vain, and no longer |
| `ShutdownRuns.FinishedIffItEnded` | src/main.rs:251-291 | a worker has finished if and only if its thread ended after that |
| `ShutdownRuns.BroadcastIsInOrder` | src/main.rs:137-149 | main tells the workers in order, each once, if and only if it has taken a request |
| `ShutdownRuns.ForcedAndStoppedIff` | src/main.rs:149-231 | the shutdown is forced if and only if the timer fired or could not be armed, and main has stopped if and only if it waited when it was allowed to |

## Left out

- Rendering, DRM, GBM, EGL, Vulkan, PipeWire, D-Bus, Lua evaluation and the winit backend: foreign calls; only their outcomes appear, as inputs. A render attempt counts as made when `render` is called.
- A callback protocol in which a thread has ended: both threads are taken to run, so no send is lost. The display thread has an action that asks for a callback to be run, but nothing builds it, so only the input thread sends references. Errors of Lua functions and callbacks that register others while they run are not modelled.
- The case maps of key names are parameters; ASCII is one instance. Of the symbols for control characters only backspace is kept apart.
- xkb: modifiers and symbols of an event are inputs, LEDs are not modelled, and the set of codes xkb has down has no counts.
- EguiKeys.NoStuckKeys: assumes that the egui key is a function of the key code.
- EguiKeys.EguiInner.HandleKeyboard: does not say which text is emitted.
- KeyFilter.ForwardingIsBalanced: assumes that no layer is exclusive, that a key keeps its symbol while it is held and that held keys have distinct symbols; `KeyFilter.ClientIsRightIffReleasesAre` needs none of these.
- KeyFilter.DisplayKeyboard.KeyToAction: does not look inside the shortcut lookup, whose result is an input.
- Udev.UdevState.Connect: reduces setting up a surface to leasable, failed or ready. Leases, positions of new outputs and the initial render are not modelled.
- Udev.UdevState.AddDevice: does not model failures while the device is opened, which leave the state as it was.
- Udev.UdevState.FrameFinished: reduces the error classes, the session pause and the output mode to one input; a lost context, which panics, is not modelled.
- ConfigThread.CallbackState.RunCallback: does not model errors raised by the Lua function, which are reported and change no state.
- ConfigThread.ConfigState.HandleMessage: does not model shutdown, environment, spawning and the list of outputs; these messages do not touch callbacks.
- Resize.ToplevelResize.OnResizeRequest: begins after the checks of serial, grab and focus, which only drop requests.
- Tiling.ClampLandsOnOutput: assumes outputs side by side; `Tiling.EveryPointLandsIff` does not.
- Tiling.ClampMovesStraight: assumes outputs side by side.
- Hotplug assumes that a device is added only when absent, that the scanner reports only changes and no crtc or connector twice, and that it lists all live surfaces when a device is removed.
- WindowStack.FocusState.FocusWindowByAppId: takes all windows to have one z-index, so raising is moving to the top, and has the one space the code uses.
- Layout.LayoutState.MapListed: does not model the location kept by the output itself.
- Layout.LayoutState.SetLayout: does not model the location kept by the output itself, and says of the active space of an output listed in several spaces only that it is one of them, since both depend on the order in which spaces are walked.
- `start_outputs`, which returns at the first output already started, and `schedule_initial_render`: too simple to say something about runs.
- The part of `fixup_positions` that moves windows, and layer maps: depends on geometry of the library.
- PointerConstraints.ConfinedPointerStays: assumes that surfaces do not move meanwhile. That the library deactivates a constraint when its surface loses the focus is not modelled, nor is absolute motion.
- Tablets, touch, gestures, move grabs, popups, X11 windows, selections, session lock and screencopy: their logic is delegation to the library.
- Integer overflow and floating point: numbers are unbounded integers and exact reals. Casts that truncate or round are modelled; ones that saturate are not.
- Cursor.CursorState.ChangeTime: assumes, as the program does, that a theme has at least one image for each icon. Cursor surfaces are one opaque status.
- Shutdown.ToldWorkersStop: says nothing of scheduling; that a worker handles its queue is a premise. The length of the timer and the starting of threads are not modelled.
