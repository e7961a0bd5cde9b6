# Window manager model

A Dafny model of the window lifecycle orchestrator of a desktop shell
application: the `WindowManager` class of `src/WindowManager.ts`. The manager
reopens the application's top-level windows from persisted descriptors
(address plus optional geometry), keeps a live registry of open windows,
writes each window's geometry and address back into its descriptor when the
window closes, debounces frame-load events into one trailing
"maybeUrlChanged" notification per window, focuses the first window on
request, and on "all windows closed" resets the store to its defaults and
either reopens them (Darwin) or quits.

Layout:

- `descriptors.dfy` (module `Descriptors`): the descriptor as a value
  (`Descriptor`) and as the mutable object the store hands out
  (`WindowItem`), the four-fields-together invariant, the blank sentinel.
- `registry.dfy` (module `Registry`): the registry as a duplicate-free
  sequence, `indexOf` and `splice(index, 1)`.
- `geometry.dfy` (module `Geometry`): the value-level rules of geometry
  capture, the close update, URL normalisation, creation options and the
  maximize decision, with their round-trip lemmas.
- `debounce.dfy` (module `Debounce`): the per-window pending-timer state
  machine and the host's timer queue; a timer firing is an explicit step.
- `lifecycle.dfy` (module `Lifecycle`): the manager's window state as a value
  (`Snapshot`), its invariant (`Coherent`) and the loop of `openWindows` as a
  function (`OpenMany`) with its lemmas.
- `store.dfy` (module `Store`): the persisted store as the manager sees it,
  an in-memory class.
- `window_manager.dfy` (module `Manager`): the `WindowManager` class. Host
  windows are opaque handles; the host toolkit's calls (create, maximize,
  load, show, restore, focus) are methods that change the abstract window
  state held in the `host` field. Each event handler is a method the host
  calls when its event happens. The handlers, `SaveWindowState`,
  `WindowOptions` and the methods of `openWindows` are proved against the
  functions of `Geometry`, `Debounce` and `Lifecycle`; `OnClosed` against
  those of `Registry`; `FocusFirstWindow`, the constructor and the host
  calls state their new state directly.

Two rules of the code worth knowing:

- The window is maximized only when neither geometry pair is complete; a
  descriptor with only its size, or only its position, opens restored
  (`src/WindowManager.ts:96-106`). `OpensMaximized` and
  `PartialGeometryCompletes` state this rule.
- The timer callback sends the notification and leaves the remembered id in
  place (`src/WindowManager.ts:67-69`). `Elapsed` keeps it, and
  `Consistent` is stated so that a remembered id that already fired is
  harmless to clear again.

## Model

| member | source | states |
|---|---|---|
| Descriptors.ValuesOf | src/WindowManager.ts:80 | the descriptor objects' values, one per object, in order |
| Registry.IndexOf | src/WindowManager.ts:54 | the result is the first position holding the handle |
| Registry.Splice | src/WindowManager.ts:56 | removing one position keeps every other entry in its relative order |
| Registry.SpliceRemovesExactly | src/WindowManager.ts:53-57 | removing the handle's position from a duplicate-free registry removes exactly that handle, keeps every other, and leaves it duplicate-free |
| Registry.HandlesFresh | src/WindowManager.ts:108-115 | the handles of n windows created in a row are exactly those from start below start + n, and appending them to a registry of older handles keeps it duplicate-free |
| Geometry.InitialBounds | src/WindowManager.ts:108 | a new window's rectangle takes every geometry field given in its options |
| Geometry.Capture | src/WindowManager.ts:27-41 | a maximized window clears all four geometry fields, otherwise all four become its bounds; the address is kept; the result has all four or none |
| Geometry.CloseUpdate | src/WindowManager.ts:44-50 | the close update clears all four geometry fields of a maximized window and sets all four from the bounds otherwise, and takes the window's address unless it is the blank sentinel, in which case the previous address stays |
| Geometry.CloseKeepsRealUrl | src/WindowManager.ts:47-50 | closing never replaces a real address by the blank sentinel; the new address is the old one or the window's |
| Geometry.NormalizeUrl | src/WindowManager.ts:81-84 | the blank sentinel becomes the default address and every other address is unchanged |
| Geometry.NormalizeAllNoBlank | src/WindowManager.ts:80-84 | after normalisation no descriptor is blank, real addresses are untouched, geometry is never changed |
| Geometry.OptionsFor | src/WindowManager.ts:86-106 | options are hidden and without the scripting bridge; width and height are copied only when both are present, x and y likewise |
| Geometry.CreatedWindow | src/WindowManager.ts:96-113 | the window opened for a descriptor has its options, is shown with the descriptor's address, and is maximized exactly when no geometry pair was copied |
| Geometry.OpenCloseRoundTrip | src/WindowManager.ts:27-41 | a window opened from a complete descriptor and closed unmoved captures exactly that descriptor |
| Geometry.PartialGeometryCompletes | src/WindowManager.ts:96-106 | a descriptor with only one complete pair is not maximized, and capturing its window yields a complete descriptor that keeps that pair |
| Geometry.MaximizedRoundTrip | src/WindowManager.ts:28-33 | a window closed while maximized reopens maximized |
| Geometry.Opened | src/WindowManager.ts:80-113 | one created window per descriptor |
| Geometry.OpenedShown | src/WindowManager.ts:86-113 | every window opened for a descriptor is revealed, loads its address, was created hidden and without the scripting bridge, and is maximized exactly by the maximize rule |
| Geometry.OpenedNeverBlank | src/WindowManager.ts:80-113 | every window opened from normalised descriptors shows a real address, is revealed, was created hidden and without the scripting bridge |
| Debounce.AtMostOnePending | src/WindowManager.ts:61-70 | under the timer invariant a window has at most one scheduled timer, and none when its handler remembers none |
| Debounce.FrameLoaded | src/WindowManager.ts:62-70 | a frame-load event remembers a new timer id scheduled for its window |
| Debounce.FrameLoadedKeepsConsistent | src/WindowManager.ts:62-70 | a frame-load event keeps the timer invariant |
| Debounce.FrameLoadedReplaces | src/WindowManager.ts:62-70 | after a frame-load event exactly the new timer is scheduled for the window; other windows' timers are unchanged |
| Debounce.Elapsed | src/WindowManager.ts:67-69 | exactly the firing timer is removed, every other stays scheduled, and its window receives one notification; the remembered id is kept |
| Debounce.ElapsedKeepsConsistent | src/WindowManager.ts:67-69 | a timer firing keeps the invariant and leaves its window with no scheduled timer |
| Debounce.Burst | src/WindowManager.ts:62-70 | n frame-load events hand out n timer ids and send nothing |
| Debounce.BurstKeepsConsistent | src/WindowManager.ts:62-70 | a burst of frame-load events keeps the timer invariant |
| Debounce.BurstLeavesOne | src/WindowManager.ts:62-70 | however long the burst, exactly one timer (the last) is scheduled for the window |
| Debounce.BurstNotifiesOnce | src/WindowManager.ts:62-70 | a burst followed by the quiet period yields exactly one notification and leaves nothing scheduled |
| Lifecycle.OpenOne | src/WindowManager.ts:108-115 | one loop turn appends the next handle to the registry |
| Lifecycle.OpenMany | src/WindowManager.ts:80-116 | n loop turns hand out n handles |
| Lifecycle.OpenOneKeepsCoherent | src/WindowManager.ts:108-115 | one loop turn keeps the manager invariant |
| Lifecycle.OpenManyKeepsCoherent | src/WindowManager.ts:80-116 | the whole loop keeps the manager invariant |
| Lifecycle.OpenManyRegistry | src/WindowManager.ts:80-116 | the registry becomes the old one followed by one new handle per descriptor, in descriptor order; no timer is scheduled or fired |
| Lifecycle.OpenManyHost | src/WindowManager.ts:108-113 | the k-th new handle is the k-th created window and every earlier window is unchanged |
| Lifecycle.OpenManyDescriptors | src/WindowManager.ts:114 | the k-th new window's handlers are bound to the k-th descriptor object; earlier bindings are unchanged |
| Lifecycle.OpenManyDebounce | src/WindowManager.ts:61 | every new window starts with no timer; earlier windows keep theirs |
| Lifecycle.OpenedShowEach | src/WindowManager.ts:80-115 | every new window exists, loaded its descriptor's address, is shown, and is maximized exactly by the maximize rule |
| Lifecycle.OpenManyAttached | src/WindowManager.ts:114 | every live window stays bound to one of the store's descriptor objects, the ones the close handler updates and save() persists |
| Lifecycle.ClosedKeepsCoherent | src/WindowManager.ts:53-57 | removing a closed window keeps the manager invariant |
| Lifecycle.FrameLoadedKeepsCoherent | src/WindowManager.ts:62-70 | a frame-load event keeps the manager invariant |
| Lifecycle.ElapsedKeepsCoherent | src/WindowManager.ts:67-69 | a timer firing keeps the manager invariant |
| Store.StateManager.GetWindows | src/WindowManager.ts:74 | returns the current descriptor objects, or none |
| Store.StateManager.RestoreWindows | src/WindowManager.ts:76 | the current set becomes fresh objects holding the defaults, which are persisted |
| Store.StateManager.Save | src/WindowManager.ts:51 | persists the current values, including in-place descriptor updates |
| Store.NewItems | src/WindowManager.ts:76 | fresh, pairwise distinct descriptor objects holding the given values |
| Manager.WindowManager.constructor | src/WindowManager.ts:8-9 | a manager with its own fresh store (holding fresh descriptor objects when a set was persisted), the given host rectangle and an empty registry |
| Manager.WindowManager.NewBrowserWindow | src/WindowManager.ts:108 | a new hidden blank window with the next handle, sized by its options |
| Manager.WindowManager.Maximize | src/WindowManager.ts:110 | only that window becomes maximized |
| Manager.WindowManager.LoadUrl | src/WindowManager.ts:112 | only that window's address changes |
| Manager.WindowManager.Show | src/WindowManager.ts:113 | only that window is revealed |
| Manager.WindowManager.Restore | src/WindowManager.ts:125 | only that window stops being minimized |
| Manager.WindowManager.Focus | src/WindowManager.ts:127 | only that window is focused |
| Manager.WindowManager.SaveWindowState | src/WindowManager.ts:27-41 | the descriptor becomes the capture of the window's geometry |
| Manager.WindowManager.RegisterWindowEventHandlers | src/WindowManager.ts:43-71 | the window is bound to its descriptor and its debounce starts with no timer |
| Manager.WindowManager.OnClose | src/WindowManager.ts:44-52 | the window's descriptor becomes its close update, the store persists the current values, so a live window's entry is persisted with its close update, and the manager invariant holds |
| Manager.WindowManager.OnClosed | src/WindowManager.ts:53-57 | the registry loses exactly the closed window, keeps the order of the others, and stays duplicate-free |
| Manager.WindowManager.OnDidFrameFinishLoad | src/WindowManager.ts:62-70 | the timers become the frame-load transition, and the manager invariant holds |
| Manager.WindowManager.OnQuietPeriodElapsed | src/WindowManager.ts:67-69 | the timers become the firing transition, and the manager invariant holds |
| Manager.WindowManager.WindowOptions | src/WindowManager.ts:86-106 | the options and maximize flag are those of the rule; maximized exactly when no pair was copied |
| Manager.WindowManager.OpenWindow | src/WindowManager.ts:81-115 | one loop turn: the descriptor is normalised and the new state is one created window appended |
| Manager.WindowManager.OpenAll | src/WindowManager.ts:80-116 | every descriptor is normalised and the new state is one created window per descriptor, in order |
| Manager.WindowManager.OpenTurn | src/WindowManager.ts:80-116 | one loop turn keeps the loop invariant |
| Manager.WindowManager.FetchDescriptors | src/WindowManager.ts:74-78 | the descriptors to open are the stored ones, or freshly restored defaults when there are none; the store is reset only then |
| Manager.WindowManager.OpenWindows | src/WindowManager.ts:73-116 | restores exactly when the store is empty, normalises every descriptor, opens one window per descriptor in order, and keeps the manager invariant |
| Manager.WindowManager.FocusFirstWindow | src/WindowManager.ts:121-129 | no change with an empty registry; otherwise the first window is un-minimized and focused and nothing else changes |
| Manager.WindowManager.OnAllClosed | src/WindowManager.ts:12-24 | raised with an empty registry, the store is always reset to the defaults; on Darwin they are reopened, on other platforms nothing is opened and the handler quits |

## Left out

- `ApplicationUpdater` (`src/WindowManager.ts:118`): a collaborator whose code
  is not part of this model; so is the case of `windows[0]` being undefined
  when nothing was opened.
- The `StateManager` persistence format, file I/O and the generation of the
  default descriptor set and `DEFAULT_URL`: `StateManager` is not part of
  this model; the defaults and the default address are constructor inputs,
  and the store is an in-memory class.
- The preload script path and `console.assert` logging; the assertion of
  the "closed" handler is a precondition of `OnClosed`.
- The real 300 ms delay, the host's clock and the IPC message itself: a
  timer firing is the explicit step `OnQuietPeriodElapsed`, and a sent
  notification is an entry of `Timers.sent`.
- `app.quit()` and process termination: `OnAllClosed` returns `quits`.
- `process.platform`: the input `Platform`.
- Rendering, and the host's real window placement: a window created without
  a geometry field gets that field from the fixed rectangle `screen`, and
  maximizing does not change the reported bounds.
- Failures of the host and of the store: every host call (window creation,
  `src/WindowManager.ts:108`) and every store call (`:51`, `:74`, `:76`) is
  modelled as succeeding. The code catches nothing, so a throw on turn k of
  `openWindows` would leave descriptor k normalised and windows 0 to k-1
  registered and wired; the model does not capture that partial state.
- Manager.WindowManager.OpenAll: requires the descriptor objects to be
  pairwise distinct, which the store's invariant guarantees for every set it
  hands out.
- Manager.WindowManager.OpenWindows: the loop is split into
  `FetchDescriptors`, `OpenAll`, `OpenTurn` and `OpenWindow`; the order of
  the host calls inside one turn is kept.
