/** The window lifecycle orchestrator: the WindowManager class of
    src/WindowManager.ts. Host windows are opaque handles whose abstract state
    the manager holds in `host`; the methods that stand for the host toolkit's
    own calls (creating, maximizing, showing, focusing a window) change only
    that state. Each event handler the manager registers is a method that the
    host calls when the event happens. */
module Manager {
  import opened Descriptors
  import opened Registry
  import opened Store
  import opened Geometry
  import opened Debounce
  import opened Lifecycle

  /** process.platform, reduced to the one distinction the manager makes. */
  datatype Platform = Darwin | OtherPlatform

  class WindowManager {
    const store: StateManager
    /** The rectangle the host gives a window for geometry it is not told. */
    const screen: Bounds

    /** The live registry, in creation order. */
    var windows: seq<HandleId>
    /** The host's windows, open or closed, by handle. */
    var host: map<HandleId, HostWindow>
    /** The descriptor object each window's handlers were registered with. */
    var descriptorOf: map<HandleId, WindowItem>
    /** The frame-load debounce of every window and the host's timer queue. */
    var timers: Timers
    /** The handle the host gives the next window it creates. */
    var nextHandle: HandleId

    function State(): Snapshot
      reads this
    {
      Snapshot(windows, host, descriptorOf, timers, nextHandle)
    }

    ghost predicate Valid()
      reads this, store
    {
      store.Valid() && Coherent(State()) && Attached(State(), store.Items())
    }

    /** The manager with its own store; the window-all-closed handler it
        registers is OnAllClosed. */
    constructor (defaults: seq<Descriptor>, defaultUrl: string, stored: Option<seq<Descriptor>>, screen: Bounds)
      requires defaultUrl != Blank
      ensures Valid() && fresh(store) && this.screen == screen
      ensures store.defaults == defaults && store.defaultUrl == defaultUrl
      ensures stored.Some? ==> fresh(store.Items()) && store.Values() == stored.value
      ensures stored.None? ==> store.items.None?
      ensures State() == Snapshot([], map[], map[], Timers(map[], map[], 0, []), 0)
    {
      this.screen := screen;
      store := new StateManager(defaults, defaultUrl, stored);
      windows, host, descriptorOf := [], map[], map[];
      timers := Timers(map[], map[], 0, []);
      nextHandle := 0;
    }

    // ----- the host toolkit's calls, as changes of abstract window state -----

    /** new BrowserWindow(options): a hidden, blank window with a new handle. */
    method NewBrowserWindow(options: Options) returns (h: HandleId)
      modifies this`host, this`nextHandle
      ensures h == old(nextHandle) && nextHandle == h + 1
      ensures host == old(host)[h := HostWindow(options, InitialBounds(options, screen), false, false, false, options.show, Blank)]
    {
      h := nextHandle;
      host := host[h := HostWindow(options, InitialBounds(options, screen), false, false, false, options.show, Blank)];
      nextHandle := nextHandle + 1;
    }

    method Maximize(h: HandleId)
      requires h in host
      modifies this`host
      ensures host == old(host)[h := old(host)[h].(maximized := true)]
    {
      host := host[h := host[h].(maximized := true)];
    }

    method LoadUrl(h: HandleId, url: string)
      requires h in host
      modifies this`host
      ensures host == old(host)[h := old(host)[h].(url := url)]
    {
      host := host[h := host[h].(url := url)];
    }

    method Show(h: HandleId)
      requires h in host
      modifies this`host
      ensures host == old(host)[h := old(host)[h].(shown := true)]
    {
      host := host[h := host[h].(shown := true)];
    }

    method Restore(h: HandleId)
      requires h in host
      modifies this`host
      ensures host == old(host)[h := old(host)[h].(minimized := false)]
    {
      host := host[h := host[h].(minimized := false)];
    }

    method Focus(h: HandleId)
      requires h in host
      modifies this`host
      ensures host == old(host)[h := old(host)[h].(focused := true)]
    {
      host := host[h := host[h].(focused := true)];
    }

    // ----- the manager -----

    /** saveWindowState: record the window's geometry in its descriptor. */
    static method SaveWindowState(window: HostWindow, descriptor: WindowItem)
      modifies descriptor
      ensures descriptor.Value() == Capture(old(descriptor.Value()), window.maximized, window.bounds)
    {
      if window.maximized {
        descriptor.width := None;
        descriptor.height := None;
        descriptor.x := None;
        descriptor.y := None;
      } else {
        var bounds := window.bounds;
        descriptor.width := Some(bounds.width);
        descriptor.height := Some(bounds.height);
        descriptor.x := Some(bounds.x);
        descriptor.y := Some(bounds.y);
      }
    }

    /** registerWindowEventHandlers: bind window `h` to its descriptor and
        start its debounce with no timer. */
    method RegisterWindowEventHandlers(h: HandleId, descriptor: WindowItem)
      modifies this`descriptorOf, this`timers
      ensures descriptorOf == old(descriptorOf)[h := descriptor]
      ensures timers == old(timers).(pendingOf := old(timers).pendingOf[h := None])
    {
      descriptorOf := descriptorOf[h := descriptor];
      timers := timers.(pendingOf := timers.pendingOf[h := None]);
    }

    /** The "close" handler of window `h`: capture its geometry and its real
        address into its descriptor, then persist the whole state. */
    method OnClose(h: HandleId)
      requires Valid() && h in descriptorOf
      modifies descriptorOf[h], store`persisted, store`saves
      ensures Valid()
      ensures descriptorOf[h].Value() == CloseUpdate(old(descriptorOf[h].Value()), host[h])
      ensures store.persisted == store.Values() && store.saves == old(store.saves) + 1
      // a live window's descriptor is persisted with its close update
      ensures h in windows ==> descriptorOf[h] in store.Items()
      ensures forall k :: 0 <= k < |store.Items()| && store.Items()[k] == descriptorOf[h] ==>
        store.persisted[k] == CloseUpdate(old(descriptorOf[h].Value()), host[h])
    {
      var window := host[h];
      var descriptor := descriptorOf[h];
      SaveWindowState(window, descriptor);
      var url := window.url;
      if url != Blank {
        descriptor.url := url;
      }
      store.Save();
    }

    /** The "closed" handler of window `h`: remove it from the registry. The
        window must be registered (the code checks it with console.assert). */
    method OnClosed(h: HandleId)
      requires Valid() && h in windows
      modifies this`windows
      ensures Valid()
      ensures windows == Splice(old(windows), IndexOf(old(windows), h))
      ensures h !in windows && |windows| == |old(windows)| - 1
      ensures forall g :: g in windows <==> g in old(windows) && g != h
    {
      var index := IndexOf(windows, h);
      ClosedKeepsCoherent(State(), h);
      SpliceRemovesExactly(windows, h);
      windows := windows[..index] + windows[index + 1..];
    }

    /** The "did-frame-finish-load" handler of window `h`: cancel its pending
        notification, if any, and schedule a new one. */
    method OnDidFrameFinishLoad(h: HandleId)
      requires Valid() && h in descriptorOf
      modifies this`timers
      ensures Valid()
      ensures timers == FrameLoaded(old(timers), h)
    {
      FrameLoadedKeepsCoherent(State(), h);
      var t := timers;
      var pending := t.pendingOf[h];
      if pending.Some? {
        // clearTimeout, and forget the id
        t := t.(scheduled := t.scheduled - {pending.value});
        t := t.(pendingOf := t.pendingOf[h := None]);
      }
      // setTimeout: the host hands out a new timer id
      var id := t.next;
      t := t.(scheduled := t.scheduled[id := h], next := id + 1);
      t := t.(pendingOf := t.pendingOf[h := Some(id)]);
      assert t.pendingOf == timers.pendingOf[h := Some(id)];
      assert t == FrameLoaded(timers, h);
      timers := t;
    }

    /** The quiet period of timer `t` elapses: its window is sent one
        "maybeUrlChanged" notification. */
    method OnQuietPeriodElapsed(t: TimerId)
      requires Valid() && t in timers.scheduled
      modifies this`timers
      ensures Valid()
      ensures timers == Elapsed(old(timers), t)
    {
      ElapsedKeepsCoherent(State(), t);
      var h := timers.scheduled[t];
      timers := timers.(scheduled := timers.scheduled - {t});
      timers := timers.(sent := timers.sent + [h]);
    }

    /** The creation options and maximize decision of openWindows for one
        descriptor: hidden, no scripting bridge, a geometry pair copied only
        when both of its fields are present, and maximized when neither pair
        was copied. */
    static method WindowOptions(descriptor: WindowItem) returns (options: Options, isMaximized: bool)
      ensures options == OptionsFor(descriptor.Value())
      ensures isMaximized == OpensMaximized(descriptor.Value())
      ensures isMaximized <==> options.width.None? && options.x.None?
    {
      options := Options(false, false, None, None, None, None);
      isMaximized := true;
      if descriptor.width.Some? && descriptor.height.Some? {
        options := options.(width := descriptor.width, height := descriptor.height);
        isMaximized := false;
      }
      if descriptor.x.Some? && descriptor.y.Some? {
        options := options.(x := descriptor.x, y := descriptor.y);
        isMaximized := false;
      }
    }

    /** One turn of openWindows' loop: replace a blank address by the default
        one, create the window with the options derived from the descriptor,
        maximize it if so decided, load the address, reveal the window,
        register its handlers and append it to the registry. */
    method OpenWindow(descriptor: WindowItem) returns (window: HandleId)
      modifies descriptor, this`windows, this`host, this`descriptorOf, this`timers, this`nextHandle
      ensures descriptor.Value() == Normalize(old(descriptor.Value()), store.defaultUrl)
      ensures window == old(nextHandle)
      ensures State() == OpenOne(old(State()), descriptor, CreatedWindow(descriptor.Value(), screen))
    {
      if descriptor.url == Blank {
        // the last load failed
        descriptor.url := store.defaultUrl;
      }
      var options, isMaximized := WindowOptions(descriptor);
      ghost var host0, d := host, descriptor.Value();
      window := NewBrowserWindow(options);
      ghost var w := host[window];
      if isMaximized {
        Maximize(window);
        w := w.(maximized := true);
        assert host == host0[window := w];
      }
      LoadUrl(window, descriptor.url);
      w := w.(url := d.url);
      assert host == host0[window := w];
      Show(window);
      w := w.(shown := true);
      assert host == host0[window := w];
      assert w == CreatedWindow(d, screen);
      RegisterWindowEventHandlers(window, descriptor);
      windows := windows + [window];
    }

    /** The loop of openWindows: one window per descriptor object, in order. */
    method OpenAll(items: seq<WindowItem>)
      requires Distinct(items)
      modifies items, this`windows, this`host, this`descriptorOf, this`timers, this`nextHandle
      ensures ValuesOf(items) == NormalizeAll(old(ValuesOf(items)), store.defaultUrl)
      ensures State() == OpenMany(old(State()), items, Opened(ValuesOf(items), screen), |items|)
    {
      ghost var values := ValuesOf(items);
      ghost var created := Opened(NormalizeAll(values, store.defaultUrl), screen);
      ghost var s0 := State();
      var i := 0;
      while i < |items|
        invariant 0 <= i <= |items|
        invariant Turned(items, values, created, s0, i)
      {
        OpenTurn(items, values, created, s0, i);
        i := i + 1;
      }
      assert ValuesOf(items) == NormalizeAll(values, store.defaultUrl);
    }

    /** The invariant of openWindows' loop after `i` turns: the first `i`
        descriptors are normalised, the others untouched, and one window has
        been opened for each of the first `i`. */
    ghost predicate Turned(items: seq<WindowItem>, values: seq<Descriptor>, created: seq<HostWindow>, s0: Snapshot, i: nat)
      reads this, items
    {
      && i <= |items| == |values| == |created|
      && (forall k :: 0 <= k < i ==> items[k].Value() == Normalize(values[k], store.defaultUrl))
      && (forall k :: i <= k < |items| ==> items[k].Value() == values[k])
      && State() == OpenMany(s0, items, created, i)
    }

    /** Turn `i` of openWindows' loop, which keeps its invariant. */
    method OpenTurn(items: seq<WindowItem>, ghost values: seq<Descriptor>, ghost created: seq<HostWindow>, ghost s0: Snapshot, i: nat)
      requires Distinct(items) && i < |items|
      requires created == Opened(NormalizeAll(values, store.defaultUrl), screen)
      requires Turned(items, values, created, s0, i)
      modifies items[i], this`windows, this`host, this`descriptorOf, this`timers, this`nextHandle
      ensures Turned(items, values, created, s0, i + 1)
    {
      var window := OpenWindow(items[i]);
      assert created[i] == CreatedWindow(items[i].Value(), screen);
    }

    /** The first step of openWindows: the stored descriptors, or the
        defaults, freshly restored, when there are none. */
    method FetchDescriptors() returns (items: seq<WindowItem>)
      requires store.Valid()
      modifies store`items, store`persisted, store`restores
      ensures store.Valid() && store.items == Some(items)
      ensures ValuesOf(items) == old(store.ToOpen())
      ensures old(store.Items()) == [] ==>
        && fresh(items) && ValuesOf(items) == store.defaults
        && store.persisted == store.defaults && store.restores == old(store.restores) + 1
      ensures old(store.Items()) != [] ==>
        && items == old(store.Items()) && store.persisted == old(store.persisted)
        && store.restores == old(store.restores)
    {
      var descriptors := store.GetWindows();
      if descriptors.None? || |descriptors.value| == 0 {
        store.RestoreWindows();
        descriptors := store.GetWindows();
      }
      items := descriptors.value;
    }

    /** openWindows: fetch the descriptors (restoring the defaults when there
        are none), normalise their addresses, then open one window per
        descriptor, in order. */
    method OpenWindows()
      requires Valid()
      modifies this`windows, this`host, this`descriptorOf, this`timers, this`nextHandle
      modifies store`items, store`persisted, store`restores, store.Items()
      ensures Valid()
      // the store: restored exactly when it had no descriptors, then normalised
      ensures old(store.Items()) == [] ==>
        && store.restores == old(store.restores) + 1 && fresh(store.Items())
        && store.persisted == store.defaults
      ensures old(store.Items()) != [] ==>
        && store.restores == old(store.restores) && store.items == old(store.items)
        && store.persisted == old(store.persisted)
      ensures store.Values() == NormalizeAll(old(store.ToOpen()), store.defaultUrl)
      // one new window per descriptor, in order
      ensures State() == OpenMany(old(State()), store.Items(), Opened(store.Values(), screen), |store.Items()|)
    {
      var items := FetchDescriptors();
      ghost var s0 := State();
      assert Attached(s0, items);
      OpenAll(items);
      OpenManyKeepsCoherent(s0, items, Opened(ValuesOf(items), screen), |items|);
      OpenManyAttached(s0, items, Opened(ValuesOf(items), screen), |items|);
      assert store.items == Some(items);
    }

    /** focusFirstWindow: un-minimize and focus the first registered window. */
    method FocusFirstWindow()
      requires Valid()
      modifies this`host
      ensures Valid()
      ensures windows == [] ==> host == old(host)
      ensures windows != [] ==>
        host == old(host)[windows[0] := old(host)[windows[0]].(minimized := false, focused := true)]
    {
      if |windows| > 0 {
        var window := windows[0];
        if host[window].minimized {
          Restore(window);
        }
        Focus(window);
      }
    }

    /** The window-all-closed handler: reset the store to its defaults, then
        reopen them on Darwin, or else ask the application to quit (`quits`
        stands for the call of app.quit()). The host raises the event once
        the registry is empty. */
    method OnAllClosed(platform: Platform) returns (quits: bool)
      requires Valid() && windows == []
      modifies this`windows, this`host, this`descriptorOf, this`timers, this`nextHandle
      modifies store`items, store`persisted, store`restores, store.Items()
      ensures Valid()
      ensures quits <==> platform == OtherPlatform
      ensures store.restores > old(store.restores) && store.persisted == store.defaults
      ensures platform == OtherPlatform ==> State() == old(State()) && store.Values() == store.defaults
      ensures platform == Darwin ==>
        && store.Values() == NormalizeAll(store.defaults, store.defaultUrl)
        && State() == OpenMany(old(State()), store.Items(), Opened(store.Values(), screen), |store.Items()|)
    {
      store.RestoreWindows();
      assert State() == old(State());
      if platform == Darwin {
        assert store.ToOpen() == store.defaults;
        OpenWindows();
        quits := false;
      } else {
        quits := true;
      }
    }
  }
}
