/** The manager's window state as a value, and the state transitions of
    openWindows and of the registered handlers as functions on it. */
module Lifecycle {
  import opened Descriptors
  import opened Registry
  import opened Geometry
  import opened Debounce

  /** The manager's window state as a value: the live registry, the host's
      windows, the descriptor each window's handlers were registered with,
      the debounce timers, and the handle the host gives the next window. */
  datatype Snapshot = Snapshot(
    windows: seq<HandleId>,
    host: map<HandleId, HostWindow>,
    descriptorOf: map<HandleId, WindowItem>,
    timers: Timers,
    next: HandleId)

  /** The registry holds each window once, and only windows whose handlers
      are registered; every registered window exists on the host and has a
      debounce; handles already given out are below `next`; the timers are
      consistent. */
  ghost predicate Coherent(s: Snapshot) {
    && Distinct(s.windows)
    && (forall h :: h in s.windows ==> h in s.descriptorOf)
    && s.descriptorOf.Keys == s.timers.pendingOf.Keys
    && s.descriptorOf.Keys <= s.host.Keys
    && (forall h :: h in s.host ==> h < s.next)
    && Consistent(s.timers)
  }

  /** Every live window's handlers hold one of the descriptor objects
      `items`: the objects the store persists, so that what a window's close
      handler writes into its descriptor is what the store saves. */
  ghost predicate Attached(s: Snapshot, items: seq<WindowItem>) {
    forall h :: h in s.windows ==> h in s.descriptorOf && s.descriptorOf[h] in items
  }

  /** One turn of openWindows' loop: window `s.next` is created as `w`, its
      handlers are registered with descriptor `d` and no timer, and it is
      appended to the registry. */
  function OpenOne(s: Snapshot, d: WindowItem, w: HostWindow): (r: Snapshot)
    ensures r.next == s.next + 1 && r.windows == s.windows + [s.next]
  {
    Snapshot(
      s.windows + [s.next],
      s.host[s.next := w],
      s.descriptorOf[s.next := d],
      s.timers.(pendingOf := s.timers.pendingOf[s.next := None]),
      s.next + 1)
  }

  /** The first `n` turns of openWindows' loop over descriptors `ds`, the
      k-th creating host window `ws[k]`. */
  function OpenMany(s: Snapshot, ds: seq<WindowItem>, ws: seq<HostWindow>, n: nat): (r: Snapshot)
    requires n <= |ds| == |ws|
    ensures r.next == s.next + n
  {
    if n == 0 then s else OpenOne(OpenMany(s, ds, ws, n - 1), ds[n - 1], ws[n - 1])
  }

  lemma OpenOneKeepsCoherent(s: Snapshot, d: WindowItem, w: HostWindow)
    requires Coherent(s)
    ensures Coherent(OpenOne(s, d, w))
  {
    assert s.next !in s.windows;
  }

  /** Opening any number of windows keeps the manager coherent. */
  lemma {:induction false} OpenManyKeepsCoherent(s: Snapshot, ds: seq<WindowItem>, ws: seq<HostWindow>, n: nat)
    requires n <= |ds| == |ws| && Coherent(s)
    ensures Coherent(OpenMany(s, ds, ws, n))
  {
    if n > 0 {
      OpenManyKeepsCoherent(s, ds, ws, n - 1);
      OpenOneKeepsCoherent(OpenMany(s, ds, ws, n - 1), ds[n - 1], ws[n - 1]);
    }
  }

  /** Opening windows for the store's descriptor objects keeps every live
      window attached to one of them. */
  lemma {:induction false} OpenManyAttached(s: Snapshot, ds: seq<WindowItem>, ws: seq<HostWindow>, n: nat)
    requires n <= |ds| == |ws| && Attached(s, ds)
    ensures Attached(OpenMany(s, ds, ws, n), ds)
  {
    if n > 0 {
      OpenManyAttached(s, ds, ws, n - 1);
      var p := OpenMany(s, ds, ws, n - 1);
      assert ds[n - 1] in ds;
      assert OpenMany(s, ds, ws, n).descriptorOf == p.descriptorOf[p.next := ds[n - 1]];
    }
  }

  /** The registry after `n` turns of openWindows' loop: handles `s.next` to
      `s.next + n - 1` appended in order; no timer is scheduled or fired. */
  lemma {:induction false} OpenManyRegistry(s: Snapshot, ds: seq<WindowItem>, ws: seq<HostWindow>, n: nat)
    requires n <= |ds| == |ws|
    ensures var r := OpenMany(s, ds, ws, n);
      && r.windows == s.windows + Handles(s.next, n)
      && r.timers == s.timers.(pendingOf := r.timers.pendingOf)
  {
    if n > 0 {
      OpenManyRegistry(s, ds, ws, n - 1);
      assert Handles(s.next, n) == Handles(s.next, n - 1) + [s.next + n - 1];
    }
  }

  /** The host after `n` turns of openWindows' loop: the k-th new handle is
      host window `ws[k]`, and every earlier window is left as it was. */
  lemma {:induction false} OpenManyHost(s: Snapshot, ds: seq<WindowItem>, ws: seq<HostWindow>, n: nat)
    requires n <= |ds| == |ws|
    requires forall h :: h in s.host ==> h < s.next
    ensures var r := OpenMany(s, ds, ws, n);
      && (forall h :: h in r.host <==> h in s.host || s.next <= h < s.next + n)
      && (forall h :: h in s.host ==> r.host[h] == s.host[h])
      && (forall h :: s.next <= h < s.next + n ==> r.host[h] == ws[h - s.next])
  {
    if n > 0 {
      OpenManyHost(s, ds, ws, n - 1);
      var p := OpenMany(s, ds, ws, n - 1);
      assert OpenMany(s, ds, ws, n).host == p.host[s.next + n - 1 := ws[n - 1]];
    }
  }

  /** The registrations after `n` turns of openWindows' loop: the k-th new
      handle is registered with descriptor `ds[k]`, and every earlier
      registration is left as it was. */
  lemma {:induction false} OpenManyDescriptors(s: Snapshot, ds: seq<WindowItem>, ws: seq<HostWindow>, n: nat)
    requires n <= |ds| == |ws|
    requires forall h :: h in s.descriptorOf ==> h < s.next
    ensures var r := OpenMany(s, ds, ws, n);
      && (forall h :: h in r.descriptorOf <==> h in s.descriptorOf || s.next <= h < s.next + n)
      && (forall h :: h in s.descriptorOf ==> r.descriptorOf[h] == s.descriptorOf[h])
      && (forall h :: s.next <= h < s.next + n ==> r.descriptorOf[h] == ds[h - s.next])
  {
    if n > 0 {
      OpenManyDescriptors(s, ds, ws, n - 1);
      var p := OpenMany(s, ds, ws, n - 1);
      assert OpenMany(s, ds, ws, n).descriptorOf == p.descriptorOf[s.next + n - 1 := ds[n - 1]];
    }
  }

  /** The debounce after `n` turns of openWindows' loop: every new window
      starts without a timer, and every earlier window keeps its own. */
  lemma {:induction false} OpenManyDebounce(s: Snapshot, ds: seq<WindowItem>, ws: seq<HostWindow>, n: nat)
    requires n <= |ds| == |ws|
    requires forall h :: h in s.timers.pendingOf ==> h < s.next
    ensures var r := OpenMany(s, ds, ws, n);
      && (forall h :: h in r.timers.pendingOf <==> h in s.timers.pendingOf || s.next <= h < s.next + n)
      && (forall h :: h in s.timers.pendingOf ==> r.timers.pendingOf[h] == s.timers.pendingOf[h])
      && (forall h :: s.next <= h < s.next + n ==> r.timers.pendingOf[h] == None)
  {
    if n > 0 {
      OpenManyDebounce(s, ds, ws, n - 1);
      var p := OpenMany(s, ds, ws, n - 1);
      assert OpenMany(s, ds, ws, n).timers.pendingOf == p.timers.pendingOf[s.next + n - 1 := None];
    }
  }

  /** Every window the loop creates from descriptor values `vs` exists, is
      revealed and loads its descriptor's address; it was created hidden and
      without the scripting bridge, and is maximized exactly when its
      descriptor has neither geometry pair. */
  lemma OpenedShowEach(s: Snapshot, ds: seq<WindowItem>, vs: seq<Descriptor>, screen: Bounds)
    requires |ds| == |vs|
    requires forall h :: h in s.host ==> h < s.next
    ensures var r := OpenMany(s, ds, Opened(vs, screen), |ds|);
      forall h :: s.next <= h < s.next + |vs| ==>
        && h in r.host
        && r.host[h].shown && r.host[h].url == vs[h - s.next].url
        && !r.host[h].options.show && !r.host[h].options.nodeIntegration
        && (r.host[h].maximized <==> OpensMaximized(vs[h - s.next]))
  {
    var ws := Opened(vs, screen);
    var r := OpenMany(s, ds, ws, |ds|);
    OpenManyHost(s, ds, ws, |ds|);
    OpenedShown(vs, screen);
    forall h | s.next <= h < s.next + |vs|
      ensures h in r.host && r.host[h] == ws[h - s.next]
    {
    }
  }

  /** The "closed" handler keeps the manager coherent. */
  lemma ClosedKeepsCoherent(s: Snapshot, h: HandleId)
    requires Coherent(s) && h in s.windows
    ensures Coherent(s.(windows := Splice(s.windows, IndexOf(s.windows, h))))
  {
    SpliceRemovesExactly(s.windows, h);
  }

  /** A frame-load event keeps the manager coherent. */
  lemma FrameLoadedKeepsCoherent(s: Snapshot, h: HandleId)
    requires Coherent(s) && h in s.descriptorOf
    ensures Coherent(s.(timers := FrameLoaded(s.timers, h)))
  {
    FrameLoadedKeepsConsistent(s.timers, h);
  }

  /** A timer firing keeps the manager coherent. */
  lemma ElapsedKeepsCoherent(s: Snapshot, t: TimerId)
    requires Coherent(s) && t in s.timers.scheduled
    ensures Coherent(s.(timers := Elapsed(s.timers, t)))
  {
    ElapsedKeepsConsistent(s.timers, t);
  }
}
