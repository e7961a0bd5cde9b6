/** The value-level rules of the window manager: what saveWindowState and the
    close handler write into a descriptor, how openWindows normalises the
    blank address, and which creation options and maximize decision it derives
    from a descriptor. Host windows are abstract values here. */
module Geometry {
  import opened Descriptors

  /** The creation options passed to the host (the preload script path is not
      modelled). `show` is the initial visibility; `nodeIntegration` is the
      page's access to the privileged scripting bridge. */
  datatype Options = Options(
    show: bool, nodeIntegration: bool,
    width: Option<int>, height: Option<int>,
    x: Option<int>, y: Option<int>)

  /** The abstract state of one host window, as the window manager can query
      and change it. `url` is the address its content currently shows. */
  datatype HostWindow = HostWindow(
    options: Options, bounds: Bounds,
    maximized: bool, minimized: bool, focused: bool, shown: bool,
    url: string)

  function OptionOr(o: Option<int>, fallback: int): int {
    if o.Some? then o.value else fallback
  }

  /** The rectangle a new window gets: the options where given, otherwise the
      host's own default rectangle `screen`. */
  function InitialBounds(o: Options, screen: Bounds): (b: Bounds)
    ensures o.width.Some? ==> b.width == o.width.value
    ensures o.height.Some? ==> b.height == o.height.value
    ensures o.x.Some? ==> b.x == o.x.value
    ensures o.y.Some? ==> b.y == o.y.value
  {
    Bounds(OptionOr(o.width, screen.width), OptionOr(o.height, screen.height),
           OptionOr(o.x, screen.x), OptionOr(o.y, screen.y))
  }

  /** saveWindowState: geometry of a maximized window is cleared, otherwise
      copied from its bounds; the address is left alone. */
  function Capture(d: Descriptor, maximized: bool, b: Bounds): (r: Descriptor)
    ensures r.url == d.url
    ensures GeometryComplete(r)
    ensures maximized <==> r.width.None?
    ensures !maximized ==> r.width == Some(b.width) && r.height == Some(b.height) && r.x == Some(b.x) && r.y == Some(b.y)
  {
    if maximized then
      d.(width := None, height := None, x := None, y := None)
    else
      d.(width := Some(b.width), height := Some(b.height), x := Some(b.x), y := Some(b.y))
  }

  /** The close handler's update: capture the geometry, then take the shown
      address unless it is the blank sentinel. */
  function CloseUpdate(d: Descriptor, w: HostWindow): (r: Descriptor)
    ensures GeometryComplete(r)
    ensures r.width.None? <==> w.maximized
    ensures !w.maximized ==>
      r.width == Some(w.bounds.width) && r.height == Some(w.bounds.height) &&
      r.x == Some(w.bounds.x) && r.y == Some(w.bounds.y)
    ensures w.url != Blank ==> r.url == w.url
    ensures w.url == Blank ==> r.url == d.url
  {
    var captured := Capture(d, w.maximized, w.bounds);
    if w.url != Blank then captured.(url := w.url) else captured
  }

  /** The close handler never writes the blank sentinel over a real address. */
  lemma CloseKeepsRealUrl(d: Descriptor, w: HostWindow)
    requires d.url != Blank
    ensures CloseUpdate(d, w).url != Blank
    ensures CloseUpdate(d, w).url in {d.url, w.url}
  {
  }

  /** openWindows replaces the blank sentinel by DEFAULT_URL. */
  function NormalizeUrl(url: string, defaultUrl: string): (r: string)
    ensures url != Blank ==> r == url
    ensures url == Blank ==> r == defaultUrl
    ensures defaultUrl != Blank ==> r != Blank
  {
    if url == Blank then defaultUrl else url
  }

  function Normalize(d: Descriptor, defaultUrl: string): Descriptor {
    d.(url := NormalizeUrl(d.url, defaultUrl))
  }

  function NormalizeAll(ds: seq<Descriptor>, defaultUrl: string): seq<Descriptor> {
    seq(|ds|, k requires 0 <= k < |ds| => Normalize(ds[k], defaultUrl))
  }

  /** After normalisation no descriptor has the blank address, descriptors
      that had a real address are untouched, and geometry is never changed. */
  lemma NormalizeAllNoBlank(ds: seq<Descriptor>, defaultUrl: string)
    requires defaultUrl != Blank
    ensures |NormalizeAll(ds, defaultUrl)| == |ds|
    ensures forall k :: 0 <= k < |ds| ==> NormalizeAll(ds, defaultUrl)[k].url != Blank
    ensures forall k :: 0 <= k < |ds| && ds[k].url != Blank ==> NormalizeAll(ds, defaultUrl)[k] == ds[k]
    ensures forall k :: 0 <= k < |ds| ==> NormalizeAll(ds, defaultUrl)[k] == ds[k].(url := NormalizeAll(ds, defaultUrl)[k].url)
  {
  }

  /** The options openWindows builds: hidden, no scripting bridge, and each
      geometry pair copied only when both of its fields are present. */
  function OptionsFor(d: Descriptor): (o: Options)
    ensures !o.show && !o.nodeIntegration
    ensures o.width.Some? <==> d.width.Some? && d.height.Some?
    ensures o.height.Some? <==> o.width.Some?
    ensures o.width.Some? ==> o.width == d.width && o.height == d.height
    ensures o.x.Some? <==> d.x.Some? && d.y.Some?
    ensures o.y.Some? <==> o.x.Some?
    ensures o.x.Some? ==> o.x == d.x && o.y == d.y
  {
    var size := d.width.Some? && d.height.Some?;
    var position := d.x.Some? && d.y.Some?;
    Options(false, false,
            if size then d.width else None, if size then d.height else None,
            if position then d.x else None, if position then d.y else None)
  }

  /** The maximize decision of openWindows: neither geometry pair present. */
  predicate OpensMaximized(d: Descriptor) {
    !(d.width.Some? && d.height.Some?) && !(d.x.Some? && d.y.Some?)
  }

  /** The host window openWindows leaves behind for descriptor `d`: created
      with OptionsFor(d), maximized by the rule above, showing `d.url`,
      revealed, neither minimized nor focused. */
  function CreatedWindow(d: Descriptor, screen: Bounds): (w: HostWindow)
    ensures w.options == OptionsFor(d) && w.shown && w.url == d.url
    ensures w.maximized <==> w.options.width.None? && w.options.x.None?
    ensures !w.minimized && !w.focused
  {
    var o := OptionsFor(d);
    HostWindow(o, InitialBounds(o, screen), OpensMaximized(d), false, false, true, d.url)
  }

  /** Round trip: a window opened from a descriptor with all four geometry
      fields, closed without being moved, captures exactly those fields. */
  lemma OpenCloseRoundTrip(d: Descriptor, screen: Bounds)
    requires d.width.Some? && d.height.Some? && d.x.Some? && d.y.Some?
    ensures !CreatedWindow(d, screen).maximized
    ensures Capture(d, CreatedWindow(d, screen).maximized, CreatedWindow(d, screen).bounds) == d
  {
  }

  /** A descriptor holding only one geometry pair is not opened maximized, and
      capturing the new window completes the other pair: a partial descriptor
      becomes a complete one. */
  lemma PartialGeometryCompletes(d: Descriptor, screen: Bounds)
    requires !OpensMaximized(d)
    ensures !CreatedWindow(d, screen).maximized
    ensures var r := Capture(d, false, CreatedWindow(d, screen).bounds);
      && GeometryComplete(r) && r.width.Some?
      && (d.width.Some? && d.height.Some? ==> r.width == d.width && r.height == d.height)
      && (d.x.Some? && d.y.Some? ==> r.x == d.x && r.y == d.y)
  {
  }

  /** A window closed while maximized reopens maximized. */
  lemma MaximizedRoundTrip(d: Descriptor, w: HostWindow, screen: Bounds)
    requires w.maximized
    ensures CreatedWindow(CloseUpdate(d, w), screen).maximized
  {
  }

  /** The host windows openWindows leaves behind for `ds`, in order. */
  function Opened(ds: seq<Descriptor>, screen: Bounds): (ws: seq<HostWindow>)
    ensures |ws| == |ds|
  {
    seq(|ds|, k requires 0 <= k < |ds| => CreatedWindow(ds[k], screen))
  }

  /** Every window opened for a descriptor is revealed, loads its address,
      was created hidden and without the scripting bridge, and is maximized
      exactly by the maximize rule. */
  lemma OpenedShown(vs: seq<Descriptor>, screen: Bounds)
    ensures forall k :: 0 <= k < |vs| ==>
      var w := Opened(vs, screen)[k];
      && w.shown && w.url == vs[k].url && !w.options.show && !w.options.nodeIntegration
      && (w.maximized <==> OpensMaximized(vs[k]))
  {
  }

  /** Every window opened from normalised descriptors is revealed, was created
      hidden and without the scripting bridge, and loads a real address. */
  lemma OpenedNeverBlank(ds: seq<Descriptor>, defaultUrl: string, screen: Bounds)
    requires defaultUrl != Blank
    ensures forall k :: 0 <= k < |ds| ==>
      var w := Opened(NormalizeAll(ds, defaultUrl), screen)[k];
      && w.url != Blank && w.shown && !w.options.show && !w.options.nodeIntegration
      && (ds[k].url != Blank ==> w.url == ds[k].url)
  {
  }
}
