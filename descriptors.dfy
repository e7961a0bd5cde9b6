/** Window descriptors: the persisted record of one window's address and
    geometry, both as a value (Descriptor) and as the mutable object
    (WindowItem) that the state store hands out and the window manager
    updates in place. */
module Descriptors {

  datatype Option<T> = None | Some(value: T)

  /** The address a window shows before it has real content, or after a load
      error. It is never meant to be persisted as a window's final address. */
  const Blank: string := "about:blank"

  /** A window's outer rectangle, as the host toolkit reports it. */
  datatype Bounds = Bounds(width: int, height: int, x: int, y: int)

  /** The fields of a WindowItem, as a value. An absent geometry field is
      `None` (the field was deleted or never written). */
  datatype Descriptor = Descriptor(
    url: string,
    width: Option<int>, height: Option<int>,
    x: Option<int>, y: Option<int>)

  /** The descriptor invariant: the four geometry fields are all present
      (restore to that rectangle) or all absent (restore maximized). */
  predicate GeometryComplete(d: Descriptor) {
    || (d.width.Some? && d.height.Some? && d.x.Some? && d.y.Some?)
    || (d.width.None? && d.height.None? && d.x.None? && d.y.None?)
  }

  /** A descriptor object. The store and the close handler of its window hold
      the same object, so an update by one is seen by the other. */
  class WindowItem {
    var url: string
    var width: Option<int>
    var height: Option<int>
    var x: Option<int>
    var y: Option<int>

    constructor (d: Descriptor)
      ensures Value() == d
    {
      url, width, height, x, y := d.url, d.width, d.height, d.x, d.y;
    }

    function Value(): Descriptor
      reads this
    {
      Descriptor(url, width, height, x, y)
    }
  }

  /** The values of a sequence of descriptor objects, in order. */
  function ValuesOf(s: seq<WindowItem>): (r: seq<Descriptor>)
    reads s
    ensures |r| == |s|
    ensures forall k :: 0 <= k < |s| ==> r[k] == s[k].Value()
  {
    if s == [] then [] else [s[0].Value()] + ValuesOf(s[1..])
  }
}
