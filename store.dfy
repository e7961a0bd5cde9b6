/** The persisted state store, as the window manager sees it: the current
    descriptor objects (or none at all), the last persisted snapshot, and the
    store's default descriptor set and default address. The on-disk format
    and the generation of the defaults are not part of this model; they are
    given to the constructor. */
module Store {
  import opened Descriptors
  import opened Registry

  class StateManager {
    /** The default descriptor set that restoreWindows installs. */
    const defaults: seq<Descriptor>
    /** DEFAULT_URL: the address that replaces the blank sentinel. */
    const defaultUrl: string

    /** What getWindows() returns: `None` stands for null. */
    var items: Option<seq<WindowItem>>
    /** The descriptor values as last written to durable storage. */
    var persisted: seq<Descriptor>
    var saves: nat
    var restores: nat

    ghost predicate Valid()
      reads this
    {
      && defaultUrl != Blank
      && (items.Some? ==> Distinct(items.value))
    }

    function Items(): seq<WindowItem>
      reads this
    {
      if items.Some? then items.value else []
    }

    function Values(): seq<Descriptor>
      reads this, Items()
    {
      ValuesOf(Items())
    }

    /** The descriptor values a window manager opens: the current ones, or
        the defaults when there are none. */
    function ToOpen(): (r: seq<Descriptor>)
      reads this, Items()
      ensures Items() != [] ==> r == Values()
      ensures Items() == [] ==> r == defaults
    {
      if Items() == [] then defaults else Values()
    }

    /** A store loaded with `stored` (None when nothing was persisted). */
    constructor (defaults: seq<Descriptor>, defaultUrl: string, stored: Option<seq<Descriptor>>)
      requires defaultUrl != Blank
      ensures Valid()
      ensures this.defaults == defaults && this.defaultUrl == defaultUrl
      ensures stored.None? ==> items.None? && persisted == []
      ensures stored.Some? ==> items.Some? && fresh(items.value) && Values() == stored.value && persisted == stored.value
      ensures saves == 0 && restores == 0
    {
      var loaded: Option<seq<WindowItem>> := None;
      if stored.Some? {
        var made := NewItems(stored.value);
        loaded := Some(made);
      }
      this.defaults := defaults;
      this.defaultUrl := defaultUrl;
      items := loaded;
      persisted := if stored.Some? then stored.value else [];
      saves, restores := 0, 0;
    }

    /** getWindows(). */
    method GetWindows() returns (r: Option<seq<WindowItem>>)
      ensures r == items
    {
      r := items;
    }

    /** restoreWindows(): the current set becomes a fresh copy of the
        defaults, which is also persisted. */
    method RestoreWindows()
      requires Valid()
      modifies this`items, this`persisted, this`restores
      ensures Valid()
      ensures items.Some? && fresh(items.value)
      ensures Values() == defaults && persisted == defaults
      ensures restores == old(restores) + 1
    {
      var made := NewItems(defaults);
      persisted := defaults;
      restores := restores + 1;
      items := Some(made);
      assert Items() == made;
    }

    /** save(): persist the current values, including every in-place update
        made to the descriptor objects since the last save. */
    method Save()
      requires Valid()
      modifies this`persisted, this`saves
      ensures Valid()
      ensures persisted == Values()
      ensures saves == old(saves) + 1
    {
      persisted := ValuesOf(Items());
      saves := saves + 1;
    }
  }

  /** Fresh, pairwise distinct descriptor objects holding `ds`. */
  method NewItems(ds: seq<Descriptor>) returns (r: seq<WindowItem>)
    ensures fresh(r) && Distinct(r) && ValuesOf(r) == ds
  {
    r := [];
    var i := 0;
    while i < |ds|
      invariant 0 <= i <= |ds| && |r| == i
      invariant fresh(r) && Distinct(r)
      invariant forall k :: 0 <= k < i ==> r[k].Value() == ds[k]
    {
      var item := new WindowItem(ds[i]);
      r := r + [item];
      i := i + 1;
    }
    assert ValuesOf(r) == ds;
  }
}
