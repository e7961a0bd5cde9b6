/** The live window registry as a sequence: duplicate-freedom, the position
    of a handle (Array.prototype.indexOf) and the removal of one position
    (Array.prototype.splice(index, 1)). */
module Registry {

  predicate Distinct<T(==)>(s: seq<T>) {
    forall i, j :: 0 <= i < j < |s| ==> s[i] != s[j]
  }

  /** The first position of `x` in `s`; the caller knows `x` is there. */
  function IndexOf<T(==)>(s: seq<T>, x: T): (i: nat)
    requires x in s
    ensures i < |s| && s[i] == x
    ensures forall j :: 0 <= j < i ==> s[j] != x
  {
    if s[0] == x then 0 else 1 + IndexOf(s[1..], x)
  }

  /** `s` without the entry at position `i`; the others keep their order. */
  function Splice<T>(s: seq<T>, i: nat): (r: seq<T>)
    requires i < |s|
    ensures |r| == |s| - 1
    ensures forall j :: 0 <= j < i ==> r[j] == s[j]
    ensures forall j :: i <= j < |r| ==> r[j] == s[j + 1]
  {
    s[..i] + s[i + 1..]
  }

  /** Removing the position of `x` from a duplicate-free sequence removes
      exactly `x`, and the result is again duplicate-free. */
  lemma SpliceRemovesExactly<T>(s: seq<T>, x: T)
    requires Distinct(s) && x in s
    ensures var r := Splice(s, IndexOf(s, x));
      && Distinct(r)
      && x !in r
      && forall y :: y in r <==> y in s && y != x
  {
    var i := IndexOf(s, x);
    var r := Splice(s, i);
    // Position j of r comes from position j or j + 1 of s.
    forall j, k | 0 <= j < k < |r| ensures r[j] != r[k] {
      var j' := if j < i then j else j + 1;
      var k' := if k < i then k else k + 1;
      assert r[j] == s[j'] && r[k] == s[k'] && j' < k';
    }
    forall y ensures y in r <==> y in s && y != x {
      if y in r {
        var j :| 0 <= j < |r| && r[j] == y;
        var j' := if j < i then j else j + 1;
        assert s[j'] == y && j' != i;
      }
      if y in s && y != x {
        var j :| 0 <= j < |s| && s[j] == y;
        assert j != i;
        assert r[if j < i then j else j - 1] == y;
      }
    }
    forall j | 0 <= j < |r| ensures r[j] != x {
      var j' := if j < i then j else j + 1;
      assert r[j] == s[j'] && j' != i && s[i] == x;
    }
  }

  /** The handles the host hands out to `n` windows created in a row,
      starting at `start`. */
  function Handles(start: nat, n: nat): (r: seq<nat>)
    ensures |r| == n
  {
    seq(n, k requires 0 <= k < n => start + k)
  }

  /** The handles of windows created in a row are pairwise distinct and are
      exactly the ones from `start` below `start + n`: appending them to a
      registry of older handles keeps it duplicate-free. */
  lemma HandlesFresh(registry: seq<nat>, start: nat, n: nat)
    requires Distinct(registry) && forall h :: h in registry ==> h < start
    ensures forall h :: h in Handles(start, n) <==> start <= h < start + n
    ensures Distinct(registry + Handles(start, n))
  {
    var r := Handles(start, n);
    forall h | start <= h < start + n ensures h in r {
      assert r[h - start] == h;
    }
    var all := registry + r;
    forall i, j | 0 <= i < j < |all| ensures all[i] != all[j] {
      if j < |registry| {
      } else if i < |registry| {
        assert all[i] in registry && all[j] == r[j - |registry|];
      } else {
        assert all[i] == r[i - |registry|] && all[j] == r[j - |registry|];
      }
    }
  }
}
