/**
 * The array and scene-tree primitives the chart relies on:
 * `Array.prototype.indexOf`, `splice` and the child operations of a scene
 * group, all stated on sequences.
 */
module Lists {

  /** No element occurs twice. */
  predicate NoDuplicates<T(==)>(s: seq<T>) {
    forall i, j :: 0 <= i < j < |s| ==> s[i] != s[j]
  }

  /** `s.indexOf(x)`: the first position of `x`, or -1 when it is absent. */
  function IndexOf<T(==)>(s: seq<T>, x: T): (r: int)
    ensures -1 <= r < |s|
    ensures r == -1 <==> x !in s
    ensures 0 <= r ==> s[r] == x && forall j :: 0 <= j < r ==> s[j] != x
  {
    IndexFrom(s, x, 0)
  }

  /** The search behind `indexOf`: the first position of `x` at or after `from`, or -1. */
  function IndexFrom<T(==)>(s: seq<T>, x: T, from: nat): (r: int)
    requires from <= |s|
    ensures r == -1 || from <= r < |s|
    ensures r == -1 <==> forall j :: from <= j < |s| ==> s[j] != x
    ensures 0 <= r ==> s[r] == x && forall j :: from <= j < r ==> s[j] != x
    decreases |s| - from
  {
    if from == |s| then -1
    else if s[from] == x then from
    else IndexFrom(s, x, from + 1)
  }

  /** `s.splice(i, 0, x)`: `x` inserted at position `i`. */
  function Insert<T>(s: seq<T>, i: nat, x: T): seq<T>
    requires i <= |s|
  {
    s[..i] + [x] + s[i..]
  }

  /** `s.splice(i, 1)`: the element at position `i` taken out. */
  function RemoveAt<T>(s: seq<T>, i: nat): seq<T>
    requires i < |s|
  {
    s[..i] + s[i + 1..]
  }

  /**
   * A scene group's `insertBefore(child, ref)`: `child` placed in front of
   * `ref`. When `ref` is not a child, `child` is taken to go last; the chart
   * only passes a `ref` that is a child.
   */
  function InsertBefore<T(==)>(children: seq<T>, child: T, ref: T): seq<T> {
    var k := IndexOf(children, ref);
    if 0 <= k then Insert(children, k, child) else children + [child]
  }

  /** A scene group's `removeChild(child)`: the child taken out; nothing happens when it is not a child. */
  function RemoveChild<T(==)>(children: seq<T>, child: T): seq<T> {
    var k := IndexOf(children, child);
    if 0 <= k then RemoveAt(children, k) else children
  }

  /** In a list without duplicates the position of each element is its index. */
  lemma IndexOfDistinct<T>(s: seq<T>, k: nat)
    requires NoDuplicates(s) && k < |s|
    ensures IndexOf(s, s[k]) == k
  {
  }

  /** Inserting an element that is not present keeps the list free of duplicates. */
  lemma InsertKeepsDistinct<T>(s: seq<T>, i: nat, x: T)
    requires NoDuplicates(s) && x !in s && i <= |s|
    ensures NoDuplicates(Insert(s, i, x))
  {
    var t := Insert(s, i, x);
    forall a, b | 0 <= a < b < |t| ensures t[a] != t[b] {
      if a < i && b == i {
        assert t[a] == s[a];
      } else if a == i {
        assert t[b] == s[b - 1];
      }
    }
  }

  /** Removing an element keeps the list free of duplicates. */
  lemma RemoveAtKeepsDistinct<T>(s: seq<T>, i: nat)
    requires NoDuplicates(s) && i < |s|
    ensures NoDuplicates(RemoveAt(s, i))
    ensures s[i] !in RemoveAt(s, i)
  {
    var t := RemoveAt(s, i);
    forall a, b | 0 <= a < b < |t| ensures t[a] != t[b] {
      var a' := if a < i then a else a + 1;
      var b' := if b < i then b else b + 1;
      assert t[a] == s[a'] && t[b] == s[b'];
    }
    forall a | 0 <= a < |t| ensures t[a] != s[i] {
      var a' := if a < i then a else a + 1;
      assert t[a] == s[a'];
    }
  }

  /**
   * Removing what was just inserted gives back the list: attaching a series
   * and detaching it again leaves the order of the others as it was.
   */
  lemma {:induction false} RemoveChildUndoesInsert<T>(s: seq<T>, i: nat, x: T)
    requires x !in s && i <= |s|
    ensures IndexOf(Insert(s, i, x), x) == i
    ensures RemoveChild(Insert(s, i, x), x) == s
  {
    var t := Insert(s, i, x);
    assert t[i] == x;
    assert t[..i] == s[..i];
    assert x !in t[..i];
    assert RemoveAt(t, i) == s;
  }

  /**
   * Inserting an absent element at `i`, into a list without duplicates, is
   * what the scene does to place it: in front of the element now at `i`,
   * last when `i` is the end, first when `i` is 0. The list stays free of
   * duplicates, holds what it held and the new element, and removing the
   * element again gives it back.
   */
  lemma InsertPlacement<T>(s: seq<T>, i: nat, x: T)
    requires NoDuplicates(s) && x !in s && i <= |s|
    ensures NoDuplicates(Insert(s, i, x)) && RemoveChild(Insert(s, i, x), x) == s
    ensures forall y :: y in Insert(s, i, x) <==> y in s || y == x
    ensures i < |s| ==> InsertBefore(s, x, s[i]) == Insert(s, i, x)
    ensures i == |s| ==> s + [x] == Insert(s, i, x)
    ensures i == 0 ==> [x] + s == Insert(s, i, x)
  {
    InsertKeepsDistinct(s, i, x);
    RemoveChildUndoesInsert(s, i, x);
    if i < |s| {
      IndexOfDistinct(s, i);
    }
    if i == |s| {
      assert s[..i] == s && s[i..] == [];
    }
    if i == 0 {
      assert s[..i] == [] && s[i..] == s;
    }
  }

  /**
   * `splice(i, 0, x)` and `splice(i, 1)` element by element: insertion puts
   * `x` at `i` and shifts what follows one place up; removal shifts what
   * follows the removed element one place down. Elements before `i` stay.
   */
  lemma SpliceShape<T>(s: seq<T>, i: nat, x: T)
    requires i <= |s|
    ensures |Insert(s, i, x)| == |s| + 1 && Insert(s, i, x)[i] == x
    ensures forall j :: 0 <= j < i ==> Insert(s, i, x)[j] == s[j]
    ensures forall j :: i <= j < |s| ==> Insert(s, i, x)[j + 1] == s[j]
    ensures i < |s| ==> |RemoveAt(s, i)| == |s| - 1
    ensures i < |s| ==> forall j :: 0 <= j < i ==> RemoveAt(s, i)[j] == s[j]
    ensures i < |s| ==> forall j :: i <= j < |s| - 1 ==> RemoveAt(s, i)[j] == s[j + 1]
  {
  }

  /**
   * `insertBefore(child, ref)` adds exactly one child: it lands immediately
   * in front of `ref` when `ref` is a child, and after all the children
   * otherwise.
   */
  lemma InsertBeforeShape<T>(children: seq<T>, child: T, ref: T)
    ensures |InsertBefore(children, child, ref)| == |children| + 1
    ensures ref in children ==>
      var k := IndexOf(children, ref);
      InsertBefore(children, child, ref)[k] == child && InsertBefore(children, child, ref)[k + 1] == ref
    ensures ref !in children ==>
      InsertBefore(children, child, ref)[..|children|] == children &&
      InsertBefore(children, child, ref)[|children|] == child
  {
  }

  /**
   * `removeChild(child)` leaves the children alone when `child` is not one of
   * them; otherwise it takes out exactly one element, keeps every other
   * child, and, in a list without duplicates, leaves `child` absent.
   */
  lemma RemoveChildShape<T>(children: seq<T>, child: T)
    ensures child !in children ==> RemoveChild(children, child) == children
    ensures child in children ==> |RemoveChild(children, child)| == |children| - 1
    ensures forall y :: y in children && y != child ==> y in RemoveChild(children, child)
    ensures forall y :: y in RemoveChild(children, child) ==> y in children
    ensures NoDuplicates(children) ==> child !in RemoveChild(children, child)
  {
    var k := IndexOf(children, child);
    if 0 <= k {
      var r := RemoveAt(children, k);
      forall y | y in children && y != child ensures y in r {
        var j :| 0 <= j < |children| && children[j] == y;
        assert r[if j < k then j else j - 1] == y;
      }
      forall y | y in r ensures y in children {
        var j :| 0 <= j < |r| && r[j] == y;
        assert children[if j < k then j else j + 1] == y;
      }
      if NoDuplicates(children) {
        RemoveAtKeepsDistinct(children, k);
      }
    }
  }
}
