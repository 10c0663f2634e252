/**
 * The playlist is a tree of tree-widget items. Some of them are playlist items
 * (they carry a value, here the item itself), others are plain tree-widget items
 * that `dynamic_cast<playlistItem*>` rejects.
 */
module PlaylistTree {

  datatype Tree<T> =
    | Item(value: T, children: seq<Tree<T>>)
    | Other(children: seq<Tree<T>>)

  /**
   * The list `getItemAndAllChildren` builds for an item: the item, then the
   * list of every playlist-item child, child by child. A child that is not a
   * playlist item contributes nothing, and neither does anything below it.
   */
  function Flatten<T>(t: Tree<T>): (r: seq<T>)
    ensures t.Item? ==> |r| >= 1 && r[0] == t.value
    ensures t.Other? ==> r == []
    decreases t, 1
  {
    match t
    case Item(v, cs) => [v] + FlattenChildren(t, |cs|)
    case Other(_) => []
  }

  /** The flattened lists of the first `n` children of `t`, concatenated in child order. */
  function FlattenChildren<T>(t: Tree<T>, n: nat): seq<T>
    requires n <= |t.children|
    decreases t, 0, n
  {
    if n == 0 then [] else FlattenChildren(t, n - 1) + Flatten(t.children[n - 1])
  }

  /**
   * `x` belongs to the item tree of `t`: `t` is a playlist item and `x` is its
   * value or belongs to the item tree of one of its children.
   */
  ghost predicate InItemTree<T>(t: Tree<T>, x: T)
  {
    t.Item? && (t.value == x || exists i :: 0 <= i < |t.children| && InItemTree(t.children[i], x))
  }

  /** Sum of the lengths of the children's flattened lists, first child first. */
  function ChildListLengths<T>(cs: seq<Tree<T>>): nat
  {
    if cs == [] then 0 else |Flatten(cs[0])| + ChildListLengths(cs[1..])
  }

  /**
   * `getItemAndAllChildren`: appends the item, then, for each child in order,
   * the result of the recursive call on that child when it is a playlist item.
   */
  method GetItemAndAllChildren<T>(t: Tree<T>) returns (list: seq<T>)
    requires t.Item?
    ensures list == Flatten(t)
    decreases t
  {
    list := [t.value];
    var i := 0;
    while i < |t.children|
      invariant 0 <= i <= |t.children|
      invariant list == [t.value] + FlattenChildren(t, i)
    {
      var child := t.children[i];
      if child.Item? {
        var childList := GetItemAndAllChildren(child);
        list := list + childList;
      }
      i := i + 1;
    }
  }

  /** The flattened list holds exactly the values of the item tree. */
  lemma {:induction false} FlattenHoldsItemTree<T>(t: Tree<T>, x: T)
    ensures x in Flatten(t) <==> InItemTree(t, x)
    decreases t, 1
  {
    if t.Item? {
      FlattenChildrenHolds(t, |t.children|, x);
    }
  }

  lemma {:induction false} FlattenChildrenHolds<T>(t: Tree<T>, n: nat, x: T)
    requires n <= |t.children|
    ensures x in FlattenChildren(t, n) <==> exists i :: 0 <= i < n && InItemTree(t.children[i], x)
    decreases t, 0, n
  {
    if n > 0 {
      FlattenChildrenHolds(t, n - 1, x);
      FlattenHoldsItemTree(t.children[n - 1], x);
    }
  }

  /** The list is one entry for the item plus the lengths of the children's lists. */
  lemma {:induction false} FlattenLength<T>(t: Tree<T>)
    requires t.Item?
    ensures |Flatten(t)| == 1 + ChildListLengths(t.children)
  {
    FlattenChildrenLength(t, |t.children|);
    assert t.children[..|t.children|] == t.children;
  }

  lemma {:induction false} FlattenChildrenLength<T>(t: Tree<T>, n: nat)
    requires n <= |t.children|
    ensures |FlattenChildren(t, n)| == ChildListLengths(t.children[..n])
  {
    if n > 0 {
      FlattenChildrenLength(t, n - 1);
      assert t.children[..n] == t.children[..n - 1] + [t.children[n - 1]];
      ChildListLengthsAppend(t.children[..n - 1], t.children[n - 1]);
    }
  }

  lemma {:induction false} ChildListLengthsAppend<T>(cs: seq<Tree<T>>, c: Tree<T>)
    ensures ChildListLengths(cs + [c]) == ChildListLengths(cs) + |Flatten(c)|
  {
    if cs != [] {
      assert (cs + [c])[1..] == cs[1..] + [c];
      ChildListLengthsAppend(cs[1..], c);
    }
  }

  /** The lists of the first `m` children are a prefix of those of the first `n`. */
  lemma {:induction false} FlattenChildrenPrefix<T>(t: Tree<T>, m: nat, n: nat)
    requires m <= n <= |t.children|
    ensures |FlattenChildren(t, m)| <= |FlattenChildren(t, n)|
    ensures FlattenChildren(t, n)[..|FlattenChildren(t, m)|] == FlattenChildren(t, m)
    decreases n
  {
    if m < n {
      FlattenChildrenPrefix(t, m, n - 1);
    }
  }

  /**
   * Pre-order: the list of child `i` sits, unbroken, right after the item and
   * the lists of the children before it.
   */
  lemma {:induction false} ChildListInPlace<T>(t: Tree<T>, i: nat)
    requires t.Item? && i < |t.children|
    ensures 1 + |FlattenChildren(t, i)| + |Flatten(t.children[i])| <= |Flatten(t)|
    ensures Flatten(t)[1 + |FlattenChildren(t, i)| .. 1 + |FlattenChildren(t, i)| + |Flatten(t.children[i])|]
            == Flatten(t.children[i])
  {
    var before, own := FlattenChildren(t, i), Flatten(t.children[i]);
    var upTo := FlattenChildren(t, i + 1);
    assert upTo == before + own;
    FlattenChildrenPrefix(t, i + 1, |t.children|);
    var all := FlattenChildren(t, |t.children|);
    assert all[..|upTo|] == upTo;
    assert Flatten(t) == [t.value] + all;
    assert Flatten(t)[1 + |before| .. 1 + |before| + |own|] == all[|before| .. |before| + |own|];
    assert all[|before| .. |before| + |own|] == upTo[|before| ..];
  }

  /**
   * The destructor's loop `for (i = 0; i < childCount(); i++) takeChild(0)`,
   * on the list of children: each round takes the first child while the
   * index rises and the list shrinks.
   */
  method TakeChildrenLoop<T>(children: seq<T>) returns (taken: seq<T>, remaining: seq<T>)
    ensures |taken| == (|children| + 1) / 2
    ensures taken + remaining == children
  {
    taken, remaining := [], children;
    var i := 0;
    while i < |remaining|
      invariant taken + remaining == children
      invariant i == |taken|
      invariant 2 * i <= |children| + 1
      decreases |remaining| - i
    {
      taken := taken + [remaining[0]];
      remaining := remaining[1..];
      i := i + 1;
    }
  }
}
