/**
 * The per-item part of the playlist file: a playlist item's XML element is a
 * list of property children `<key>number</key>`, written in order.
 */
module PlaylistProperties {
  import opened PlaylistTypes

  /** One property child; `value` is the number `QString::number` wrote as text. */
  datatype Property = Property(key: string, value: real)

  type Element = seq<Property>

  /** The keys an indexed item writes, in the order it writes them. */
  const INDEXED_KEYS: seq<string> := ["id", "startFrame", "endFrame", "sampling", "frameRate"]

  /** The keys a static item writes, in the order it writes them. */
  const STATIC_KEYS: seq<string> := ["id", "duration"]

  function Keys(e: Element): (ks: seq<string>)
    ensures |ks| == |e|
    ensures forall i :: 0 <= i < |e| ==> ks[i] == e[i].key
  {
    if e == [] then [] else [e[0].key] + Keys(e[1..])
  }

  /** `findChildValue(key)`: the value of the first child named `key`, if any. */
  function FindChildValue(e: Element, key: string): (r: Option<real>)
    ensures r.None? <==> forall i :: 0 <= i < |e| ==> e[i].key != key
    ensures r.Some? ==> Property(key, r.value) in e
  {
    if e == [] then None
    else if e[0].key == key then Some(e[0].value)
    else FindChildValue(e[1..], key)
  }

  /** The lookup takes the first child named `key`, whatever follows it. */
  lemma {:induction false} FindChildValueAt(e: Element, key: string, k: nat)
    requires k < |e| && e[k].key == key
    requires forall j :: 0 <= j < k ==> e[j].key != key
    ensures FindChildValue(e, key) == Some(e[k].value)
  {
    if k > 0 {
      assert e[0].key != key;
      FindChildValueAt(e[1..], key, k - 1);
    }
  }

  /** A number whose text `QString::toInt` accepts: an integer that fits a C++ `int`. */
  predicate IsInt32Value(v: real)
  {
    v == v.Floor as real && INT32_MIN <= v.Floor < INT32_LIMIT
  }

  /**
   * `findChildValue(key).toInt()`: the number when it is an integer in range,
   * otherwise 0, which is what `toInt` returns on text it rejects (a missing
   * child reads as empty text).
   */
  function ToInt(v: Option<real>): (n: int32)
    ensures v.Some? && IsInt32Value(v.value) ==> n as real == v.value
    ensures !(v.Some? && IsInt32Value(v.value)) ==> n == 0
  {
    if v.Some? && IsInt32Value(v.value) then v.value.Floor else 0
  }

  /** `findChildValue(key).toDouble()`: the number, or 0 for a missing child. */
  function ToDouble(v: Option<real>): (x: real)
    ensures v.Some? ==> x == v.value
    ensures v.None? ==> x == 0.0
  {
    if v.Some? then v.value else 0.0
  }

  /**
   * The children `appendPropertiesToPlaylist` adds for an item: "id" first,
   * then the range, sampling and frame rate of an indexed item, or the
   * duration of any other item.
   */
  function ItemProperties(id: uint32, itemType: ItemType, range: IndexRange, sampling: int32,
                          frameRate: real, duration: real): (e: Element)
    ensures Keys(e) == if itemType == Indexed then INDEXED_KEYS else STATIC_KEYS
    ensures e[0].value == id as real
  {
    [Property("id", id as real)] +
    if itemType == Indexed then
      [Property("startFrame", range.first as real),
       Property("endFrame", range.second as real),
       Property("sampling", sampling as real),
       Property("frameRate", frameRate)]
    else
      [Property("duration", duration)]
  }

  /** What the indexed branch of `loadPropertiesFromPlaylist` stores into the item. */
  datatype IndexedFields = IndexedFields(playlistID: int32, startEndFrame: IndexRange, sampling: int32, frameRate: real)

  /** The indexed branch of `loadPropertiesFromPlaylist`: every value is read back with `toInt`. */
  function LoadIndexed(root: Element): (r: IndexedFields)
    ensures IsInt32Value(r.frameRate)
    ensures FindChildValue(root, "id").None? ==> r.playlistID == 0
    ensures FindChildValue(root, "sampling").None? ==> r.sampling == 0
  {
    IndexedFields(
      ToInt(FindChildValue(root, "id")),
      IndexRange(ToInt(FindChildValue(root, "startFrame")), ToInt(FindChildValue(root, "endFrame"))),
      ToInt(FindChildValue(root, "sampling")),
      ToInt(FindChildValue(root, "frameRate")) as real)
  }

  /** Children in front of the ones an item adds do not hide them when no key is shared. */
  lemma {:induction false} FindChildValueAfter(d: Element, e: Element, key: string)
    requires forall i :: 0 <= i < |d| ==> d[i].key != key
    ensures FindChildValue(d + e, key) == FindChildValue(e, key)
  {
    if d != [] {
      assert (d + e)[0] == d[0];
      assert (d + e)[1..] == d[1..] + e;
      FindChildValueAfter(d[1..], e, key);
    } else {
      assert d + e == e;
    }
  }

  /**
   * Writing an indexed item and reading it back: the range and the sampling come
   * back as written; the item's id comes back as its playlist id when it fits a
   * C++ `int` (0 otherwise); the frame rate comes back only when it is a whole
   * number, and reads as 0 otherwise. `d` stands for children already in the
   * element that use none of the item's keys.
   */
  lemma IndexedRoundTrip(d: Element, id: uint32, range: IndexRange, sampling: int32, frameRate: real, duration: real)
    requires forall i :: 0 <= i < |d| ==> d[i].key !in INDEXED_KEYS
    ensures LoadIndexed(d + ItemProperties(id, Indexed, range, sampling, frameRate, duration))
         == IndexedFields(if id < INT32_LIMIT then id else 0, range, sampling,
                          if IsInt32Value(frameRate) then frameRate else 0.0)
  {
    IndexedLookups(d, id, range, sampling, frameRate, duration);
    LoadIndexedOf(d + ItemProperties(id, Indexed, range, sampling, frameRate, duration),
                  id as real, range.first as real, range.second as real, sampling as real, frameRate);
    ToIntOfWhole(id);
    ToIntOfWhole(range.first);
    ToIntOfWhole(range.second);
    ToIntOfWhole(sampling);
  }

  /** The indexed load, field by field, once the five lookups are known. */
  lemma LoadIndexedOf(root: Element, id: real, first: real, second: real, sampling: real, frameRate: real)
    requires FindChildValue(root, "id") == Some(id)
    requires FindChildValue(root, "startFrame") == Some(first)
    requires FindChildValue(root, "endFrame") == Some(second)
    requires FindChildValue(root, "sampling") == Some(sampling)
    requires FindChildValue(root, "frameRate") == Some(frameRate)
    ensures LoadIndexed(root) == IndexedFields(ToInt(Some(id)), IndexRange(ToInt(Some(first)), ToInt(Some(second))),
                                               ToInt(Some(sampling)), if IsInt32Value(frameRate) then frameRate else 0.0)
  {
  }

  /** Each key an indexed item writes is found with the value written for it. */
  lemma IndexedLookups(d: Element, id: uint32, range: IndexRange, sampling: int32, frameRate: real, duration: real)
    requires forall i :: 0 <= i < |d| ==> d[i].key !in INDEXED_KEYS
    ensures var e := d + ItemProperties(id, Indexed, range, sampling, frameRate, duration);
      FindChildValue(e, "id") == Some(id as real) &&
      FindChildValue(e, "startFrame") == Some(range.first as real) &&
      FindChildValue(e, "endFrame") == Some(range.second as real) &&
      FindChildValue(e, "sampling") == Some(sampling as real) &&
      FindChildValue(e, "frameRate") == Some(frameRate)
  {
    var e := ItemProperties(id, Indexed, range, sampling, frameRate, duration);
    FindChildValueAfter(d, e, "id");
    FindChildValueAfter(d, e, "startFrame");
    FindChildValueAfter(d, e, "endFrame");
    FindChildValueAfter(d, e, "sampling");
    FindChildValueAfter(d, e, "frameRate");
    var e1 := e[1..];
    var e2 := e1[1..];
    var e3 := e2[1..];
    var e4 := e3[1..];
    assert e1[0] == Property("startFrame", range.first as real);
    assert e2[0] == Property("endFrame", range.second as real);
    assert e3[0] == Property("sampling", sampling as real);
    assert e4 == [Property("frameRate", frameRate)];
    assert FindChildValue(e, "endFrame") == FindChildValue(e1, "endFrame") == FindChildValue(e2, "endFrame");
    assert FindChildValue(e, "sampling") == FindChildValue(e1, "sampling") == FindChildValue(e2, "sampling")
        == FindChildValue(e3, "sampling");
    assert FindChildValue(e, "frameRate") == FindChildValue(e1, "frameRate") == FindChildValue(e2, "frameRate")
        == FindChildValue(e3, "frameRate") == FindChildValue(e4, "frameRate");
  }

  lemma ToIntOfWhole(x: int)
    ensures ToInt(Some(x as real)) == if INT32_MIN <= x < INT32_LIMIT then x else 0
  {
    assert (x as real).Floor == x;
  }

  // The static branch: as written, and as evidently intended.

  /** The part of an item the static branch of `loadPropertiesFromPlaylist` reads and writes. */
  datatype StaticLoadState = StaticLoadState(itemType: ItemType, playlistID: int32, duration: real)

  /**
   * One activation of `loadPropertiesFromPlaylist` as written on a non-indexed
   * item, up to its last statement: it stores the playlist id and the duration.
   * Its last statement then calls `loadPropertiesFromPlaylist` again, with the
   * same element and the same item.
   */
  function StaticActivation(root: Element, s: StaticLoadState): (s': StaticLoadState)
    requires s.itemType != Indexed
    ensures s'.itemType == s.itemType
  {
    StaticLoadState(s.itemType, ToInt(FindChildValue(root, "id")), ToDouble(FindChildValue(root, "duration")))
  }

  /** `loadPropertiesFromPlaylist` as written returns after at most `calls` nested activations. */
  ghost predicate LoadReturnsWithin(root: Element, s: StaticLoadState, calls: nat)
    ensures s.itemType == Indexed ==> (LoadReturnsWithin(root, s, calls) <==> calls > 0)
    decreases calls
  {
    calls > 0 && (s.itemType == Indexed || LoadReturnsWithin(root, StaticActivation(root, s), calls - 1))
  }

  /** As written, loading a static item never returns, however many activations are allowed. */
  lemma {:induction false} StaticLoadNeverReturns(root: Element, s: StaticLoadState, calls: nat)
    requires s.itemType == Static
    ensures !LoadReturnsWithin(root, s, calls)
    decreases calls
  {
    if calls > 0 {
      StaticLoadNeverReturns(root, StaticActivation(root, s), calls - 1);
    }
  }

  /** What a static item's load evidently should store: the playlist id and the duration, and return. */
  datatype StaticFields = StaticFields(playlistID: int32, duration: real)

  function LoadStatic(root: Element): (r: StaticFields)
    ensures FindChildValue(root, "duration").Some? ==> Property("duration", r.duration) in root
    ensures FindChildValue(root, "duration").None? ==> r.duration == 0.0
    ensures FindChildValue(root, "id").None? ==> r.playlistID == 0
  {
    StaticFields(ToInt(FindChildValue(root, "id")), ToDouble(FindChildValue(root, "duration")))
  }

  /** Writing a static item and reading it back with the corrected load restores its duration. */
  lemma StaticRoundTrip(d: Element, id: uint32, range: IndexRange, sampling: int32, frameRate: real, duration: real)
    requires forall i :: 0 <= i < |d| ==> d[i].key !in STATIC_KEYS
    ensures LoadStatic(d + ItemProperties(id, Static, range, sampling, frameRate, duration))
         == StaticFields(if id < INT32_LIMIT then id else 0, duration)
  {
    var e := ItemProperties(id, Static, range, sampling, frameRate, duration);
    FindChildValueAfter(d, e, "id");
    FindChildValueAfter(d, e, "duration");
    assert (id as real).Floor == id;
  }
}
