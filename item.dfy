/**
 * The playback metadata of a playlist item: its id, its type, the start/end
 * frame range with the "user edited the range" flag, sampling, frame rate and
 * duration, and the rules that keep them in step with the item's frame limits,
 * its controls and the playlist file.
 */
module PlaylistItems {
  import opened PlaylistTypes
  import opened PlaylistProperties

  /**
   * The clip `setStartEndFrame` applies: the start is raised to the lower
   * limit, the end lowered to the upper limit, and nothing else changes.
   */
  function Clip(range: IndexRange, limits: IndexRange): (r: IndexRange)
    ensures r.first >= limits.first && r.first >= range.first
    ensures r.first == limits.first || r.first == range.first
    ensures r.second <= limits.second && r.second <= range.second
    ensures r.second == limits.second || r.second == range.second
  {
    IndexRange(Max(limits.first, range.first), Min(limits.second, range.second))
  }

  /** Clipping a clipped range again against the same limits changes nothing. */
  lemma ClipIdempotent(range: IndexRange, limits: IndexRange)
    ensures Clip(Clip(range, limits), limits) == Clip(range, limits)
  {
  }

  /** A range already inside the limits is kept as it is. */
  lemma ClipKeepsRangeInsideLimits(range: IndexRange, limits: IndexRange)
    requires limits.first <= range.first && range.second <= limits.second
    ensures Clip(range, limits) == range
  {
  }

  /** The limits clipped against themselves are the limits. */
  lemma ClipOfLimits(limits: IndexRange)
    ensures Clip(limits, limits) == limits
  {
  }

  /**
   * The clip bounds only one side of each end: a requested start above the
   * upper limit stays above it, and the range comes out inverted.
   */
  lemma ClipInvertsWhenStartAboveUpperLimit(range: IndexRange, limits: IndexRange)
    requires limits.second < range.first
    ensures Clip(range, limits).second < Clip(range, limits).first
  {
  }

  /** The id counter after handing out `c`: one more, in 32-bit unsigned arithmetic. */
  function NextId(c: uint32): (n: uint32)
    ensures c + 1 < UINT32_LIMIT ==> n == c + 1
    ensures c + 1 == UINT32_LIMIT ==> n == 0
  {
    (c + 1) % UINT32_LIMIT
  }

  /** The ids `n` items constructed one after another receive when the counter starts at `c`. */
  function IssuedIds(c: uint32, n: nat): seq<uint32>
    decreases n
  {
    if n == 0 then [] else [c] + IssuedIds(NextId(c), n - 1)
  }

  /** The `i`-th of those ids is `c + i`, wrapped to 32 bits. */
  lemma {:induction false} IssuedIdAt(c: uint32, n: nat, i: nat)
    requires i < n
    ensures |IssuedIds(c, n)| == n
    ensures IssuedIds(c, n)[i] == (c + i) % UINT32_LIMIT
    decreases n
  {
    IssuedIdsLength(c, n);
    if i > 0 {
      IssuedIdAt(NextId(c), n - 1, i - 1);
    }
  }

  lemma {:induction false} IssuedIdsLength(c: uint32, n: nat)
    ensures |IssuedIds(c, n)| == n
    decreases n
  {
    if n > 0 {
      IssuedIdsLength(NextId(c), n - 1);
    }
  }

  /** One more construction appends the counter's current value to the ids handed out. */
  lemma IssuedIdsSnoc(c: uint32, n: nat)
    ensures IssuedIds(c, n + 1) == IssuedIds(c, n) + [(c + n) % UINT32_LIMIT]
  {
    var longer, shorter := IssuedIds(c, n + 1), IssuedIds(c, n) + [(c + n) % UINT32_LIMIT];
    IssuedIdsLength(c, n);
    IssuedIdsLength(c, n + 1);
    forall i | 0 <= i < |longer| ensures longer[i] == shorter[i] {
      IssuedIdAt(c, n + 1, i);
      if i < n {
        IssuedIdAt(c, n, i);
      }
    }
  }

  /** Without wrap-around the ids are consecutive, hence strictly increasing. */
  lemma IssuedIdsIncrease(c: uint32, n: nat)
    requires c + n <= UINT32_LIMIT
    ensures |IssuedIds(c, n)| == n
    ensures forall i, j :: 0 <= i < j < n ==> IssuedIds(c, n)[i] < IssuedIds(c, n)[j]
  {
    IssuedIdsLength(c, n);
    forall i, j | 0 <= i < j < n ensures IssuedIds(c, n)[i] < IssuedIds(c, n)[j] {
      IssuedIdAt(c, n, i);
      IssuedIdAt(c, n, j);
    }
  }

  /** Any 2^32 or fewer items constructed one after another have distinct ids, wrap-around or not. */
  lemma IssuedIdsDistinct(c: uint32, n: nat)
    requires n <= UINT32_LIMIT
    ensures |IssuedIds(c, n)| == n
    ensures forall i, j :: 0 <= i < j < n ==> IssuedIds(c, n)[i] != IssuedIds(c, n)[j]
  {
    IssuedIdsLength(c, n);
    forall i, j | 0 <= i < j < n ensures IssuedIds(c, n)[i] != IssuedIds(c, n)[j] {
      IssuedIdAt(c, n, i);
      IssuedIdAt(c, n, j);
      WrapOnce(c + i);
      WrapOnce(c + j);
    }
  }

  lemma WrapOnce(x: int)
    requires 0 <= x < 2 * UINT32_LIMIT
    ensures x % UINT32_LIMIT == if x < UINT32_LIMIT then x else x - UINT32_LIMIT
  {
  }

  /** The static `playlistItem::idCounter`, which starts at 0. */
  class IdCounter {
    var next: uint32

    constructor ()
      ensures next == 0
    {
      next := 0;
    }
  }

  /** The sender of a control-changed signal, when the slot has one. */
  datatype Sender = StartControl | EndControl | RateControl | SamplingControl | DurationControl | NoSender

  /** The values the item's controls hold when the slot reads them. */
  datatype ControlValues = ControlValues(start: int32, end: int32, rate: real, sampling: int32, duration: real)

  class PlaylistItem {
    var id: uint32
    var playlistID: int32
    var itemType: ItemType
    var cachingEnabled: bool
    var frameRate: real
    var sampling: int32
    var startEndFrame: IndexRange
    /** Set once the user edits the range through the start or end control; never cleared. */
    var startEndFrameChanged: bool
    var duration: real
    /** Whether the item's controls exist (`ui.created()`). */
    var controlsCreated: bool

    /**
     * Takes the counter's value as id and advances the counter; the item
     * starts unregistered in a playlist, with sampling 1, the unset range and
     * the flag clear. `defaultFrameRate` and `defaultDuration` stand for the
     * constants of the header.
     */
    constructor (itemType: ItemType, counter: IdCounter, defaultFrameRate: real, defaultDuration: real)
      modifies counter
      ensures id == old(counter.next) && counter.next == NextId(old(counter.next))
      ensures this.itemType == itemType && !cachingEnabled && !controlsCreated
      ensures playlistID == -1 && frameRate == defaultFrameRate && sampling == 1
      ensures startEndFrame == UNSET_RANGE && !startEndFrameChanged
      ensures duration == defaultDuration
    {
      this.itemType := itemType;
      cachingEnabled := false;
      id := counter.next;
      playlistID := -1;
      frameRate := defaultFrameRate;
      sampling := 1;
      startEndFrame := UNSET_RANGE;
      startEndFrameChanged := false;
      duration := defaultDuration;
      controlsCreated := false;
      new;
      counter.next := NextId(counter.next);
    }

    /** `setType`: records the new type (showing and hiding controls is not modelled). */
    method SetType(newType: ItemType)
      modifies this`itemType
      ensures itemType == newType
    {
      itemType := newType;
    }

    /**
     * `setStartEndFrame`: the requested range clipped to the item's current
     * frame limits `limits`. Only the range changes.
     */
    method SetStartEndFrame(range: IndexRange, limits: IndexRange)
      modifies this`startEndFrame
      ensures startEndFrame == Clip(range, limits)
      ensures startEndFrame.first >= limits.first && startEndFrame.second <= limits.second
    {
      startEndFrame := Clip(range, limits);
    }

    /**
     * `slotUpdateFrameLimits`: while the user has not edited the range it
     * follows the new limits exactly; once edited, the previous range is kept,
     * clipped to the new limits.
     */
    method SlotUpdateFrameLimits(limits: IndexRange)
      modifies this`startEndFrame
      ensures !startEndFrameChanged ==> startEndFrame == limits
      ensures startEndFrameChanged ==> startEndFrame == Clip(old(startEndFrame), limits)
    {
      if !startEndFrameChanged {
        SetStartEndFrame(limits, limits);
        ClipOfLimits(limits);
      } else {
        SetStartEndFrame(startEndFrame, limits);
      }
    }

    /**
     * `slotVideoControlChanged`: a static item takes the duration control's
     * value. Any other item takes the start, end, rate and sampling controls'
     * values, and marks the range as edited when the start or end control sent
     * the signal.
     */
    method SlotVideoControlChanged(sender: Sender, controls: ControlValues)
      modifies this`duration, this`startEndFrame, this`frameRate, this`sampling, this`startEndFrameChanged
      ensures itemType == Static ==>
        duration == controls.duration &&
        startEndFrame == old(startEndFrame) && frameRate == old(frameRate) && sampling == old(sampling) &&
        startEndFrameChanged == old(startEndFrameChanged)
      ensures itemType != Static ==>
        startEndFrame == IndexRange(controls.start, controls.end) &&
        frameRate == controls.rate && sampling == controls.sampling &&
        duration == old(duration) &&
        startEndFrameChanged == (old(startEndFrameChanged) || sender == StartControl || sender == EndControl)
    {
      if itemType == Static {
        duration := controls.duration;
      } else {
        if sender == StartControl || sender == EndControl {
          startEndFrameChanged := true;
        }
        startEndFrame := IndexRange(controls.start, controls.end);
        frameRate := controls.rate;
        sampling := controls.sampling;
      }
    }

    /**
     * The field part of `createPlaylistItemControls`, which may run only once:
     * an unset range is replaced by the limits, any other range is kept.
     */
    method CreatePlaylistItemControls(limits: IndexRange)
      requires !controlsCreated
      modifies this`startEndFrame, this`controlsCreated
      ensures controlsCreated
      ensures old(startEndFrame) == UNSET_RANGE ==> startEndFrame == limits
      ensures old(startEndFrame) != UNSET_RANGE ==> startEndFrame == old(startEndFrame)
    {
      controlsCreated := true;
      if startEndFrame == UNSET_RANGE {
        startEndFrame := limits;
      }
    }

    /** `appendPropertiesToPlaylist`: the element `d` with this item's properties added at its end. */
    method AppendPropertiesToPlaylist(d: Element) returns (d': Element)
      ensures d' == d + ItemProperties(id, itemType, startEndFrame, sampling, frameRate, duration)
      ensures |d'| == |d| + (if itemType == Indexed then 5 else 2) && d'[..|d|] == d
      ensures d'[|d|] == Property("id", id as real)
    {
      d' := d + ItemProperties(id, itemType, startEndFrame, sampling, frameRate, duration);
      assert |Keys(ItemProperties(id, itemType, startEndFrame, sampling, frameRate, duration))| ==
        if itemType == Indexed then |INDEXED_KEYS| else |STATIC_KEYS|;
    }

    /**
     * The indexed branch of `loadPropertiesFromPlaylist`: the playlist id,
     * range, sampling and frame rate are read from `root`; the rest of the
     * item is untouched.
     */
    static method LoadPropertiesFromPlaylist(root: Element, newItem: PlaylistItem)
      requires newItem.itemType == Indexed
      modifies newItem`playlistID, newItem`startEndFrame, newItem`sampling, newItem`frameRate
      ensures IndexedFields(newItem.playlistID, newItem.startEndFrame, newItem.sampling, newItem.frameRate)
              == LoadIndexed(root)
    {
      newItem.playlistID := ToInt(FindChildValue(root, "id"));
      var startFrame := ToInt(FindChildValue(root, "startFrame"));
      var endFrame := ToInt(FindChildValue(root, "endFrame"));
      newItem.startEndFrame := IndexRange(startFrame, endFrame);
      newItem.sampling := ToInt(FindChildValue(root, "sampling"));
      newItem.frameRate := ToInt(FindChildValue(root, "frameRate")) as real;
    }
  }

  /**
   * Constructs `n` items one after another from one counter: the items get
   * the ids `IssuedIds` describes, which are pairwise distinct for up to 2^32
   * items, and the counter ends `n` further on, wrapped to 32 bits.
   */
  method ConstructItems(counter: IdCounter, n: nat, itemType: ItemType, defaultFrameRate: real, defaultDuration: real)
    returns (items: seq<PlaylistItem>)
    modifies counter
    ensures |items| == n
    ensures forall k :: 0 <= k < n ==> fresh(items[k])
    ensures seq(n, k requires 0 <= k < n reads items => items[k].id) == IssuedIds(old(counter.next), n)
    ensures n <= UINT32_LIMIT ==> forall i, j :: 0 <= i < j < n ==> items[i].id != items[j].id
    ensures counter.next == (old(counter.next) + n) % UINT32_LIMIT
  {
    ghost var c0 := counter.next;
    items := [];
    var i := 0;
    while i < n
      invariant 0 <= i <= n && |items| == i
      invariant forall k :: 0 <= k < i ==> fresh(items[k])
      invariant counter.next == (c0 + i) % UINT32_LIMIT
      invariant seq(i, k requires 0 <= k < i reads items => items[k].id) == IssuedIds(c0, i)
    {
      ghost var before := seq(i, k requires 0 <= k < i reads items => items[k].id);
      var item := new PlaylistItem(itemType, counter, defaultFrameRate, defaultDuration);
      assert item.id == (c0 + i) % UINT32_LIMIT;
      items := items + [item];
      IssuedIdsSnoc(c0, i);
      assert (c0 + i + 1) % UINT32_LIMIT == NextId((c0 + i) % UINT32_LIMIT);
      assert seq(i + 1, k requires 0 <= k < i + 1 reads items => items[k].id) == before + [item.id];
      i := i + 1;
    }
    if n <= UINT32_LIMIT {
      IssuedIdsDistinct(c0, n);
      forall i, j | 0 <= i < j < n ensures items[i].id != items[j].id {
        assert items[i].id == IssuedIds(c0, n)[i];
        assert items[j].id == IssuedIds(c0, n)[j];
      }
    }
  }

  /**
   * Saving an indexed item to a fresh element and loading that element into
   * another indexed item gives the second item the first one's range and
   * sampling; its playlist id is the first item's id when that fits a C++
   * `int`, and its frame rate the first item's when that is a whole number.
   */
  method SaveAndLoad(item: PlaylistItem, newItem: PlaylistItem)
    requires item.itemType == Indexed && newItem.itemType == Indexed && item != newItem
    modifies newItem`playlistID, newItem`startEndFrame, newItem`sampling, newItem`frameRate
    ensures newItem.startEndFrame == item.startEndFrame && newItem.sampling == item.sampling
    ensures newItem.playlistID == if item.id < INT32_LIMIT then item.id else 0
    ensures newItem.frameRate == if IsInt32Value(item.frameRate) then item.frameRate else 0.0
  {
    var element := item.AppendPropertiesToPlaylist([]);
    IndexedRoundTrip([], item.id, item.startEndFrame, item.sampling, item.frameRate, item.duration);
    assert element == [] + element;
    PlaylistItem.LoadPropertiesFromPlaylist(element, newItem);
  }
}
