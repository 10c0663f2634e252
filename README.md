# YUView playlist item: playback metadata model

YUView is a YUV video player. Every entry in its playlist is a `playlistItem`.
Each item carries playback metadata:

- a unique id, taken from a static counter;
- a playlist id, read back from a saved playlist;
- a type: indexed (a frame range) or static (a duration);
- a start/end frame range, with a flag recording that the user edited it;
- sampling, frame rate and duration.

This project models that record and the rules around it:

- clipping a requested range to the item's frame limits;
- the policy that applies new limits, which depends on the "user edited the range" flag;
- copying control values into the fields;
- replacing the unset range `(-1,-1)` when the controls are created;
- the pre-order list of an item and all its playlist-item descendants;
- the key/value properties an item writes to, and reads from, the playlist file.

Modules:

- `PlaylistTypes` (types.dfy) holds C++ `int`/`unsigned int` as subset types, `IndexRange` and `ItemType`.
- `PlaylistTree` (tree.dfy) models the tree of tree-widget items, `getItemAndAllChildren` and the destructor's child loop.
- `PlaylistProperties` (properties.dfy) models an item's XML element as a list of (key, number) children, with `findChildValue`, `toInt`/`toDouble` and both directions of the serialisation.
- `PlaylistItems` (item.dfy) holds the class `PlaylistItem`, whose methods update its fields in place, the id counter, and the clipping rule.

Frame rate and duration are `double` in the program (their controls emit `valueChanged(double)`), so they are `real` here.
The loader reads the frame rate back with `toInt`, which rejects text that is not a whole number and yields 0 for it.
So a saved frame rate of 29.97 is loaded as 0; `IndexedRoundTrip` states exactly this.
In the program, a whole frame rate of 10^6 or more is also lost: `QString::number` writes it in exponent form ("1e+06"), which `toInt` rejects. The model writes numbers exactly, so it does not show this case (see "Left out").
The id is an `unsigned int` and is read back with `toInt` as well, so an id of 2^31 or more loads as 0.

`setStartEndFrame` is modelled on the path where its controls do not exist yet, or where it is called with `emitSignal` false.
That second case is the only way `slotUpdateFrameLimits` calls it.
On that path, clipping raises the start to the lower limit and lowers the end to the upper limit, and does nothing else.
A requested start above the upper limit therefore stays above it, and the range comes out inverted (`ClipInvertsWhenStartAboveUpperLimit`).

## Model

| member | source | states |
|---|---|---|
| `PlaylistItems.IdCounter.constructor` | source/playlistItem.cpp:21 | The static `idCounter` starts at 0. |
| `PlaylistItems.PlaylistItem.constructor` | source/playlistItem.cpp:21-41 | The item takes the counter's value as its id and the counter advances by one, wrapping at 2^32. Defaults: playlist id -1, sampling 1, range (-1,-1), flag clear, caching off, controls not created. |
| `PlaylistItems.NextId` | source/playlistItem.cpp:30 | `idCounter++` on an `unsigned int`: one more, except that 2^32-1 wraps to 0. |
| `PlaylistItems.IssuedIdAt` | source/playlistItem.cpp:30 | The i-th entry of `IssuedIds(c, n)` is (c + i) mod 2^32, where c is the counter's starting value. |
| `PlaylistItems.IssuedIdsSnoc` | source/playlistItem.cpp:30 | One more construction appends the counter's current value, wrapped to 32 bits, to the ids handed out. |
| `PlaylistItems.IssuedIdsIncrease` | source/playlistItem.cpp:21-30 | If the counter does not wrap, the ids in `IssuedIds(c, n)` strictly increase. |
| `PlaylistItems.IssuedIdsDistinct` | source/playlistItem.cpp:21-30 | Any 2^32 or fewer entries of `IssuedIds(c, n)` are pairwise distinct, even across the wrap. |
| `PlaylistItems.ConstructItems` | source/playlistItem.cpp:21-41 | Constructing n items in a loop from one counter gives them exactly the ids `IssuedIds(c, n)`. Those ids are pairwise distinct when n ≤ 2^32, and the counter ends at (c + n) mod 2^32. |
| `PlaylistTree.Flatten` | source/playlistItem.cpp:53-64 | For an item, the list is non-empty and starts with the item itself. A non-playlist-item contributes nothing. |
| `PlaylistTree.GetItemAndAllChildren` | source/playlistItem.cpp:53-64 | The list built by the loop, with its recursive appends, is exactly the pre-order flattening. |
| `PlaylistTree.FlattenHoldsItemTree` | source/playlistItem.cpp:53-64 | A value is in the list if and only if it belongs to the item or to a playlist-item child's tree. Subtrees under non-playlist-items are not searched. |
| `PlaylistTree.FlattenLength` | source/playlistItem.cpp:56-62 | The list's length is 1 plus the sum of the children's list lengths. A non-playlist-item child counts 0. |
| `PlaylistTree.ChildListInPlace` | source/playlistItem.cpp:56-62 | Child i's whole list appears unbroken right after the item and the lists of children 0..i-1 (pre-order, in child order). |
| `PlaylistTree.TakeChildrenLoop` | source/playlistItem.cpp:46-50 | The destructor's loop takes the first ceil(n/2) children, in order, and leaves the rest. |
| `PlaylistItems.PlaylistItem.SetType` | source/playlistItem.cpp:66-87 | The item's type becomes the new type; nothing else changes. |
| `PlaylistProperties.ItemProperties` | source/playlistItem.cpp:90-107 | The children written start with "id" holding the id. An indexed item then gets "startFrame", "endFrame", "sampling", "frameRate" in that order; any other item gets only "duration". |
| `PlaylistItems.PlaylistItem.AppendPropertiesToPlaylist` | source/playlistItem.cpp:90-107 | The element keeps its earlier children and gains the item's properties at its end: 5 for an indexed item, 2 otherwise, the first being "id". |
| `PlaylistProperties.FindChildValue` | source/playlistItem.cpp:112-120 | The lookup finds nothing exactly when no child has the key. What it finds is the value of a child with that key. |
| `PlaylistProperties.FindChildValueAt` | source/playlistItem.cpp:112-120 | The lookup returns the value of the first child with the key. |
| `PlaylistProperties.ToInt` | source/playlistItem.cpp:112-120 | `toInt` gives the number when it is a whole number that fits an `int`, and 0 otherwise, including when the child is missing. |
| `PlaylistProperties.LoadIndexed` | source/playlistItem.cpp:112-120 | The indexed branch as a function. The loaded frame rate is always a whole number that fits an `int`, because it is read with `toInt`. A missing "id" or "sampling" child loads as 0. |
| `PlaylistItems.PlaylistItem.LoadPropertiesFromPlaylist` | source/playlistItem.cpp:110-121 | For an indexed item, the playlist id, range, sampling and frame rate are read back with `toInt`. Nothing else in the item changes. |
| `PlaylistProperties.IndexedRoundTrip` | source/playlistItem.cpp:90-121 | Writing an indexed item and loading it restores the range and sampling. The playlist id becomes the id when that fits an `int` (0 otherwise). The frame rate comes back only when it is a whole number, and 0 otherwise. The model writes numbers exactly; in the program a whole frame rate also has to be below 10^6 (see "Left out"). |
| `PlaylistItems.SaveAndLoad` | source/playlistItem.cpp:90-121 | The same round trip through the class's two methods, into a second indexed item. |
| `PlaylistProperties.StaticActivation` | source/playlistItem.cpp:112-125 | One activation of the static branch as written stores the playlist id and the duration, and leaves the item's type unchanged for the call on line 125. |
| `PlaylistProperties.LoadReturnsWithin` | source/playlistItem.cpp:110-126 | The load as written, bounded by a number of nested calls. An indexed item returns after one activation whenever at least one is allowed. |
| `PlaylistProperties.StaticLoadNeverReturns` | source/playlistItem.cpp:110-126 | As written, loading a static item returns within no number of nested calls. |
| `PlaylistProperties.LoadStatic` | source/playlistItem.cpp:112-124 | The corrected static load. The duration is that of a "duration" child, or 0 if there is none. A missing "id" gives playlist id 0. |
| `PlaylistProperties.StaticRoundTrip` | source/playlistItem.cpp:90-126 | A corrected static load that stores the id and the duration and then returns restores the duration written for a static item. |
| `PlaylistItems.Clip` | source/playlistItem.cpp:129-134 | The clipped start is the larger of the lower limit and the requested start. The clipped end is the smaller of the upper limit and the requested end. |
| `PlaylistItems.PlaylistItem.SetStartEndFrame` | source/playlistItem.cpp:129-158 | On the path with no controls yet, or with `emitSignal` false, the range becomes the clip of the request, so start ≥ lower limit and end ≤ upper limit. Its frame contains only the range, so type, id, sampling, frame rate, duration and the flag are untouched. |
| `PlaylistItems.ClipIdempotent` | source/playlistItem.cpp:131-134 | Clipping a clipped range again against the same limits changes nothing. |
| `PlaylistItems.ClipInvertsWhenStartAboveUpperLimit` | source/playlistItem.cpp:131-134 | Whenever the requested start is above the upper limit, the clipped range is inverted (end < start): the start is not bounded by the upper limit. |
| `PlaylistItems.PlaylistItem.SlotVideoControlChanged` | source/playlistItem.cpp:160-183 | A static item takes only the duration control. Any other item takes start, end, rate and sampling from the controls. The flag becomes true when the start or end control sent the signal, and is otherwise unchanged. |
| `PlaylistItems.PlaylistItem.SlotUpdateFrameLimits` | source/playlistItem.cpp:185-201 | If the range was never edited, it becomes exactly the new limits. If it was edited, it becomes the previous range clipped to the new limits. |
| `PlaylistItems.ClipOfLimits` | source/playlistItem.cpp:188-193 | Clipping the limits against themselves gives the limits. |
| `PlaylistItems.ClipKeepsRangeInsideLimits` | source/playlistItem.cpp:194-198 | An edited range that lies inside the new limits is kept unchanged. |
| `PlaylistItems.PlaylistItem.CreatePlaylistItemControls` | source/playlistItem.cpp:203-214 | Allowed only once. The range is replaced by the limits only when it is the unset (-1,-1); any other range is kept. |

## Left out

- The GUI toolkit's side of every operation is left out, because it is framework behaviour with no effect on the fields modelled here:
  - setting spin-box minimum, maximum and value;
  - showing and hiding controls in `setType`;
  - connecting and disconnecting signals;
  - emitting `signalItemChanged`;
  - building layouts in `createPropertiesWidget` and `preparePropertiesWidget`;
  - the asserts of `createPropertiesWidget` and `preparePropertiesWidget`.
- `PlaylistItems.PlaylistItem.SetStartEndFrame`: the `emitSignal` parameter is dropped, and the model covers only the path with no controls yet or with `emitSignal` false.
  - When `emitSignal` is true and the controls exist, the spin boxes stay connected. Each `setValue` (lines 148 and 151) re-enters `slotVideoControlChanged`.
  - Each re-entry rewrites the range from both spin boxes, clamped by the spin boxes' own limits. It also re-reads the frame rate and sampling from their controls, and sets the "user edited" flag.
  - So on that path the final range, frame rate, sampling and flag are set by the controls, not by `Clip`. This toolkit dispatch is not modelled.
- `getStartEndFrameLimits` is virtual and its overrides are not part of this model. The limits are a parameter. `SlotUpdateFrameLimits` uses one value for both of the calls the program makes.
- `DEFAULT_FRAMERATE` and `PLAYLISTITEMTEXT_DEFAULT_DURATION` come from headers that are not part of this model. They are constructor parameters.
- `setName` is not part of this model, so the item's name is not a field.
- `PlaylistItems.PlaylistItem.LoadPropertiesFromPlaylist` requires an indexed item. Its static branch calls itself again with the same arguments and never returns, so it has no terminating model (see Findings).
- `QString::number` is modelled as writing the exact number. For a `double` it uses format 'g' with six significant digits. That rounds values with more digits, and writes 10^6 or more in exponent form ("1e+06"), which `toInt` rejects as 0. Neither is modelled, so a whole frame rate of 10^6 or more that the model restores loads as 0 in the program. The frame-rate control's maximum is 1000 (line 227).
- `QString::toDouble` (in the corrected static load) is modelled as reading that number back exactly.
- The lookup takes the first child with the key and treats a missing child as empty text. `QDomElementYUView` is not part of this model.
- The destructor's `delete` is memory management. Only its loop is modelled, as a list operation. The children that loop leaves behind are handled by the base tree-widget item's destructor, which is not part of this model.
- `ItemType` has the two values the code tests for, indexed and static.
- source/splitViewWidget.h is not modelled. It only declares a widget: paint and mouse handlers, floating-point split point and zoom, and a `setViewMode` that calls `resetViews`, whose body is not shown.

## Findings

| source | as written | input that shows it | evidently intended | confidence | as-written member | corrected member |
|---|---|---|---|---|---|---|
| source/playlistItem.cpp:122-126 | The static branch stores the duration, then calls `playlistItem::loadPropertiesFromPlaylist(root, newItem)`: the same function with the same arguments. | Any static item, e.g. an element with "id" 0 and "duration" 5 | Store the playlist id and the duration, and return | high; not executed | `PlaylistProperties.StaticLoadNeverReturns` | `PlaylistProperties.StaticRoundTrip` |
