# SDL window model

A Dafny model of the sequential logic of the SDL back end's window
(`sdl_window_rep` in `src/Plugins/SDL/sdl_window.cpp`), with proofs about it.

- **Messages** (`messages.dfy`): the queue of delayed messages. `insert_message`
  is modelled as the recursive function `InsertMessage`. `delayed_message` is
  `DelayedMessage`, with the current time passed in as a parameter.
- **Geometry** (`geometry.dfy`):
  - the SI unit (`PIXEL = 256` units per pixel);
  - C++ truncating division, `TruncDiv`;
  - the two-step clamp that keeps a window on screen.
- **Regions** (`regions.dfy`): rectangles, the region list and its coverage
  semantics. It also holds the strips a backing-store resize exposes and the
  rectangles the repaint loop keeps.
- **Pixels** (`pixels.dfy`): the un-premultiply loop of `get_backing_store`.
  It is an imperative method that fills a fresh `w * h * 4` byte array.
- **Window** (`window.dfy`): the class `SdlWindow`, whose methods update the
  window's fields in place. Those fields are:
  - geometry, full-screen flag and saved geometry;
  - title and modified title;
  - keyboard focus;
  - invalid regions;
  - backing-store size.

  Calls into SDL and notifications to the editor's widgets are appended, in
  order, to the field `events`.

The window's integers are SI units (1/256 of a pixel) or pixels, as in the
source. Division of SI values by `PIXEL` truncates toward zero, as C++ does.

## Model

| member | source | states |
|---|---|---|
| Messages.InsertMessage | src/Plugins/SDL/sdl_window.cpp:547-553 | the queue grows by exactly one element and contains the new message |
| Messages.InsertionIndex | src/Plugins/SDL/sdl_window.cpp:550-552 | reference position for the new message: every message before it is due strictly earlier, and the message at it is due no earlier |
| Messages.InsertMessageSplits | src/Plugins/SDL/sdl_window.cpp:547-553 | the result is the old queue, in its original order, with the new message at `InsertionIndex`. So the new message goes in front of all equal-delay messages, never after one |
| Messages.InsertMessagePermutation | src/Plugins/SDL/sdl_window.cpp:547-553 | the result is a permutation of the old queue plus the new message |
| Messages.InsertMessageSorted | src/Plugins/SDL/sdl_window.cpp:547-553 | inserting into a queue sorted by delay `t - cur` keeps it sorted |
| Messages.InsertMessageIgnoresCurrentTime | src/Plugins/SDL/sdl_window.cpp:551 | with unbounded integers the comparison `t - cur <= ref - cur` does not depend on `cur`, so neither does the result. This relies on `time_t` never wrapping around (see "Left out") |
| Messages.DelayedMessage | src/Plugins/SDL/sdl_window.cpp:555-559 | queueing a message due `delay` after `now` is the old queue, in its order, with the new message at `InsertionIndex`. The result is a permutation of the old queue plus the new message, and a queue sorted by delay from `now` stays sorted |
| Geometry.TruncDiv | src/Plugins/SDL/sdl_window.cpp:35-37 | C++ `/` of an `SI` value by `PIXEL`: the quotient has the sign of the dividend (the full characterization is `TruncDivBounds`) |
| Geometry.TruncDivNegate | src/Plugins/SDL/sdl_window.cpp:175-176 | C++ truncating division is odd: `(-y)/PIXEL == -(y/PIXEL)` |
| Geometry.TruncDivBounds | src/Plugins/SDL/sdl_window.cpp:35-37 | the truncated quotient has the sign of the dividend and its magnitude is rounded down |
| Geometry.Clamp | src/Plugins/SDL/sdl_window.cpp:43-46 | the clamped coordinate is fixed on every input. It is never negative. A coordinate already on screen is unchanged. A window that fits but hangs off the far edge is pulled back so that its far edge is exactly on the screen edge (`screen - size`). A window larger than the screen goes to 0 |
| Geometry.ClampIdempotent | src/Plugins/SDL/sdl_window.cpp:177-180 | clamping a clamped coordinate changes nothing |
| Window.SdlWindow.constructor | src/Plugins/SDL/sdl_window.cpp:85-100 | the window starts with the default size in pixels, at the clamped origin, named after `n` or "popup"; it records the creation calls and the initial notifications |
| Window.SdlWindow.FitOnScreen | src/Plugins/SDL/sdl_window.cpp:40-46 | a zero width or height becomes the default size; then each coordinate is `Clamp`ed against that size and the screen |
| Window.SdlWindow.Initialize | src/Plugins/SDL/sdl_window.cpp:31-83 | geometry as `FitOnScreen`. A missing name becomes "popup" and the window is created borderless. An empty title takes the name. The backing store is the window size times `retina`. The creation, size-limit and notification events come in source order |
| Window.SdlWindow.SetPosition | src/Plugins/SDL/sdl_window.cpp:173-182 | the position sent to SDL is the truncated pixel position (y negated), clamped on screen |
| Window.SdlWindow.SetName | src/Plugins/SDL/sdl_window.cpp:202-210 | afterwards `theName == n`. The title call and the reset of `modName` happen exactly when the name changed |
| Window.ModifiedTitle | src/Plugins/SDL/sdl_window.cpp:219 | the shown title is the name followed by " *" when modified, and the name itself otherwise |
| Window.TitleChange | src/Plugins/SDL/sdl_window.cpp:220-224 | exactly one title call, `SetWindowTitle(n)`, is issued when the title differs, and none otherwise |
| Window.SdlWindow.SetModified | src/Plugins/SDL/sdl_window.cpp:217-225 | afterwards `modName == ModifiedTitle(theName, flag)`. A title call happens only on change, so a repeated call emits nothing |
| Window.SdlWindow.PositionNotes | src/Plugins/SDL/sdl_window.cpp:278-283 | the two move notifications: `notify_position` for the widget with the SI position, then `notify_window_move` for the window name with y negated (border taken as zero) |
| Window.SdlWindow.MoveChange | src/Plugins/SDL/sdl_window.cpp:272-284 | the position notifications `PositionNotes` are emitted if and only if the position changed, and nothing otherwise |
| Window.SdlWindow.MoveEvent | src/Plugins/SDL/sdl_window.cpp:268-285 | stores the position scaled by `retina` and notifies only on change |
| Window.SdlWindow.SizeNotes | src/Plugins/SDL/sdl_window.cpp:292-293 | the two size notifications: `notify_size` for the widget, then `notify_window_resize` for the window name, both with the size in SI units |
| Window.SdlWindow.SizeChange | src/Plugins/SDL/sdl_window.cpp:289-294 | the size notifications `SizeNotes` are emitted if and only if the size changed, and nothing otherwise |
| Window.SdlWindow.ResizeEvent | src/Plugins/SDL/sdl_window.cpp:287-295 | stores the size and notifies only on change |
| Window.RestoredName | src/Plugins/SDL/sdl_window.cpp:236-238 | the name kept across the switch is the title, or the native name when the title is empty |
| Window.SdlWindow.EnterFullScreen | src/Plugins/SDL/sdl_window.cpp:239-250 | saves the geometry, drops the name and takes the whole screen through the move and resize events |
| Window.SdlWindow.LeaveFullScreen | src/Plugins/SDL/sdl_window.cpp:251-263 | restores the size from the saved geometry. The position becomes the saved one scaled by `retina` |
| Window.SdlWindow.SetFullScreen | src/Plugins/SDL/sdl_window.cpp:233-266 | nothing changes when already in the requested mode. Otherwise: entering saves the geometry and takes the whole screen. Leaving restores the saved size, but the position becomes the saved position times `retina`, as written. The window is renamed after its old name, and afterwards `fullScreen == flag` |
| Window.SdlWindow.InvalidateEvent | src/Plugins/SDL/sdl_window.cpp:307-311 | the rectangle is added to the region list, which is then non-empty |
| Regions.AddRegion | src/Plugins/SDL/sdl_window.cpp:310 | the union keeps the old rectangles, holds the new one and is non-empty |
| Regions.AddRegionCovers | src/Plugins/SDL/sdl_window.cpp:310 | a point is covered after the union if and only if it was covered before or lies in the new rectangle |
| Window.SdlWindow.IsInvalid | src/Plugins/SDL/sdl_window.cpp:574-577 | true if and only if some rectangle is waiting to be repainted |
| Window.SdlWindow.InvalidateAll | src/Plugins/SDL/sdl_window.cpp:579-582 | the whole backing store is added to the region list |
| Regions.ExposedStrips | src/Plugins/SDL/sdl_window.cpp:382-389 | the right strip is added exactly when the width grew, and the bottom strip exactly when the height grew |
| Regions.ExposedStripsCoverNewArea | src/Plugins/SDL/sdl_window.cpp:382-389 | the strips cover exactly the pixels of the new store that were outside the old one |
| Window.SdlWindow.ResizeBackingStore | src/Plugins/SDL/sdl_window.cpp:367-397 | the backing store takes the new size, and the region list gains exactly `ExposedStrips` |
| Regions.Retained | src/Plugins/SDL/sdl_window.cpp:410-425 | reference definition of `new_regions`: the rectangles whose check fired, in reverse order of the prepends. It never holds more rectangles than it was given, and only rectangles it was given |
| Regions.RetainedMembers | src/Plugins/SDL/sdl_window.cpp:410-425 | a rectangle survives the drain if and only if an interrupt check fired while it was being repainted |
| Regions.RetainedNoneFired | src/Plugins/SDL/sdl_window.cpp:410-425 | the drain keeps no rectangle when no interrupt check fired |
| Window.SdlWindow.DrainInvalidRegions | src/Plugins/SDL/sdl_window.cpp:410-425 | the loop leaves exactly `Retained` of the old region list |
| Window.SdlWindow.RepaintInvalidRegions | src/Plugins/SDL/sdl_window.cpp:356-447 | resize, then drain. The screen is presented exactly when some region was pending |
| Window.SdlWindow.SetKeyboardFocus | src/Plugins/SDL/sdl_window.cpp:500-508 | afterwards the focus widget is `wid`. The lose/gain pair is sent only when the window has the focus and the widget changed |
| Window.SdlWindow.GetKeyboardFocus | src/Plugins/SDL/sdl_window.cpp:510-513 | true if and only if the window has the focus and `wid` is its focus widget |
| Window.SdlWindow.FocusInEvent | src/Plugins/SDL/sdl_window.cpp:318-324 | sets `hasFocus` and tells the focus widget it gained the focus |
| Window.SdlWindow.FocusOutEvent | src/Plugins/SDL/sdl_window.cpp:326-331 | clears `hasFocus` and tells the focus widget it lost the focus |
| Pixels.Unpremultiply | src/Plugins/SDL/sdl_window.cpp:468-470 | one colour byte, `c * 255 / a` stored into a byte. For `c <= a` the store loses nothing and the byte is the quotient. A zero alpha gives 0 |
| Pixels.UnpremultipliedAt | src/Plugins/SDL/sdl_window.cpp:467-474 | reference definition of output byte `i`. An alpha byte is copied. Every byte of a zero-alpha pixel is 0. A colour byte with `0 < a` and `c <= a` is `c * 255 / a` |
| Pixels.UnpremultiplyInRange | src/Plugins/SDL/sdl_window.cpp:468-470 | for `c <= a` the byte store loses nothing: the result is `c * 255 / a`, the largest `v` with `v * a <= c * 255` |
| Pixels.AlphaPreserved | src/Plugins/SDL/sdl_window.cpp:471 | every output alpha equals the input alpha |
| Pixels.TransparentPixel | src/Plugins/SDL/sdl_window.cpp:472-474 | a zero-alpha input pixel yields four zero bytes |
| Pixels.ColourChannel | src/Plugins/SDL/sdl_window.cpp:467-470 | a colour byte of a visible premultiplied pixel is `c * 255 / a` |
| Pixels.RowsIsProduct | src/Plugins/SDL/sdl_window.cpp:465-466 | counting the pixels row by row gives `w * h` |
| Pixels.ConvertPixel | src/Plugins/SDL/sdl_window.cpp:467-475 | converting one pixel extends the correctly converted prefix by four bytes |
| Pixels.GetBackingStore | src/Plugins/SDL/sdl_window.cpp:462-477 | a fresh buffer of `w * h * 4` bytes, each byte equal to `UnpremultipliedAt` of the samples |

`LeaveFullScreen` is modelled as written. The fields are set from the saved
geometry before `resize_event` and `move_event` run. So the resize event
reports nothing. The move event multiplies the saved position, which is
already in device pixels, by `retina` once more.

## Left out

- These SDL calls are recorded as an `Event` appended to `events`:
  - `SDL_CreateWindow` (`CreateWindow`);
  - `SDL_SetWindowMaximumSize` and `SDL_SetWindowMinimumSize`;
  - `SDL_SetWindowPosition` and `SDL_SetWindowSize`;
  - `SDL_SetWindowTitle`;
  - `SDL_SetWindowFullscreen` (`SetFullscreen`);
  - `SDL_ShowWindow`, made through `set_visibility (true)`;
  - `SDL_RenderPresent` (`Present`).

  The library's own behaviour is not modelled.
- These SDL calls are not recorded:
  - `SDL_CreateRenderer` (58);
  - `SDL_CreateTextureFromSurface`, `SDL_SetTextureBlendMode` and
    `SDL_DestroyTexture` (430-431, 441);
  - `SDL_RenderClear` and `SDL_RenderCopy` (438-439);
  - `SDL_FreeSurface`.

  `SDL_GetWindowSize` (363) becomes the parameters `sdlW` and `sdlH` of
  `RepaintInvalidRegions`.
- These widget notifications are recorded events: `notify_position`,
  `notify_size`, `notify_window_move`, `notify_window_resize`,
  `notify_keyboard_focus` and `gui->focussed_window`. `gui->created_window`
  (81) and `set_identifier` (77) are not recorded. `send_repaint`,
  `send_mouse`, `send_keyboard` and `send_destroy` are external callbacks and
  are not modelled.
- The renderer (`encode`, `decode`, `outer_round`, `fetch`, `set_clipping`,
  `set_origin`, `picture_renderer`, `native_picture`) is an external
  abstraction. So `invalidate` (565-572), the copy of the old backing store
  and the `thicken` of each repainted rectangle are left out.
- The rectangles library is not part of this model. Its union `|` is
  modelled as appending. `AddRegionCovers` states that the covered points
  agree with a union. Splitting, merging and dropping empty rectangles are
  not modelled.
- The coalescing step of `repaint_invalid_regions` (406-408) is a
  floating-point area heuristic based on `least_upper_bound`; it is left out.
  `RepaintInvalidRegions` therefore drains the list as it stands.
- `gui_interrupted()` is the parameter `interrupted`, indexed by the drain
  iteration. `texmacs_time()` is the parameter `now`. The global message
  queue is the argument and result of `DelayedMessage`.
- The pixmap samples are an input byte sequence with exactly four channels
  per pixel. The MuPDF calls, the surface creation and the disabled
  `memcpy` branch are left out.
- Pixels.GetBackingStore: the width and height are natural numbers. A
  negative height, which the source's countdown loop would not stop on, is
  not modelled.
- Window.SdlWindow.SetKeyboardFocus: the source aborts through `ASSERT`
  when asked to drop the focus. The model returns `false` and changes
  nothing.
- Integers are unbounded: 32-bit overflow of `SI`, `int` and `w * h * 4` is
  not modelled. The byte store of the un-premultiplied value is modelled
  (`% 256`).
- `time_t` is unbounded too, so its wrap-around is not modelled. The source
  compares delays `t - cur` (551), which tolerates a wrapping clock. Two
  results hold only because Dafny integers cannot wrap:
  `InsertMessageIgnoresCurrentTime` (the insertion does not depend on the
  current time), and `DelayedMessage`'s reliance on a queue that stays
  sorted as the current time advances.
- `as_string` of a null name, which happens when leaving full screen with an
  empty title, is read as the empty string. The raw C string handling of
  `name`, `as_charp` and `save_win` becomes the `Option<string>` field
  `name`.
- The saved geometry starts at zero. The source leaves it uninitialised
  until the window first enters full screen.
- `mouse_event`, `key_event`, `destroy_event`, `set_size`,
  `set_size_limits`, `get_size_limits`, `get_name`, `set_visibility` as an
  operation of its own (only its `SDL_ShowWindow` call inside
  `set_full_screen` is recorded),
  `set_mouse_grab`, `set_mouse_pointer` and `translate` (unimplemented) are outside the
  modelled core. So are the global window tables, the window counter,
  serial identifiers and console output.
