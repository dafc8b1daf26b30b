/** One native window of the editor: its geometry on screen, its title, its
    keyboard focus and its list of regions waiting to be repainted. Calls into
    the windowing library and notifications sent to the editor's widgets are
    recorded, in order, in an event log. */
module Window {
  import opened Geometry
  import opened Regions
  import opened Messages

  datatype Option<T> = None | Some(value: T)

  /** What the window tells the outside world. */
  datatype Event =
    | CreateWindow(title: string, x: int, y: int, width: int, height: int, borderless: bool)
    | SetMaximumSize(width: int, height: int)
    | SetMinimumSize(width: int, height: int)
    | SetWindowPosition(x: int, y: int)
    | SetWindowSize(width: int, height: int)
    | SetWindowTitle(title: string)
    | SetFullscreen(on: bool)
    | ShowWindow
    | NotifyPosition(wid: WidgetId, x: int, y: int)
    | NotifySize(wid: WidgetId, width: int, height: int)
    | NotifyWindowMove(name: string, x: int, y: int)
    | NotifyWindowResize(name: string, width: int, height: int)
    | NotifyKeyboardFocus(wid: WidgetId, gained: bool)
    | FocussedWindow
    | Present

  /** The title shown for a window named `name`, marked when modified. */
  function ModifiedTitle(name: string, modified: bool): (title: string)
    ensures |title| >= |name| && title[..|name|] == name
    ensures modified <==> |title| == |name| + 2
    ensures modified ==> title[|name|..] == " *"
    ensures !modified ==> title == name
  {
    if modified then name + " *" else name
  }

  /** The name a window keeps across a full-screen switch: its title, or its
      native name when the title is empty (a missing native name reads as
      the empty string). */
  function RestoredName(theName: string, name: Option<string>): (n: string)
    ensures theName != "" ==> n == theName
    ensures theName == "" && name.Some? ==> n == name.value
  {
    if theName != "" then theName
    else if name.Some? then name.value
    else ""
  }

  /** The title call made when the shown title goes from `before` to `n`. */
  function TitleChange(before: string, n: string): (evs: seq<Event>)
    ensures |evs| <= 1
    ensures evs != [] <==> before != n
    ensures evs != [] ==> evs == [SetWindowTitle(n)]
  {
    if before != n then [SetWindowTitle(n)] else []
  }

  class SdlWindow {
    /** The widget shown in this window. */
    const w: WidgetId
    /** The name the editor knows the window by ("popup" for popups). */
    const origName: string
    /** Default size and size limits, in SI units. */
    const defW: int
    const defH: int
    const minW: int
    const minH: int
    const maxW: int
    const maxH: int
    /** Size of the screen in pixels. */
    const screenWidth: int
    const screenHeight: int
    /** Device pixels per logical pixel. */
    const retina: int

    /** The native window name; None while the window is full screen. */
    var name: Option<string>
    var winX: int
    var winY: int
    var winW: int
    var winH: int
    var fullScreen: bool
    /** Geometry to restore when leaving full screen. */
    var saveX: int
    var saveY: int
    var saveW: int
    var saveH: int
    var theName: string
    var modName: string
    var kbdFocus: WidgetId
    var hasFocus: bool
    var invalidRegions: seq<Rect>
    /** Size of the backing store, in device pixels. */
    var bsW: int
    var bsH: int
    var events: seq<Event>

    /** The notifications for a window now at `(x, y)`; the window border
        is taken as zero, so the move is always forwarded. */
    function PositionNotes(x: int, y: int): (evs: seq<Event>)
      ensures |evs| == 2
      ensures evs[0].NotifyPosition? && evs[0].wid == w && evs[0].x == x * PIXEL && evs[0].y == y * PIXEL
      ensures evs[1].NotifyWindowMove? && evs[1].name == origName && evs[1].x == x * PIXEL && evs[1].y == -y * PIXEL
    {
      [NotifyPosition(w, x * PIXEL, y * PIXEL), NotifyWindowMove(origName, x * PIXEL, -y * PIXEL)]
    }

    /** The notifications for a window now `ww` by `hh`. */
    function SizeNotes(ww: int, hh: int): (evs: seq<Event>)
      ensures |evs| == 2
      ensures evs[0].NotifySize? && evs[0].wid == w && evs[0].width == ww * PIXEL && evs[0].height == hh * PIXEL
      ensures evs[1].NotifyWindowResize? && evs[1].name == origName
      ensures evs[1].width == ww * PIXEL && evs[1].height == hh * PIXEL
    {
      [NotifySize(w, ww * PIXEL, hh * PIXEL), NotifyWindowResize(origName, ww * PIXEL, hh * PIXEL)]
    }

    /** What `move_event` emits when the position goes from `(ox, oy)` to `(x, y)`. */
    function MoveChange(ox: int, oy: int, x: int, y: int): (evs: seq<Event>)
      ensures evs == [] <==> ox == x && oy == y
      ensures evs != [] ==> evs == PositionNotes(x, y)
    {
      if ox != x || oy != y then PositionNotes(x, y) else []
    }

    /** What `resize_event` emits when the size goes from `ow x oh` to `ww x hh`. */
    function SizeChange(ow: int, oh: int, ww: int, hh: int): (evs: seq<Event>)
      ensures evs == [] <==> ow == ww && oh == hh
      ensures evs != [] ==> evs == SizeNotes(ww, hh)
    {
      if ow != ww || oh != hh then SizeNotes(ww, hh) else []
    }

    /** Creates the window for widget `w`; `n` is the native name, None for
        a popup. */
    constructor (w: WidgetId, n: Option<string>, minW: int, minH: int, defW: int, defH: int,
                 maxW: int, maxH: int, screenWidth: int, screenHeight: int, retina: int)
      ensures this.w == w && this.minW == minW && this.minH == minH
      ensures this.defW == defW && this.defH == defH && this.maxW == maxW && this.maxH == maxH
      ensures this.screenWidth == screenWidth && this.screenHeight == screenHeight
      ensures this.retina == retina
      ensures origName == (if n.None? then "popup" else n.value)
      ensures name == Some(origName)
      ensures !fullScreen && !hasFocus && kbdFocus == w
      ensures winW == TruncDiv(defW, PIXEL) && winH == TruncDiv(defH, PIXEL)
      ensures winX == Clamp(0, winW, screenWidth) && winY == Clamp(0, winH, screenHeight)
      ensures theName == origName && modName == origName
      ensures invalidRegions == []
      ensures bsW == winW * retina && bsH == winH * retina
      ensures events == [CreateWindow(origName, winX, winY, winW, winH, n.None?),
                         SetMaximumSize(TruncDiv(maxW, PIXEL), TruncDiv(maxH, PIXEL)),
                         SetMinimumSize(TruncDiv(minW, PIXEL), TruncDiv(minH, PIXEL)),
                         NotifyPosition(w, 0, 0), NotifySize(w, defW, defH)]
    {
      this.w := w;
      this.origName := if n.None? then "popup" else n.value;
      this.minW, this.minH, this.defW, this.defH := minW, minH, defW, defH;
      this.maxW, this.maxH := maxW, maxH;
      this.screenWidth, this.screenHeight := screenWidth, screenHeight;
      this.retina := retina;
      name := n;
      winX, winY := 0, 0;
      winW, winH := TruncDiv(defW, PIXEL), TruncDiv(defH, PIXEL);
      fullScreen := false;
      saveX, saveY, saveW, saveH := 0, 0, 0, 0;
      theName, modName := "", "";
      kbdFocus, hasFocus := w, false;
      invalidRegions := [];
      bsW, bsH := 0, 0;
      events := [];
      new;
      Initialize();
    }

    /** Fixes up the geometry before the native window is created: a zero
        size becomes the default size, then the window is pulled onto the
        screen. */
    method FitOnScreen()
      modifies this`winX, this`winY, this`winW, this`winH
      ensures winW == (if old(winW) == 0 then TruncDiv(defW, PIXEL) else old(winW))
      ensures winH == (if old(winH) == 0 then TruncDiv(defH, PIXEL) else old(winH))
      ensures winX == Clamp(old(winX), winW, screenWidth)
      ensures winY == Clamp(old(winY), winH, screenHeight)
    {
      if winW == 0 { winW := TruncDiv(defW, PIXEL); }
      if winH == 0 { winH := TruncDiv(defH, PIXEL); }
      if winX + winW > screenWidth { winX := screenWidth - winW; }
      if winX < 0 { winX := 0; }
      if winY + winH > screenHeight { winY := screenHeight - winH; }
      if winY < 0 { winY := 0; }
    }

    /** Fits the window on screen, creates the native window (borderless
        and named "popup" when it has no name), names it when it has no
        title yet, and sizes the backing store. */
    method Initialize()
      modifies this`fullScreen, this`winX, this`winY, this`winW, this`winH, this`name
      modifies this`theName, this`modName, this`bsW, this`bsH, this`events
      ensures !fullScreen
      ensures winW == (if old(winW) == 0 then TruncDiv(defW, PIXEL) else old(winW))
      ensures winH == (if old(winH) == 0 then TruncDiv(defH, PIXEL) else old(winH))
      ensures winX == Clamp(old(winX), winW, screenWidth)
      ensures winY == Clamp(old(winY), winH, screenHeight)
      ensures name == Some(if old(name).None? then "popup" else old(name).value)
      ensures old(theName) == "" ==> theName == name.value && modName == name.value
      ensures old(theName) != "" ==> theName == old(theName) && modName == old(modName)
      ensures bsW == winW * retina && bsH == winH * retina
      ensures events == old(events) + [CreateWindow(name.value, winX, winY, winW, winH, old(name).None?),
                                       SetMaximumSize(TruncDiv(maxW, PIXEL), TruncDiv(maxH, PIXEL)),
                                       SetMinimumSize(TruncDiv(minW, PIXEL), TruncDiv(minH, PIXEL)),
                                       NotifyPosition(w, 0, 0), NotifySize(w, defW, defH)]
    {
      fullScreen := false;
      FitOnScreen();
      var borderless := name.None?;
      if borderless { name := Some("popup"); }
      var created := CreateWindow(name.value, winX, winY, winW, winH, borderless);
      if theName == "" {
        theName := name.value;
        modName := name.value;
      }
      bsW, bsH := winW * retina, winH * retina;
      events := events + [created,
                          SetMaximumSize(TruncDiv(maxW, PIXEL), TruncDiv(maxH, PIXEL)),
                          SetMinimumSize(TruncDiv(minW, PIXEL), TruncDiv(minH, PIXEL)),
                          NotifyPosition(w, 0, 0), NotifySize(w, defW, defH)];
    }

    /** Asks the windowing library to move the window to `(x, y)`, given in
        SI units with y pointing up; the pixel position is kept on screen.
        The window's own geometry is only updated by the move event that
        follows. */
    method SetPosition(x: int, y: int)
      modifies this`events
      ensures events == old(events) + [SetWindowPosition(Clamp(TruncDiv(x, PIXEL), winW, screenWidth),
                                                         Clamp(TruncDiv(-y, PIXEL), winH, screenHeight))]
    {
      var px := Clamp(TruncDiv(x, PIXEL), winW, screenWidth);
      var py := Clamp(TruncDiv(-y, PIXEL), winH, screenHeight);
      events := events + [SetWindowPosition(px, py)];
    }

    /** Renames the window; the title is only touched when the name changes. */
    method SetName(n: string)
      modifies this`theName, this`modName, this`events
      ensures theName == n
      ensures modName == (if old(theName) != n then n else old(modName))
      ensures events == old(events) + TitleChange(old(theName), n)
    {
      if theName != n {
        events := events + [SetWindowTitle(n)];
        theName := n;
        modName := n;
      }
    }

    /** Marks the title as modified or not; the title is only touched when
        the shown title changes, so a repeated call does nothing. */
    method SetModified(flag: bool)
      modifies this`modName, this`events
      ensures modName == ModifiedTitle(theName, flag)
      ensures events == old(events) + TitleChange(old(modName), ModifiedTitle(theName, flag))
      ensures old(modName) == ModifiedTitle(theName, flag) ==> events == old(events)
    {
      var title := if flag then theName + " *" else theName;
      if modName != title {
        events := events + [SetWindowTitle(title)];
        modName := title;
      }
    }

    /** The window moved to `(x, y)` in logical pixels: store the position in
        device pixels and tell the widget if it changed. */
    method MoveEvent(x: int, y: int)
      modifies this`winX, this`winY, this`events
      ensures winX == x * retina && winY == y * retina
      ensures events == old(events) + MoveChange(old(winX), old(winY), winX, winY)
    {
      var sx := x * retina;
      var sy := y * retina;
      var moved := winX != sx || winY != sy;
      winX, winY := sx, sy;
      if moved {
        events := events + PositionNotes(winX, winY);
      }
    }

    /** The window was resized to `ww x hh`: store the size and tell the
        widget if it changed. */
    method ResizeEvent(ww: int, hh: int)
      modifies this`winW, this`winH, this`events
      ensures winW == ww && winH == hh
      ensures events == old(events) + SizeChange(old(winW), old(winH), ww, hh)
    {
      var resized := winW != ww || winH != hh;
      winW, winH := ww, hh;
      if resized {
        events := events + SizeNotes(winW, winH);
      }
    }

    /** The full-screen branch of `SetFullScreen`: save the geometry, switch
        the native window, and take the whole screen through the move and
        resize events. */
    method EnterFullScreen()
      modifies this`winX, this`winY, this`winW, this`winH, this`saveX, this`saveY, this`saveW, this`saveH
      modifies this`name, this`events
      ensures saveX == old(winX) && saveY == old(winY) && saveW == old(winW) && saveH == old(winH)
      ensures winX == 0 && winY == 0 && winW == screenWidth && winH == screenHeight
      ensures name == None
      ensures events == old(events) + [SetFullscreen(true)]
                        + MoveChange(old(winX), old(winY), 0, 0)
                        + SizeChange(old(winW), old(winH), screenWidth, screenHeight)
                        + [ShowWindow]
    {
      name := None;
      saveX, saveY := winX, winY;
      saveW, saveH := winW, winH;
      events := events + [SetFullscreen(true)];
      MoveEvent(0, 0);
      ResizeEvent(screenWidth, screenHeight);
      events := events + [ShowWindow];
    }

    /** The windowed branch of `SetFullScreen`: switch the native window
        back, put the saved geometry back into the fields and ask the library
        for it, then replay it through the resize and move events. The fields
        already hold the saved size, so the resize event reports nothing; the
        move event scales the saved position by `retina` once more. */
    method LeaveFullScreen(restored: string)
      modifies this`winX, this`winY, this`winW, this`winH, this`name, this`events
      ensures winX == saveX * retina && winY == saveY * retina
      ensures winW == saveW && winH == saveH
      ensures name == Some(restored)
      ensures events == old(events) + [SetFullscreen(false), ShowWindow,
                                       SetWindowPosition(saveX, saveY), SetWindowSize(saveW, saveH)]
                        + MoveChange(saveX, saveY, saveX * retina, saveY * retina)
    {
      events := events + [SetFullscreen(false)];
      name := Some(restored);
      winX, winY := saveX, saveY;
      winW, winH := saveW, saveH;
      events := events + [ShowWindow, SetWindowPosition(saveX, saveY), SetWindowSize(saveW, saveH)];
      ResizeEvent(saveW, saveH);
      MoveEvent(saveX, saveY);
    }

    /** Switches full screen on or off; nothing happens when the window is
        already in the requested mode. Either way the window ends up named
        after its previous name. */
    method SetFullScreen(flag: bool)
      modifies this`winX, this`winY, this`winW, this`winH, this`saveX, this`saveY, this`saveW, this`saveH
      modifies this`name, this`theName, this`modName, this`fullScreen, this`events
      ensures fullScreen == flag
      ensures old(fullScreen) == flag ==> unchanged(this)
      ensures flag && !old(fullScreen) ==>
        && saveX == old(winX) && saveY == old(winY) && saveW == old(winW) && saveH == old(winH)
        && winX == 0 && winY == 0 && winW == screenWidth && winH == screenHeight
        && name == None
        && events == old(events) + [SetFullscreen(true)]
                     + MoveChange(old(winX), old(winY), 0, 0)
                     + SizeChange(old(winW), old(winH), screenWidth, screenHeight)
                     + [ShowWindow]
                     + TitleChange(old(theName), RestoredName(old(theName), old(name)))
      ensures !flag && old(fullScreen) ==>
        && saveX == old(saveX) && saveY == old(saveY) && saveW == old(saveW) && saveH == old(saveH)
        && winX == old(saveX) * retina && winY == old(saveY) * retina
        && winW == old(saveW) && winH == old(saveH)
        && name == Some(RestoredName(old(theName), old(name)))
        && events == old(events) + [SetFullscreen(false), ShowWindow,
                                    SetWindowPosition(old(saveX), old(saveY)),
                                    SetWindowSize(old(saveW), old(saveH))]
                     + MoveChange(old(saveX), old(saveY), old(saveX) * retina, old(saveY) * retina)
                     + TitleChange(old(theName), RestoredName(old(theName), old(name)))
      ensures old(fullScreen) != flag ==>
        && theName == RestoredName(old(theName), old(name))
        && modName == (if old(theName) != theName then theName else old(modName))
    {
      if fullScreen == flag {
        return;
      }
      var oldName := theName;
      if oldName == "" {
        oldName := if name.Some? then name.value else "";
      }
      if flag {
        EnterFullScreen();
      } else {
        LeaveFullScreen(oldName);
      }
      SetName(oldName);
      fullScreen := flag;
    }

    /** Marks the rectangle `[x1, x2) x [y1, y2)` for repainting. */
    method InvalidateEvent(x1: int, y1: int, x2: int, y2: int)
      modifies this`invalidRegions
      ensures invalidRegions == AddRegion(old(invalidRegions), Rect(x1, y1, x2, y2))
      ensures invalidRegions != []
    {
      invalidRegions := AddRegion(invalidRegions, Rect(x1, y1, x2, y2));
    }

    /** Marks the whole backing store for repainting. */
    method InvalidateAll()
      modifies this`invalidRegions
      ensures invalidRegions == AddRegion(old(invalidRegions), Rect(0, 0, bsW, bsH))
    {
      InvalidateEvent(0, 0, bsW, bsH);
    }

    /** Whether some region is waiting to be repainted. */
    method IsInvalid() returns (b: bool)
      ensures b <==> invalidRegions != []
      ensures b <==> exists r :: r in invalidRegions
    {
      b := invalidRegions != [];
      if b {
        assert invalidRegions[0] in invalidRegions;
      }
    }

    /** Brings the backing store to the window's current size `sdlW x sdlH`
        (in logical pixels), invalidating what a growth exposes, then
        repaints every invalid region. The `i`-th repaint is followed by the
        `i`-th interrupt check, `interrupted(i)`; the regions whose check
        fired stay invalid for the next round. The result goes to the screen
        when anything was repainted. */
    method RepaintInvalidRegions(sdlW: int, sdlH: int, interrupted: nat -> bool)
      modifies this`bsW, this`bsH, this`invalidRegions, this`events
      ensures bsW == sdlW * retina && bsH == sdlH * retina
      ensures var pending := old(invalidRegions) + ExposedStrips(old(bsW), old(bsH), bsW, bsH);
        && invalidRegions == Retained(pending, interrupted)
        && events == old(events) + (if pending != [] then [Present] else [])
    {
      ResizeBackingStore(sdlW * retina, sdlH * retina);
      if invalidRegions != [] {
        DrainInvalidRegions(interrupted);
        events := events + [Present];
      }
    }

    /** Resizes the backing store to `newW x newH` pixels, marking the
        newly exposed strips invalid. */
    method ResizeBackingStore(newW: int, newH: int)
      modifies this`bsW, this`bsH, this`invalidRegions
      ensures bsW == newW && bsH == newH
      ensures invalidRegions == old(invalidRegions) + ExposedStrips(old(bsW), old(bsH), newW, newH)
    {
      if newW != bsW || newH != bsH {
        if newW > bsW {
          invalidRegions := AddRegion(invalidRegions, Rect(bsW, 0, newW, newH));
        }
        if newH > bsH {
          invalidRegions := AddRegion(invalidRegions, Rect(0, bsH, newW, newH));
        }
        bsW, bsH := newW, newH;
      }
    }

    /** Repaints the invalid rectangles front to back; the `i`-th one stays
        invalid when the `i`-th interrupt check fires. */
    method DrainInvalidRegions(interrupted: nat -> bool)
      modifies this`invalidRegions
      ensures invalidRegions == Retained(old(invalidRegions), interrupted)
    {
      ghost var pending := invalidRegions;
      var kept: seq<Rect> := [];
      var i := 0;
      while invalidRegions != []
        invariant 0 <= i <= |pending| && invalidRegions == pending[i..]
        invariant kept == Retained(pending[..i], interrupted)
      {
        assert pending[..i + 1][..i] == pending[..i];
        if interrupted(i) {
          kept := [invalidRegions[0]] + kept;
        }
        invalidRegions := invalidRegions[1..];
        i := i + 1;
      }
      assert pending[..i] == pending;
      invalidRegions := kept;
    }

    /** Gives the keyboard focus to `wid`. Only gaining focus is supported:
        asking to lose it fails and changes nothing. The widgets are told
        about the switch only while the window itself has the focus. */
    method SetKeyboardFocus(wid: WidgetId, getFocus: bool) returns (ok: bool)
      modifies this`kbdFocus, this`events
      ensures ok == getFocus
      ensures !ok ==> kbdFocus == old(kbdFocus) && events == old(events)
      ensures ok ==> kbdFocus == wid
      ensures ok && hasFocus && old(kbdFocus) != wid ==>
        events == old(events) + [NotifyKeyboardFocus(old(kbdFocus), false), NotifyKeyboardFocus(wid, true)]
      ensures ok && !(hasFocus && old(kbdFocus) != wid) ==> events == old(events)
    {
      if !getFocus {
        return false;
      }
      if hasFocus && kbdFocus != wid {
        events := events + [NotifyKeyboardFocus(kbdFocus, false), NotifyKeyboardFocus(wid, true)];
      }
      kbdFocus := wid;
      ok := true;
    }

    /** Whether `wid` has the keyboard focus: it must be the focus widget of
        this window and the window must have the focus. */
    method GetKeyboardFocus(wid: WidgetId) returns (b: bool)
      ensures b <==> hasFocus && kbdFocus == wid
    {
      b := hasFocus && kbdFocus == wid;
    }

    /** The window gained the focus. */
    method FocusInEvent()
      modifies this`hasFocus, this`events
      ensures hasFocus
      ensures events == old(events) + [NotifyKeyboardFocus(kbdFocus, true), FocussedWindow]
    {
      hasFocus := true;
      events := events + [NotifyKeyboardFocus(kbdFocus, true), FocussedWindow];
    }

    /** The window lost the focus. */
    method FocusOutEvent()
      modifies this`hasFocus, this`events
      ensures !hasFocus
      ensures events == old(events) + [NotifyKeyboardFocus(kbdFocus, false)]
    {
      hasFocus := false;
      events := events + [NotifyKeyboardFocus(kbdFocus, false)];
    }
  }
}
