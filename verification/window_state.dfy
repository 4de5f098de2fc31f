/** Restoring the window's geometry from the previous session
    (`getWindowState` in src/main.js).

    Reading the state file and parsing its JSON happen outside the model:
    their outcome arrives as `Option<Rect>`, `None` standing for a missing
    or unreadable file, malformed JSON, or a value whose fields cannot be
    read. The attached displays arrive as the sequence of their bounds. */
module WindowState {
  import opened Options

  /** A rectangle in screen pixels: the saved window bounds and each
      display's bounds have this shape. */
  datatype Rect = Rect(x: int, y: int, width: int, height: int)

  /** The geometry handed to the new window. A position is given only when
      the saved bounds are reused; the default leaves placement to the
      window system. */
  datatype Geometry = Geometry(x: Option<int>, y: Option<int>, width: int, height: int)

  const DefaultWidth: int := 1280
  const DefaultHeight: int := 800

  /** `{ width: 1280, height: 800 }`: a size and no position. */
  const Default: Geometry := Geometry(None, None, DefaultWidth, DefaultHeight)

  /** The saved bounds, reused as they are. */
  function Saved(s: Rect): Geometry {
    Geometry(Some(s.x), Some(s.y), s.width, s.height)
  }

  /** `s` lies entirely within display bounds `d`: containment, not mere
      overlap, so a window partly off the display is not on it. */
  predicate Within(s: Rect, d: Rect) {
    s.x >= d.x && s.y >= d.y &&
    s.x + s.width <= d.x + d.width &&
    s.y + s.height <= d.y + d.height
  }

  /** `displays.some(...)`: some display contains `s`. */
  function OnSomeDisplay(s: Rect, displays: seq<Rect>): (r: bool)
    ensures r <==> exists i :: 0 <= i < |displays| && Within(s, displays[i])
  {
    if |displays| == 0 then
      false
    else if Within(s, displays[0]) then
      true
    else
      var r := OnSomeDisplay(s, displays[1..]);
      assert forall i :: 1 <= i < |displays| ==> displays[i] == displays[1..][i - 1];
      r
  }

  /** `getWindowState()`: the saved bounds when they were read and lie on
      a display, otherwise the default size with no position. */
  function GetWindowState(stored: Option<Rect>, displays: seq<Rect>): (g: Geometry)
    ensures g == Default || (stored.Some? && g == Saved(stored.value))
    ensures stored.Some? ==>
      (g == Saved(stored.value) <==> exists i :: 0 <= i < |displays| && Within(stored.value, displays[i]))
    ensures stored.None? ==> g == Default
    ensures |displays| == 0 ==> g == Default
  {
    match stored
    case None => Default
    case Some(s) => if OnSomeDisplay(s, displays) then Saved(s) else Default
  }

  /** Whatever position the window is given lies, together with its size,
      within one of the displays. */
  lemma PlacedOnScreen(stored: Option<Rect>, displays: seq<Rect>)
    ensures var g := GetWindowState(stored, displays);
      g.x.Some? ==>
        && g.y.Some?
        && exists i :: 0 <= i < |displays| && Within(Rect(g.x.value, g.y.value, g.width, g.height), displays[i])
  {
  }

  /** Bounds written on close (all four fields) and read back while some
      display still contains them come back unchanged. */
  lemma SaveRestoreRoundTrip(bounds: Rect, displays: seq<Rect>, i: int)
    requires 0 <= i < |displays| && Within(bounds, displays[i])
    ensures var g := GetWindowState(Some(bounds), displays);
      g.x == Some(bounds.x) && g.y == Some(bounds.y) &&
      g.width == bounds.width && g.height == bounds.height
  {
  }

  /** Attaching more displays never discards bounds that were accepted. */
  lemma MoreDisplaysKeepAcceptance(stored: Option<Rect>, displays: seq<Rect>, extra: seq<Rect>)
    requires GetWindowState(stored, displays) != Default
    ensures GetWindowState(stored, displays + extra) == GetWindowState(stored, displays)
  {
    var i :| 0 <= i < |displays| && Within(stored.value, displays[i]);
    assert (displays + extra)[i] == displays[i];
  }

  /** Only which displays are attached matters, not the order in which
      they are listed nor how often one is repeated. */
  lemma DisplayOrderIrrelevant(stored: Option<Rect>, a: seq<Rect>, b: seq<Rect>)
    requires forall d :: d in a <==> d in b
    ensures GetWindowState(stored, a) == GetWindowState(stored, b)
  {
    if stored.Some? {
      var s := stored.value;
      if exists i :: 0 <= i < |a| && Within(s, a[i]) {
        var i :| 0 <= i < |a| && Within(s, a[i]);
        assert a[i] in b;
      }
      if exists i :: 0 <= i < |b| && Within(s, b[i]) {
        var i :| 0 <= i < |b| && Within(s, b[i]);
        assert b[i] in a;
      }
    }
  }

  /** Bounds that hang over a display's edge by a single pixel are
      rejected, even when most of the window is visible. */
  lemma PartialOverlapRejected()
    ensures GetWindowState(Some(Rect(1, 0, 1920, 1080)), [Rect(0, 0, 1920, 1080)]) == Default
    ensures GetWindowState(Some(Rect(0, 0, 1920, 1080)), [Rect(0, 0, 1920, 1080)]) == Saved(Rect(0, 0, 1920, 1080))
  {
  }
}
