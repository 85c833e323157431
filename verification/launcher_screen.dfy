/** The widget logic shared by the launcher's screens: which widget the
    mouse selects, what a left click does, the Tab key's walk through the
    focusable widgets, and the reuse of widget slots when a screen lays
    itself out again. Drawing is left out; selecting, unselecting,
    clicking and unclicking a widget are recorded as events. */
module LauncherScreen {
  import opened Common
  import opened Utils

  datatype WidgetKind = Button | Label | Boolean | Input | OtherWidget

  /** What a widget object is for its whole life: a unique id, its class,
      and whether it was given an OnClick handler. Comparing two of these
      is comparing the references. */
  datatype WidgetRef = WidgetRef(id: nat, kind: WidgetKind, clickable: bool)

  /** A widget with its current placement. */
  datatype Widget = Widget(ref: WidgetRef, x: int, y: int, width: int, height: int)

  /** The screen's fields; `nextId` numbers the widgets it creates. */
  datatype Screen = Screen(widgets: seq<Option<Widget>>, widgetIndex: nat,
                           selected: Option<WidgetRef>, lastClicked: Option<WidgetRef>,
                           mouseMoved: bool, tabDown: bool, nextId: nat)

  datatype Event =
    | Select(widget: WidgetRef)
    | Unselect(widget: WidgetRef)
    | Click(widget: WidgetRef, x: int, y: int)
    | Unclick(widget: WidgetRef)
    | ResetCaret(widget: WidgetRef)

  /** A screen after an input, the events it caused, and the process-wide
      flag that swallows the very first mouse move. */
  datatype Step = Step(screen: Screen, events: seq<Event>, suppressMove: bool)

  // ---------------------------------------------------------------------
  // Mouse

  /** The half-open hit test. */
  predicate Hits(w: Widget, px: int, py: int)
  {
    w.x <= px < w.x + w.width && w.y <= py < w.y + w.height
  }

  predicate HitAt(widgets: seq<Option<Widget>>, i: int, px: int, py: int)
  {
    0 <= i < |widgets| && widgets[i].Some? && Hits(widgets[i].value, px, py)
  }

  /** The first slot from `start` on, in array order, whose widget is under
      the point. */
  function FirstHitFrom(widgets: seq<Option<Widget>>, start: nat, px: int, py: int): (r: Option<nat>)
    requires start <= |widgets|
    ensures r.Some? ==> start <= r.value && HitAt(widgets, r.value, px, py)
    ensures r.Some? ==> forall i :: start <= i < r.value ==> !HitAt(widgets, i, px, py)
    ensures r.None? ==> forall i :: start <= i < |widgets| ==> !HitAt(widgets, i, px, py)
    decreases |widgets| - start
  {
    if start == |widgets| then None
    else if widgets[start].Some? && Hits(widgets[start].value, px, py) then Some(start)
    else FirstHitFrom(widgets, start + 1, px, py)
  }

  /** The first slot whose widget is under the point. */
  function FirstHit(widgets: seq<Option<Widget>>, px: int, py: int): (r: Option<nat>)
  {
    FirstHitFrom(widgets, 0, px, py)
  }

  /** MouseMove. */
  function MouseMove(s: Screen, suppressMove: bool, px: int, py: int): (r: Step)
    ensures suppressMove ==> r == Step(s, [], false)
    ensures !r.suppressMove
    ensures !suppressMove ==> r.screen == s.(mouseMoved := true, selected := r.screen.selected)
  {
    if suppressMove then Step(s, [], false)
    else
      var s := s.(mouseMoved := true);
      match FirstHit(s.widgets, px, py)
      case Some(i) =>
        var w := s.widgets[i].value.ref;
        if s.selected == Some(w) then Step(s, [], false)
        else
          var unselect := if s.selected.Some? then [Unselect(s.selected.value)] else [];
          Step(s.(selected := Some(w)), unselect + [Select(w)], false)
      case None =>
        if s.selected.None? then Step(s, [], false)
        else Step(s.(selected := None), [Unselect(s.selected.value)], false)
  }

  /** After a move the selection is the first widget under the pointer, or
      nothing; a widget is selected or unselected only when the selection
      changes, and the old selection is unselected before the new one is
      selected. */
  lemma MouseMoveSelects(s: Screen, px: int, py: int)
    ensures var r := MouseMove(s, false, px, py);
            && (match FirstHit(s.widgets, px, py)
                case Some(i) => r.screen.selected == Some(s.widgets[i].value.ref)
                case None => r.screen.selected.None?)
            && (r.events == [] <==> r.screen.selected == s.selected)
            && (r.events != [] && s.selected.Some? ==> r.events[0] == Unselect(s.selected.value))
            && (r.events != [] && r.screen.selected.Some? ==> r.events[|r.events| - 1] == Select(r.screen.selected.value))
  {
  }

  /** Moving to the same point again changes nothing. */
  lemma MouseMoveIdempotent(s: Screen, px: int, py: int)
    ensures var r := MouseMove(s, false, px, py);
            MouseMove(r.screen, false, px, py) == Step(r.screen, [], false)
  {
  }

  datatype MouseButton = Left | Right | Middle

  /** MouseButtonDown. */
  function MouseButtonDown(s: Screen, button: MouseButton, px: int, py: int): (r: (Screen, seq<Event>))
    ensures button != Left ==> r == (s, [])
    ensures button == Left ==> r.0 == s.(lastClicked := s.selected)
    ensures button == Left ==>
              r.1 == (if s.lastClicked.Some? && s.lastClicked != s.selected then [Unclick(s.lastClicked.value)] else [])
                     + (if s.selected.Some? && s.selected.value.clickable then [Click(s.selected.value, px, py)] else [])
  {
    if button != Left then (s, [])
    else
      var unclick := if s.lastClicked.Some? && s.lastClicked != s.selected then [Unclick(s.lastClicked.value)] else [];
      var click := if s.selected.Some? && s.selected.value.clickable then [Click(s.selected.value, px, py)] else [];
      (s.(lastClicked := s.selected), unclick + click)
  }

  /** A second click on the same selection does not unclick it. */
  lemma ClickTwiceNoUnclick(s: Screen, px: int, py: int)
    ensures var first := MouseButtonDown(s, Left, px, py).0;
            forall k :: 0 <= k < |MouseButtonDown(first, Left, px, py).1| ==>
              !MouseButtonDown(first, Left, px, py).1[k].Unclick?
  {
  }

  // ---------------------------------------------------------------------
  // Tab

  predicate Focusable(w: Option<Widget>)
  {
    w.Some? && (w.value.ref.kind == Input || w.value.ref.kind == Button)
  }

  /** Array.IndexOf by reference, -1 when absent. */
  function IndexOf(widgets: seq<Option<Widget>>, w: WidgetRef): (r: int)
    ensures -1 <= r < |widgets|
    ensures r >= 0 ==> widgets[r].Some? && widgets[r].value.ref == w
    ensures r >= 0 ==> forall i :: 0 <= i < r ==> !(widgets[i].Some? && widgets[i].value.ref == w)
    ensures r == -1 ==> forall i :: 0 <= i < |widgets| ==> !(widgets[i].Some? && widgets[i].value.ref == w)
    decreases |widgets|
  {
    if |widgets| == 0 then -1
    else if widgets[0].Some? && widgets[0].value.ref == w then 0
    else
      var r := IndexOf(widgets[1..], w);
      if r == -1 then -1 else r + 1
  }

  /** The slot visited at step j: (j * dir + index) % n in C#, moved into
      range when negative. */
  function ScanSlot(j: int, dir: int, index: int, n: int): (i: int)
    requires n > 0
    ensures 0 <= i < n
  {
    var i := CsRem(j * dir + index, n);
    if i < 0 then i + n else i
  }

  /** The adjusted C# remainder is the mathematical one. */
  lemma ScanSlotIsMod(x: int, n: int)
    requires n > 0
    ensures (if CsRem(x, n) < 0 then CsRem(x, n) + n else CsRem(x, n)) == x % n
  {
    var r := CsRem(x, n);
    var q := CsDiv(x, n);
    assert q * n + r == x;
    var y := if r < 0 then r + n else r;
    var k := if r < 0 then q - 1 else q;
    assert k * n + y == x;
    ModUnique(x, n, k, y);
  }

  lemma ModUnique(x: int, n: int, k: int, y: int)
    requires n > 0 && 0 <= y < n && k * n + y == x
    ensures x % n == y
  {
    var k' := x / n;
    assert k' * n + x % n == x;
    if k < k' {
      MulMonotone(k + 1, k', n);
    } else if k > k' {
      MulMonotone(k' + 1, k, n);
    }
  }

  /** How many steps the scan takes, in direction dir from `index`, to reach
      slot k. */
  function Distance(k: int, dir: int, index: int, n: int): (d: int)
    requires n > 0 && (dir == 1 || dir == -1)
    ensures 0 <= d < n
  {
    if dir == 1 then (k - index) % n else (index - k) % n
  }

  lemma SmallMod(x: int, n: int)
    requires n > 0 && -n <= x < 2 * n
    ensures x < 0 ==> x % n == x + n
    ensures 0 <= x < n ==> x % n == x
    ensures n <= x ==> x % n == x - n
  {
    if x < 0 {
      ModUnique(x, n, -1, x + n);
    } else if x < n {
      ModUnique(x, n, 0, x);
    } else {
      ModUnique(x, n, 1, x - n);
    }
  }

  /** Going Distance(k) steps from `index` arrives at slot k. */
  lemma ScanArrives(k: int, dir: int, index: int, n: int)
    requires n > 0 && (dir == 1 || dir == -1)
    requires 0 <= index < n && 0 <= k < n
    ensures ScanSlot(Distance(k, dir, index, n), dir, index, n) == k
  {
    var d := Distance(k, dir, index, n);
    ScanSlotIsMod(d * dir + index, n);
    if dir == 1 {
      SmallMod(k - index, n);
      SmallMod(d + index, n);
    } else {
      SmallMod(index - k, n);
      SmallMod(index - d, n);
    }
  }

  /** The slot reached after j < n steps is Distance j away, so the first n
      steps visit distinct slots. */
  lemma ScanDistance(j: int, dir: int, index: int, n: int)
    requires n > 0 && (dir == 1 || dir == -1)
    requires 0 <= index < n && 0 <= j < n
    ensures Distance(ScanSlot(j, dir, index, n), dir, index, n) == j
  {
    ScanSlotIsMod(j * dir + index, n);
    var i := ScanSlot(j, dir, index, n);
    if dir == 1 {
      SmallMod(j + index, n);
      SmallMod(i - index, n);
    } else {
      SmallMod(index - j, n);
      SmallMod(index - i, n);
    }
  }

  /** The scan loop of HandleTab: the first focusable slot at steps
      0 .. 2n-1, if any. */
  method TabScan(widgets: seq<Option<Widget>>, index: int, dir: int) returns (found: Option<nat>)
    requires dir == 1 || dir == -1
    requires |widgets| > 0 ==> 0 <= index < |widgets|
    ensures found.None? <==> forall k :: 0 <= k < |widgets| ==> !Focusable(widgets[k])
    ensures found.Some? ==> found.value < |widgets| && Focusable(widgets[found.value])
    ensures found.Some? ==> forall k :: 0 <= k < |widgets| && Focusable(widgets[k]) ==>
                              Distance(found.value, dir, index, |widgets|) <= Distance(k, dir, index, |widgets|)
  {
    var n := |widgets|;
    found := None;
    var j := 0;
    while j < n * 2
      invariant 0 <= j <= 2 * n
      invariant forall j' :: 0 <= j' < j ==> !Focusable(widgets[ScanSlot(j', dir, index, n)])
    {
      var i := ScanSlot(j, dir, index, n);
      if Focusable(widgets[i]) {
        found := Some(i);
        forall k | 0 <= k < n && Focusable(widgets[k])
          ensures Distance(i, dir, index, n) <= Distance(k, dir, index, n)
        {
          ScanArrives(k, dir, index, n);
          if j < n {
            ScanDistance(j, dir, index, n);
          }
        }
        return;
      }
      j := j + 1;
    }
    forall k | 0 <= k < n
      ensures !Focusable(widgets[k])
    {
      ScanArrives(k, dir, index, n);
    }
  }

  /** HandleTab, given whether Shift is held: focus the next (or previous)
      input or button after the last clicked widget, through a synthetic
      mouse move to its centre and, for an input, a left click. */
  method HandleTab(s: Screen, suppressMove: bool, shift: bool) returns (r: Step)
    ensures s.tabDown ==> r == Step(s, [], suppressMove)
    ensures !s.tabDown && (forall k :: 0 <= k < |s.widgets| ==> !Focusable(s.widgets[k])) ==>
              r == Step(s.(tabDown := true), [], suppressMove)
    ensures !s.tabDown && (exists k :: 0 <= k < |s.widgets| && Focusable(s.widgets[k])) ==>
              exists i :: 0 <= i < |s.widgets| && Focusable(s.widgets[i])
                          && FirstInScan(s.widgets, i, TabStart(s, shift), TabDir(shift))
                          && r == Focus(s.(tabDown := true), s.widgets[i].value, suppressMove)
  {
    if s.tabDown {
      return Step(s, [], suppressMove);
    }
    var screen := s.(tabDown := true);
    var index := TabStart(s, shift);
    var dir := TabDir(shift);
    var found := TabScan(s.widgets, index, dir);
    if found.None? {
      return Step(screen, [], suppressMove);
    }
    var i := found.value;
    assert FirstInScan(s.widgets, i, index, dir);
    r := Focus(screen, s.widgets[i].value, suppressMove);
  }

  /** The scan direction: backwards with Shift held. */
  function TabDir(shift: bool): int
  {
    if shift then -1 else 1
  }

  /** The slot the scan starts from: one step past the last clicked widget,
      clamped to the array. */
  function TabStart(s: Screen, shift: bool): int
  {
    var index := if s.lastClicked.None? then -1 else IndexOf(s.widgets, s.lastClicked.value);
    Clamp(index + TabDir(shift), 0, |s.widgets| - 1)
  }

  /** Slot i is the focusable widget the scan from `index` meets first. */
  predicate FirstInScan(widgets: seq<Option<Widget>>, i: int, index: int, dir: int)
    requires dir == 1 || dir == -1
  {
    |widgets| > 0 &&
    forall k :: 0 <= k < |widgets| && Focusable(widgets[k]) ==>
      Distance(i, dir, index, |widgets|) <= Distance(k, dir, index, |widgets|)
  }

  /** The body of HandleTab's loop for the widget found: a mouse move to its
      centre, then it becomes the last clicked widget; an input widget is
      also clicked and its caret reset. */
  function Focus(s: Screen, w: Widget, suppressMove: bool): (r: Step)
    ensures r.screen.widgets == s.widgets && r.screen.tabDown == s.tabDown
    ensures w.ref.kind == Input ==> r.screen.lastClicked == r.screen.selected
    ensures w.ref.kind != Input ==> r.screen.lastClicked == Some(w.ref)
  {
    var cx := w.x + CsDiv(w.width, 2);
    var cy := w.y + CsDiv(w.height, 2);
    var moved := MouseMove(s, suppressMove, cx, cy);
    var screen := moved.screen.(lastClicked := Some(w.ref));
    if w.ref.kind == Input then
      var clicked := MouseButtonDown(screen, Left, cx, cy);
      Step(clicked.0, moved.events + clicked.1 + [ResetCaret(w.ref)], moved.suppressMove)
    else Step(screen, moved.events, moved.suppressMove)
  }

  /** A widget covering its own centre with no earlier widget there: Tab to
      it selects it, and leaves it as the last clicked widget. */
  lemma TabFocusesWidget(s: Screen, w: Widget, i: nat)
    requires i < |s.widgets| && s.widgets[i] == Some(w)
    requires FirstHit(s.widgets, w.x + CsDiv(w.width, 2), w.y + CsDiv(w.height, 2)) == Some(i)
    ensures var moved := MouseMove(s, false, w.x + CsDiv(w.width, 2), w.y + CsDiv(w.height, 2));
            && moved.screen.selected == Some(w.ref)
            && MouseButtonDown(moved.screen.(lastClicked := Some(w.ref)), Left, 0, 0).0.lastClicked == Some(w.ref)
  {
  }

  // ---------------------------------------------------------------------
  // Layout

  /** Make*At: the widget at widgetIndex is reused (it must be of the
      requested class) or created, placed at `placement`, and widgetIndex
      moves on by one. */
  function MakeAt(s: Screen, kind: WidgetKind, clickable: bool, x: int, y: int, width: int, height: int)
    : (r: Result<Screen>)
    ensures r.Ok? <==> s.widgetIndex < |s.widgets| &&
                       (s.widgets[s.widgetIndex].None? || s.widgets[s.widgetIndex].value.ref.kind == kind)
    ensures r.Ok? ==> r.value.widgetIndex == s.widgetIndex + 1
    ensures r.Ok? ==> |r.value.widgets| == |s.widgets|
    ensures r.Ok? ==> forall i :: 0 <= i < |s.widgets| && i != s.widgetIndex ==> r.value.widgets[i] == s.widgets[i]
    ensures r.Ok? ==> var w := r.value.widgets[s.widgetIndex];
                      && w.Some? && w.value.ref.kind == kind
                      && w.value.x == x && w.value.y == y && w.value.width == width && w.value.height == height
    ensures r.Ok? && s.widgets[s.widgetIndex].Some? ==>
              r.value.widgets[s.widgetIndex].value.ref == s.widgets[s.widgetIndex].value.ref
              && r.value.nextId == s.nextId
    ensures r.Ok? && s.widgets[s.widgetIndex].None? ==>
              r.value.widgets[s.widgetIndex].value.ref == WidgetRef(s.nextId, kind, clickable)
              && r.value.nextId == s.nextId + 1
  {
    if s.widgetIndex >= |s.widgets| then Err(IndexOutOfRange)
    else match s.widgets[s.widgetIndex]
      case Some(prev) =>
        if prev.ref.kind != kind then Err(InvalidCast)
        else Ok(s.(widgets := s.widgets[s.widgetIndex := Some(Widget(prev.ref, x, y, width, height))],
                   widgetIndex := s.widgetIndex + 1))
      case None =>
        var w := Widget(WidgetRef(s.nextId, kind, clickable), x, y, width, height);
        Ok(s.(widgets := s.widgets[s.widgetIndex := Some(w)], widgetIndex := s.widgetIndex + 1,
              nextId := s.nextId + 1))
  }

  /** MakeButtonAt, with the placement SetDrawData computes. */
  function MakeButtonAt(s: Screen, onClick: bool, x: int, y: int, width: int, height: int): Result<Screen>
  {
    MakeAt(s, Button, onClick, x, y, width, height)
  }

  /** MakeLabelAt: labels have no click handler. */
  function MakeLabelAt(s: Screen, x: int, y: int, width: int, height: int): Result<Screen>
  {
    MakeAt(s, Label, false, x, y, width, height)
  }

  /** MakeBooleanAt. */
  function MakeBooleanAt(s: Screen, onClick: bool, x: int, y: int, width: int, height: int): Result<Screen>
  {
    MakeAt(s, Boolean, onClick, x, y, width, height)
  }

  /** Laying a screen out a second time, from widgetIndex 0, keeps every
      widget object: the selection and the last clicked widget stay valid. */
  lemma RelayoutKeepsWidget(s: Screen, kind: WidgetKind, clickable: bool, x: int, y: int, width: int, height: int)
    requires s.widgetIndex < |s.widgets| && s.widgets[s.widgetIndex].Some?
    requires s.widgets[s.widgetIndex].value.ref.kind == kind
    ensures MakeAt(s, kind, clickable, x, y, width, height).Ok?
    ensures IndexOf(MakeAt(s, kind, clickable, x, y, width, height).value.widgets, s.widgets[s.widgetIndex].value.ref)
            <= s.widgetIndex
  {
    var r := MakeAt(s, kind, clickable, x, y, width, height).value;
    var w := s.widgets[s.widgetIndex].value.ref;
    assert r.widgets[s.widgetIndex].Some? && r.widgets[s.widgetIndex].value.ref == w;
  }
}
