/**
 * The "more options" pop-up menu (components/MoreOptionsMenu/MoreOptionsMenu.tsx):
 * where it opens relative to its button, and in which order closing the
 * menu and running the edit or delete callback happen.
 */
module MoreOptionsMenu {
  import opened Wrappers

  /** `MENU_HEIGHT`, in layout units; also the horizontal offset of the menu. */
  const MenuHeight: real := 120.0

  /** What `measure` reports of the button: its height and page position. */
  datatype Measurement = Measurement(height: real, pageX: real, pageY: real)

  /** The menu's vertical anchor: above the button when less than a menu height is left below it. */
  function PlaceMenu(m: Measurement, screenHeight: real): (y: real)
    ensures var spaceBelow := screenHeight - (m.pageY + m.height);
      && (spaceBelow < MenuHeight ==> y + MenuHeight == m.pageY)
      && (spaceBelow >= MenuHeight ==> y == m.pageY + m.height && y + MenuHeight <= screenHeight)
  {
    var spaceBelow := screenHeight - (m.pageY + m.height);
    if spaceBelow < MenuHeight then m.pageY - MenuHeight else m.pageY + m.height
  }

  /** Placed below, the menu starts at the button's bottom edge; placed above, it ends at the top edge. */
  lemma PlacementTouchesButton(m: Measurement, screenHeight: real)
    ensures var y := PlaceMenu(m, screenHeight);
      y == m.pageY + m.height || y + MenuHeight == m.pageY
    ensures m.height >= 0.0 && m.pageY + m.height + MenuHeight <= screenHeight ==>
              PlaceMenu(m, screenHeight) >= m.pageY
  {
  }

  /** `left: anchorPosition.x - MENU_HEIGHT`. */
  function MenuLeft(anchorX: real): (x: real)
    ensures x + MenuHeight == anchorX
  {
    anchorX - MenuHeight
  }

  /** What pressing an item sets in motion, in the order it happens. */
  datatype MenuEvent = FadeOutStarted | Hidden | EditCalled | DeleteCalled

  class MenuState {
    var visible: bool
    var anchorX: real
    var anchorY: real

    constructor ()
      ensures !visible && anchorX == 0.0 && anchorY == 0.0
    {
      visible := false;
      anchorX, anchorY := 0.0, 0.0;
    }

    /**
     * `openMenu`: measure the button (when it is mounted) and show the menu.
     * An unmounted button keeps the previous anchor.
     */
    method Open(measured: Option<Measurement>, screenHeight: real)
      modifies this
      ensures visible
      ensures measured.None? ==> anchorX == old(anchorX) && anchorY == old(anchorY)
      ensures measured.Some? ==> anchorX == measured.value.pageX && anchorY == PlaceMenu(measured.value, screenHeight)
    {
      if measured.Some? {
        anchorX := measured.value.pageX;
        anchorY := PlaceMenu(measured.value, screenHeight);
      }
      visible := true;
    }

    /** `closeMenu`: the menu is hidden once the fade-out finishes. */
    method Close() returns (events: seq<MenuEvent>)
      modifies this`visible
      ensures !visible && events == [FadeOutStarted, Hidden]
    {
      events := [FadeOutStarted, Hidden];
      visible := false;
    }

    /** The Edit item: `onEdit` runs only after the fade-out has hidden the menu. */
    method PressEdit(hasOnEdit: bool) returns (events: seq<MenuEvent>)
      modifies this`visible
      ensures !visible
      ensures events == [FadeOutStarted, Hidden] + (if hasOnEdit then [EditCalled] else [])
    {
      events := [FadeOutStarted, Hidden];
      visible := false;
      if hasOnEdit {
        events := events + [EditCalled];
      }
    }

    /** The Delete item: `onDelete` runs at once, before the fade-out ends and hides the menu. */
    method PressDelete(hasOnDelete: bool) returns (events: seq<MenuEvent>)
      modifies this`visible
      ensures !visible
      ensures events == [FadeOutStarted] + (if hasOnDelete then [DeleteCalled] else []) + [Hidden]
    {
      events := [FadeOutStarted];
      if hasOnDelete {
        events := events + [DeleteCalled];
      }
      events := events + [Hidden];
      visible := false;
    }
  }
}
