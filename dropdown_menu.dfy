/**
 * The dropdown-menu primitive: the open state of a menu and of a sub-menu
 * (controlled by an `open` prop or kept internally), the trigger that
 * toggles it, the content that closes on Escape or an outside click, and
 * the click handlers of plain, checkbox and radio items.
 *
 * What the menu hands to the handlers its user supplied is recorded, in
 * order, as a list of notices; a handler that was not supplied simply
 * ignores its notice.
 */
module DropdownMenu {
  import opened Wrappers

  // ---------------------------------------------------------------------
  // Open state, shared by DropdownMenu and DropdownMenuSub
  // ---------------------------------------------------------------------

  /** The `open` prop and the internal `useState` behind `isOpen`. */
  datatype OpenState = OpenState(controlled: Option<bool>, internal: bool) {
    /** `open !== undefined ? open : internalOpen` */
    predicate IsOpen() {
      if controlled.Some? then controlled.value else internal
    }

    /** The state part of `setIsOpen(newOpen)`: only an uncontrolled state changes. */
    function Set(newOpen: bool): (s: OpenState)
      ensures s.controlled == controlled
      ensures s.IsOpen() == if controlled.Some? then controlled.value else newOpen
      ensures s.internal == if controlled.Some? then internal else newOpen
    {
      if controlled.None? then OpenState(controlled, newOpen) else this
    }

    /** A run of `setIsOpen` calls, in order. */
    function SetAll(requests: seq<bool>): OpenState
      decreases |requests|
    {
      if requests == [] then this else Set(requests[0]).SetAll(requests[1..])
    }
  }

  /** After a run of requests an uncontrolled state is open iff the last request was to open; a controlled one is its prop. */
  lemma {:induction false} OpenFollowsLastRequest(s: OpenState, requests: seq<bool>)
    requires requests != []
    decreases |requests|
    ensures s.SetAll(requests).controlled == s.controlled
    ensures s.SetAll(requests).IsOpen()
         == if s.controlled.Some? then s.controlled.value else requests[|requests| - 1]
  {
    if |requests| > 1 {
      OpenFollowsLastRequest(s.Set(requests[0]), requests[1..]);
      assert requests[1..][|requests[1..]| - 1] == requests[|requests| - 1];
    }
  }

  // ---------------------------------------------------------------------
  // DropdownMenu
  // ---------------------------------------------------------------------

  /** What a menu passes to its user's handlers. */
  datatype Notice =
    | OpenChange(open: bool)           // onOpenChange of the menu
    | Clicked                          // onClick of the trigger or of an item
    | CheckedChange(checked: bool)     // onCheckedChange of a checkbox item
    | RadioValueChange(value: string)  // onValueChange of the enclosing radio group

  /** A mounted `DropdownMenu`, as a value. */
  datatype MenuModel = MenuModel(open: OpenState, closeOnSelect: bool, notices: seq<Notice>) {
    predicate IsOpen() {
      open.IsOpen()
    }
  }

  const OutsideMenuMessage: string := "Dropdown components must be used within DropdownMenu"

  /** `useDropdown()`: outside a `DropdownMenu` there is no context and the hook throws. */
  function UseDropdown(context: Option<MenuModel>): (r: Result<MenuModel, string>)
    ensures r.Failure? <==> context.None?
    ensures r.Failure? ==> r.error == OutsideMenuMessage
    ensures r.Success? ==> r.value == context.value
  {
    if context.None? then Failure(OutsideMenuMessage) else Success(context.value)
  }

  /** `DropdownMenu({ open, defaultOpen = false, closeOnSelect = true })` on first render. */
  function InitialMenu(open: Option<bool>, defaultOpen: Option<bool>, closeOnSelect: Option<bool>): (m: MenuModel)
    ensures m.notices == []
    ensures m.open == OpenState(open, defaultOpen.GetOr(false))
    ensures m.IsOpen() == if open.Some? then open.value else defaultOpen == Some(true)
    ensures m.closeOnSelect <==> closeOnSelect != Some(false)
  {
    MenuModel(OpenState(open, defaultOpen.GetOr(false)), closeOnSelect.GetOr(true), [])
  }

  /** `setIsOpen(newOpen)`: the internal state follows when uncontrolled, and `onOpenChange` always hears of it. */
  function RequestOpen(m: MenuModel, newOpen: bool): (m': MenuModel)
    ensures m'.open == m.open.Set(newOpen) && m'.closeOnSelect == m.closeOnSelect
    ensures m'.notices == m.notices + [OpenChange(newOpen)]
  {
    MenuModel(m.open.Set(newOpen), m.closeOnSelect, m.notices + [OpenChange(newOpen)])
  }

  /** `DropdownMenuTrigger`'s `handleClick`: ask for the opposite of the current state, then `onClick`. */
  function TriggerClick(m: MenuModel): (m': MenuModel)
    ensures m'.notices == m.notices + [OpenChange(!m.IsOpen()), Clicked]
    ensures m'.open == m.open.Set(!m.IsOpen()) && m'.closeOnSelect == m.closeOnSelect
    ensures m.open.controlled.None? ==> m'.IsOpen() == !m.IsOpen()
    ensures m.open.controlled.Some? ==> m'.open == m.open
  {
    var m1 := RequestOpen(m, !m.IsOpen());
    m1.(notices := m1.notices + [Clicked])
  }

  /** Two trigger clicks leave the open state as it was, controlled or not. */
  lemma TriggerTwiceRestores(m: MenuModel)
    ensures TriggerClick(TriggerClick(m)).IsOpen() == m.IsOpen()
    ensures TriggerClick(TriggerClick(m)).notices
         == m.notices + [OpenChange(!m.IsOpen()), Clicked, OpenChange(!TriggerClick(m).IsOpen()), Clicked]
  {
  }

  /** The document `keydown` listener, installed only while the menu is open: Escape asks to close. */
  function DocumentKeyDown(m: MenuModel, key: string): (m': MenuModel)
    ensures !m.IsOpen() || key != "Escape" ==> m' == m
    ensures m.IsOpen() && key == "Escape" ==> m' == RequestOpen(m, false)
  {
    if m.IsOpen() && key == "Escape" then RequestOpen(m, false) else m
  }

  /**
   * The document `mousedown` listener, installed only while the menu is
   * open: a press outside the mounted content asks to close.
   */
  function DocumentMouseDown(m: MenuModel, contentMounted: bool, insideContent: bool): (m': MenuModel)
    ensures m' == m || m' == RequestOpen(m, false)
    ensures m' != m <==> m.IsOpen() && contentMounted && !insideContent
  {
    if m.IsOpen() && contentMounted && !insideContent then RequestOpen(m, false) else m
  }

  /** An uncontrolled open menu is closed by Escape; a closed menu ignores every key. */
  lemma EscapeCloses(m: MenuModel, key: string)
    ensures m.IsOpen() && m.open.controlled.None? && key == "Escape" ==> !DocumentKeyDown(m, key).IsOpen()
    ensures !m.IsOpen() ==> DocumentKeyDown(m, key) == m
  {
  }

  /**
   * Pressing the trigger of an open, uncontrolled menu: the document
   * `mousedown` listener sees a press outside the content and closes the
   * menu, and the trigger's click that follows asks for the opposite of the
   * now-closed state, so the menu ends up open again.
   */
  lemma TriggerPressReopens(m: MenuModel)
    requires m.IsOpen() && m.open.controlled.None?
    ensures var pressed := DocumentMouseDown(m, true, false);
      !pressed.IsOpen() && TriggerClick(pressed).IsOpen()
    ensures TriggerClick(DocumentMouseDown(m, true, false)).notices
         == m.notices + [OpenChange(false), OpenChange(true), Clicked]
  {
  }

  /** `DropdownMenuContent` renders its children only while open and after the portal has mounted. */
  predicate ContentRendered(m: MenuModel, portalMounted: bool) {
    m.IsOpen() && portalMounted
  }

  /** Which side of the trigger the content opens on. */
  datatype Side = Top | Right | Bottom | Left

  /** The `marginTop` and `marginLeft` of the content for a side and `sideOffset`. */
  function Margins(side: Side, sideOffset: int): (r: (int, int))
    ensures r.0 == 0 || r.1 == 0
    ensures (side == Top || side == Bottom) ==> r.1 == 0 && (r.0 == sideOffset || r.0 == -sideOffset)
    ensures (side == Left || side == Right) ==> r.0 == 0 && (r.1 == sideOffset || r.1 == -sideOffset)
  {
    (if side == Bottom then sideOffset else if side == Top then -sideOffset else 0,
     if side == Right then sideOffset else if side == Left then -sideOffset else 0)
  }

  /**
   * The content moves away from the trigger by `sideOffset`: down for Bottom
   * and right for Right, up for Top and left for Left.
   */
  lemma MarginsPointAway(sideOffset: int)
    ensures Margins(Bottom, sideOffset).0 == sideOffset && Margins(Top, sideOffset).0 == -sideOffset
    ensures Margins(Right, sideOffset).1 == sideOffset && Margins(Left, sideOffset).1 == -sideOffset
  {
  }

  /** `DropdownMenuItem`'s `handleClick`. */
  function ItemClick(m: MenuModel, disabled: bool): (m': MenuModel)
    ensures disabled ==> m' == m
    ensures !disabled ==> m'.notices == m.notices + [Clicked] + (if m.closeOnSelect then [OpenChange(false)] else [])
    ensures !disabled ==> m'.open == (if m.closeOnSelect then m.open.Set(false) else m.open)
    ensures m'.closeOnSelect == m.closeOnSelect
  {
    if disabled then m
    else
      var m1 := m.(notices := m.notices + [Clicked]);
      if m.closeOnSelect then RequestOpen(m1, false) else m1
  }

  /**
   * `DropdownMenuItem`'s `onKeyDown`: Enter and Space act as a click and
   * cancel the browser default (the Boolean), even on a disabled item.
   */
  function ItemKeyDown(m: MenuModel, disabled: bool, key: string): (r: (MenuModel, bool))
    ensures r.1 <==> key == "Enter" || key == " "
    ensures r.1 ==> r.0 == ItemClick(m, disabled)
    ensures !r.1 ==> r.0 == m
  {
    if key == "Enter" || key == " " then (ItemClick(m, disabled), true) else (m, false)
  }

  /** `DropdownMenuCheckboxItem`'s `handleClick`, with whether it calls `preventDefault` on the event. */
  function CheckboxItemClick(m: MenuModel, disabled: bool, checked: bool): (r: (MenuModel, bool))
    ensures r.0.open == m.open && r.0.closeOnSelect == m.closeOnSelect
    ensures disabled ==> r == (m, false)
    ensures !disabled ==> r.0.notices == m.notices + [CheckedChange(!checked), Clicked]
    ensures r.1 <==> !disabled && !m.closeOnSelect
  {
    if disabled then (m, false)
    else (m.(notices := m.notices + [CheckedChange(!checked), Clicked]), !m.closeOnSelect)
  }

  /** The value and `onValueChange` of an enclosing `DropdownMenuRadioGroup`. */
  datatype RadioGroup = RadioGroup(value: Option<string>)

  /** `radioContext?.value === value` */
  predicate IsSelected(group: Option<RadioGroup>, value: string) {
    group.Some? && group.value.value == Some(value)
  }

  /** Two radio items with different values are never both selected. */
  lemma RadioSelectionExclusive(group: Option<RadioGroup>, a: string, b: string)
    requires a != b
    ensures !(IsSelected(group, a) && IsSelected(group, b))
  {
  }

  /** `DropdownMenuRadioItem`'s `handleClick`. */
  function RadioItemClick(m: MenuModel, disabled: bool, value: string, group: Option<RadioGroup>): (m': MenuModel)
    ensures disabled ==> m' == m
    ensures !disabled ==>
      m'.notices == m.notices + (if group.Some? then [RadioValueChange(value)] else []) + [Clicked]
                    + (if m.closeOnSelect then [OpenChange(false)] else [])
    ensures !disabled ==> m'.open == (if m.closeOnSelect then m.open.Set(false) else m.open)
    ensures m'.closeOnSelect == m.closeOnSelect
  {
    if disabled then m
    else
      var reported := if group.Some? then [RadioValueChange(value)] else [];
      var m1 := m.(notices := m.notices + reported + [Clicked]);
      if m.closeOnSelect then RequestOpen(m1, false) else m1
  }

  /**
   * An enabled plain or radio item asks to close exactly when
   * `closeOnSelect` holds, and so closes an uncontrolled menu; a checkbox
   * item never touches the open state.
   */
  lemma SelectClosesIff(m: MenuModel, value: string, group: Option<RadioGroup>, checked: bool)
    ensures OpenChange(false) in ItemClick(m, false).notices[|m.notices|..] <==> m.closeOnSelect
    ensures OpenChange(false) in RadioItemClick(m, false, value, group).notices[|m.notices|..] <==> m.closeOnSelect
    ensures m.open.controlled.None? && m.closeOnSelect ==>
              !ItemClick(m, false).IsOpen() && !RadioItemClick(m, false, value, group).IsOpen()
    ensures CheckboxItemClick(m, false, checked).0.IsOpen() == m.IsOpen()
  {
    var tail := ItemClick(m, false).notices[|m.notices|..];
    assert tail == [Clicked] + (if m.closeOnSelect then [OpenChange(false)] else []);
    var rtail := RadioItemClick(m, false, value, group).notices[|m.notices|..];
    assert rtail == (if group.Some? then [RadioValueChange(value)] else []) + [Clicked]
                    + (if m.closeOnSelect then [OpenChange(false)] else []);
  }

  /** Disabled items of every kind change nothing and notify no one. */
  lemma DisabledItemsInert(m: MenuModel, value: string, group: Option<RadioGroup>, checked: bool)
    ensures ItemClick(m, true) == m
    ensures CheckboxItemClick(m, true, checked).0 == m
    ensures RadioItemClick(m, true, value, group) == m
  {
  }

  // ---------------------------------------------------------------------
  // DropdownMenuSub
  // ---------------------------------------------------------------------

  /** A mounted `DropdownMenuSub`: its open state and the values passed to its `onOpenChange`. */
  datatype SubModel = SubModel(open: OpenState, openChanges: seq<bool>)

  /** `DropdownMenuSub({ open })` on first render: the internal state starts closed. */
  function InitialSub(open: Option<bool>): (s: SubModel)
    ensures s.open == OpenState(open, false)
    ensures open.None? ==> !s.open.IsOpen()
    ensures s.openChanges == []
  {
    SubModel(OpenState(open, false), [])
  }

  /** The sub-menu's `setIsOpen(newOpen)`. */
  function SubSetIsOpen(s: SubModel, newOpen: bool): (s': SubModel)
    ensures s'.open == s.open.Set(newOpen)
    ensures s'.openChanges == s.openChanges + [newOpen]
  {
    SubModel(s.open.Set(newOpen), s.openChanges + [newOpen])
  }

  /**
   * `DropdownMenuSubTrigger`'s mouse-enter (`entering`) and mouse-leave
   * handlers; outside a `DropdownMenuSub` there is no context and nothing
   * happens.
   */
  function SubTriggerHover(sub: Option<SubModel>, entering: bool): (r: Option<SubModel>)
    ensures r.Some? <==> sub.Some?
    ensures sub.Some? ==> r.value == SubSetIsOpen(sub.value, entering)
  {
    if sub.Some? then Some(SubSetIsOpen(sub.value, entering)) else None
  }

  /** `DropdownMenuSubContent` renders only inside an open sub-menu. */
  predicate SubContentRendered(sub: Option<SubModel>) {
    sub.Some? && sub.value.open.IsOpen()
  }

  /** A run of pointer movements over the sub-trigger: `true` for enter, `false` for leave. */
  function Hovers(s: SubModel, moves: seq<bool>): SubModel
    decreases |moves|
  {
    if moves == [] then s else Hovers(SubTriggerHover(Some(s), moves[0]).value, moves[1..])
  }

  /**
   * An uncontrolled sub-menu starts closed, and after any run of enters and
   * leaves its content is shown iff the last move was an enter.
   */
  lemma {:induction false} SubFollowsPointer(moves: seq<bool>)
    ensures var s := Hovers(InitialSub(None), moves);
      SubContentRendered(Some(s)) == (moves != [] && moves[|moves| - 1])
  {
    HoversAreRequests(InitialSub(None), moves);
    if moves != [] {
      OpenFollowsLastRequest(InitialSub(None).open, moves);
    }
  }

  /** Pointer moves over the sub-trigger are exactly `setIsOpen` requests. */
  lemma {:induction false} HoversAreRequests(s: SubModel, moves: seq<bool>)
    decreases |moves|
    ensures Hovers(s, moves).open == s.open.SetAll(moves)
    ensures Hovers(s, moves).openChanges == s.openChanges + moves
  {
    if moves != [] {
      HoversAreRequests(SubSetIsOpen(s, moves[0]), moves[1..]);
      assert s.openChanges + [moves[0]] + moves[1..] == s.openChanges + moves;
    }
  }

  // ---------------------------------------------------------------------
  // The menu and sub-menu as objects
  // ---------------------------------------------------------------------

  /** One mounted `DropdownMenu` and the state its parts share through the dropdown context. */
  class Menu {
    var controlledOpen: Option<bool>
    var internalOpen: bool
    const closeOnSelect: bool
    var notices: seq<Notice>

    function Model(): MenuModel
      reads this
    {
      MenuModel(OpenState(controlledOpen, internalOpen), closeOnSelect, notices)
    }

    constructor (open: Option<bool>, defaultOpen: Option<bool>, closeOnSelect: Option<bool>)
      ensures Model() == InitialMenu(open, defaultOpen, closeOnSelect)
    {
      controlledOpen := open;
      internalOpen := defaultOpen.GetOr(false);
      this.closeOnSelect := closeOnSelect.GetOr(true);
      notices := [];
    }

    /** The parent renders the menu again with a new `open` prop. */
    method SetOpenProp(open: Option<bool>)
      modifies this
      ensures Model() == old(Model()).(open := OpenState(open, old(internalOpen)))
    {
      controlledOpen := open;
    }

    method SetIsOpen(newOpen: bool)
      modifies this
      ensures Model() == RequestOpen(old(Model()), newOpen)
    {
      if controlledOpen.None? {
        internalOpen := newOpen;
      }
      notices := notices + [OpenChange(newOpen)];
    }

    /** The trigger's `handleClick`; it always calls `preventDefault`. */
    method TriggerHandleClick() returns (preventDefault: bool)
      modifies this
      ensures preventDefault
      ensures Model() == TriggerClick(old(Model()))
    {
      preventDefault := true;
      var isOpen := if controlledOpen.Some? then controlledOpen.value else internalOpen;
      SetIsOpen(!isOpen);
      notices := notices + [Clicked];
    }

    method HandleEscape(key: string)
      modifies this
      ensures Model() == DocumentKeyDown(old(Model()), key)
    {
      var isOpen := if controlledOpen.Some? then controlledOpen.value else internalOpen;
      if isOpen && key == "Escape" {
        SetIsOpen(false);
      }
    }

    method HandleClickOutside(contentMounted: bool, insideContent: bool)
      modifies this
      ensures Model() == DocumentMouseDown(old(Model()), contentMounted, insideContent)
    {
      var isOpen := if controlledOpen.Some? then controlledOpen.value else internalOpen;
      if isOpen && contentMounted && !insideContent {
        SetIsOpen(false);
      }
    }

    method ItemHandleClick(disabled: bool)
      modifies this
      ensures Model() == ItemClick(old(Model()), disabled)
    {
      if disabled {
        return;
      }
      notices := notices + [Clicked];
      if closeOnSelect {
        SetIsOpen(false);
      }
    }

    method ItemHandleKeyDown(disabled: bool, key: string) returns (preventDefault: bool)
      modifies this
      ensures (Model(), preventDefault) == ItemKeyDown(old(Model()), disabled, key)
    {
      preventDefault := false;
      if key == "Enter" || key == " " {
        preventDefault := true;
        ItemHandleClick(disabled);
      }
    }

    method CheckboxItemHandleClick(disabled: bool, checked: bool) returns (preventDefault: bool)
      modifies this
      ensures (Model(), preventDefault) == CheckboxItemClick(old(Model()), disabled, checked)
    {
      if disabled {
        return false;
      }
      notices := notices + [CheckedChange(!checked), Clicked];
      preventDefault := !closeOnSelect;
    }

    method RadioItemHandleClick(disabled: bool, value: string, group: Option<RadioGroup>)
      modifies this
      ensures Model() == RadioItemClick(old(Model()), disabled, value, group)
    {
      if disabled {
        return;
      }
      if group.Some? {
        notices := notices + [RadioValueChange(value)];
      }
      notices := notices + [Clicked];
      if closeOnSelect {
        SetIsOpen(false);
      }
    }
  }

  /** One mounted `DropdownMenuSub`. */
  class SubMenu {
    var controlledOpen: Option<bool>
    var internalOpen: bool
    var openChanges: seq<bool>

    function Model(): SubModel
      reads this
    {
      SubModel(OpenState(controlledOpen, internalOpen), openChanges)
    }

    constructor (open: Option<bool>)
      ensures Model() == InitialSub(open)
    {
      controlledOpen := open;
      internalOpen := false;
      openChanges := [];
    }

    method SetIsOpen(newOpen: bool)
      modifies this
      ensures Model() == SubSetIsOpen(old(Model()), newOpen)
    {
      if controlledOpen.None? {
        internalOpen := newOpen;
      }
      openChanges := openChanges + [newOpen];
    }

    /** The pointer enters (`true`) or leaves (`false`) the sub-trigger. */
    method Hover(entering: bool)
      modifies this
      ensures Some(Model()) == SubTriggerHover(Some(old(Model())), entering)
    {
      SetIsOpen(entering);
    }
  }
}
