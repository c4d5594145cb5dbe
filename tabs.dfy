/**
 * The tabs primitive: the `cn` class-name joiner, the selected value of a
 * `Tabs` root (controlled by its `value` prop or kept internally), arrow-key
 * navigation in `TabsList`, trigger clicks and panel visibility.
 */
module Tabs {
  import opened Wrappers
  import opened JsString

  // ---------------------------------------------------------------------
  // cn
  // ---------------------------------------------------------------------

  /** An argument of `cn`: a string, `undefined`, `null` or `false`. */
  datatype ClassValue = Str(s: string) | Undefined | Null | False

  /** `Boolean(c)`: only a non-empty string is truthy. */
  predicate IsTruthy(c: ClassValue) {
    c.Str? && c.s != ""
  }

  /** `classes.filter(Boolean)`, keeping the strings themselves. */
  function Kept(classes: seq<ClassValue>): (r: seq<string>)
    ensures |r| <= |classes|
    ensures forall i :: 0 <= i < |r| ==> r[i] != ""
  {
    if classes == [] then []
    else if IsTruthy(classes[0]) then [classes[0].s] + Kept(classes[1..])
    else Kept(classes[1..])
  }

  /** One entry is kept, as its own string, exactly when it is truthy. */
  lemma KeptSingle(c: ClassValue)
    ensures Kept([c]) == if IsTruthy(c) then [c.s] else []
  {
    assert [c][1..] == [];
  }

  /** `cn(...classes)`: the truthy entries joined with single spaces. */
  function Cn(classes: seq<ClassValue>): string {
    Join(Kept(classes), " ")
  }

  /** Filtering distributes over concatenation, so the order of the entries is kept. */
  lemma {:induction false} KeptAppend(a: seq<ClassValue>, b: seq<ClassValue>)
    ensures Kept(a + b) == Kept(a) + Kept(b)
  {
    if a != [] {
      assert (a + b)[0] == a[0];
      assert (a + b)[1..] == a[1..] + b;
      KeptAppend(a[1..], b);
    } else {
      assert a + b == b;
    }
  }

  /** Nothing is kept exactly when no entry is truthy. */
  lemma {:induction false} KeptEmptyIff(classes: seq<ClassValue>)
    ensures Kept(classes) == [] <==> forall i :: 0 <= i < |classes| ==> !IsTruthy(classes[i])
  {
    if classes != [] {
      KeptEmptyIff(classes[1..]);
      if !IsTruthy(classes[0]) {
        forall i | 0 < i < |classes| && !IsTruthy(classes[1..][i - 1])
          ensures !IsTruthy(classes[i])
        {
        }
      }
    }
  }

  /** Joining pieces that are all non-empty gives the empty string only for no pieces. */
  lemma {:induction false} JoinNonEmpty(parts: seq<string>)
    requires forall i :: 0 <= i < |parts| ==> parts[i] != ""
    ensures Join(parts, " ") == "" <==> parts == []
  {
    if |parts| >= 2 {
      assert |Join(parts, " ")| >= |parts[0]|;
    }
  }

  /** Joining two non-empty lists puts exactly one space between their joins. */
  lemma {:induction false} JoinAppend(x: seq<string>, y: seq<string>)
    requires x != [] && y != []
    ensures Join(x + y, " ") == Join(x, " ") + " " + Join(y, " ")
  {
    if |x| == 1 {
      assert (x + y)[0] == x[0] && (x + y)[1..] == y;
    } else {
      assert (x + y)[0] == x[0] && (x + y)[1..] == x[1..] + y;
      JoinAppend(x[1..], y);
    }
  }

  /** `cn` of one entry is that string when truthy, and the empty string otherwise. */
  lemma CnSingle(c: ClassValue)
    ensures Cn([c]) == if IsTruthy(c) then c.s else ""
  {
    KeptSingle(c);
  }

  /** `cn` returns the empty string exactly when every entry is falsy. */
  lemma CnEmptyIff(classes: seq<ClassValue>)
    ensures Cn(classes) == "" <==> forall i :: 0 <= i < |classes| ==> !IsTruthy(classes[i])
  {
    KeptEmptyIff(classes);
    JoinNonEmpty(Kept(classes));
  }

  /** `cn(...a, ...b)` is `cn(...a)` and `cn(...b)` separated by one space, or whichever is non-empty. */
  lemma CnAppend(a: seq<ClassValue>, b: seq<ClassValue>)
    ensures Cn(a + b) == if Cn(a) == "" then Cn(b)
                         else if Cn(b) == "" then Cn(a)
                         else Cn(a) + " " + Cn(b)
  {
    KeptAppend(a, b);
    JoinNonEmpty(Kept(a));
    JoinNonEmpty(Kept(b));
    if Kept(a) == [] {
      assert Kept(a + b) == Kept(b);
    } else if Kept(b) == [] {
      assert Kept(a + b) == Kept(a);
    } else {
      JoinAppend(Kept(a), Kept(b));
    }
  }

  /**
   * When no entry contains a space, splitting the result of `cn` on spaces
   * gives back exactly the truthy entries, in their order.
   */
  lemma CnSplit(classes: seq<ClassValue>)
    requires exists i :: 0 <= i < |classes| && IsTruthy(classes[i])
    requires forall i :: 0 <= i < |classes| && classes[i].Str? ==> ' ' !in classes[i].s
    ensures Split(Cn(classes)) == Kept(classes)
  {
    KeptEmptyIff(classes);
    KeptSpaceFree(classes);
    SplitJoin(Kept(classes));
  }

  /** Kept strings come from the entries, so they are space-free when the entries are. */
  lemma {:induction false} KeptSpaceFree(classes: seq<ClassValue>)
    requires forall i :: 0 <= i < |classes| && classes[i].Str? ==> ' ' !in classes[i].s
    ensures forall k :: 0 <= k < |Kept(classes)| ==> ' ' !in Kept(classes)[k]
  {
    if classes != [] {
      KeptSpaceFree(classes[1..]);
    }
  }

  // ---------------------------------------------------------------------
  // Tabs: the selected value
  // ---------------------------------------------------------------------

  datatype Orientation = Horizontal | Vertical

  /** What every tabs component reads from the tabs context. */
  datatype TabsContextValue = TabsContextValue(value: string, orientation: Orientation)

  const OutsideTabsMessage: string := "Tabs components must be used within a Tabs component"

  /** `useTabsContext()`: outside a `Tabs` root there is no context and the hook throws. */
  function UseTabsContext(context: Option<TabsContextValue>): (r: Result<TabsContextValue, string>)
    ensures r.Failure? <==> context.None?
    ensures r.Failure? ==> r.error == OutsideTabsMessage
    ensures r.Success? ==> r.value == context.value
  {
    if context.None? then Failure(OutsideTabsMessage) else Success(context.value)
  }

  /** The value state of a `Tabs` root, as a value. */
  datatype TabsModel = TabsModel(
    controlled: Option<string>,   // the `value` prop
    internal: string,             // `internalValue`
    requested: seq<string>)       // every value passed to `onValueChange`, oldest first
  {
    /** `controlledValue !== undefined ? controlledValue : internalValue` */
    function Value(): string {
      if controlled.Some? then controlled.value else internal
    }
  }

  /** `useState(defaultValue || '')` */
  function InitialValue(defaultValue: Option<string>): (v: string)
    ensures defaultValue.Some? ==> v == defaultValue.value
    ensures defaultValue.None? ==> v == ""
  {
    if defaultValue.Some? && defaultValue.value != "" then defaultValue.value else ""
  }

  /** `handleValueChange(newValue)` */
  function ValueChange(m: TabsModel, newValue: string): (m': TabsModel)
    ensures m'.controlled == m.controlled
    ensures m'.requested == m.requested + [newValue]
    ensures m'.Value() == if m.controlled.Some? then m.controlled.value else newValue
    ensures m'.internal == if m.controlled.Some? then m.internal else newValue
  {
    TabsModel(m.controlled, if m.controlled.None? then newValue else m.internal, m.requested + [newValue])
  }

  /** A run of value changes, in order. */
  function ValueChanges(m: TabsModel, values: seq<string>): TabsModel
    decreases |values|
  {
    if values == [] then m
    else ValueChanges(ValueChange(m, values[0]), values[1..])
  }

  /**
   * Uncontrolled, the value follows every change: after a run of changes it
   * is the last value asked for; every value asked for is reported in order.
   */
  lemma {:induction false} UncontrolledFollowsChanges(m: TabsModel, values: seq<string>)
    requires m.controlled.None? && values != []
    decreases |values|
    ensures ValueChanges(m, values).Value() == values[|values| - 1]
    ensures ValueChanges(m, values).requested == m.requested + values
  {
    var m1 := ValueChange(m, values[0]);
    if |values| > 1 {
      UncontrolledFollowsChanges(m1, values[1..]);
      assert values[1..][|values[1..]| - 1] == values[|values| - 1];
      assert m1.requested + values[1..] == m.requested + values;
    }
  }

  /** Controlled, the value stays the prop whatever is asked for, and every request is still reported. */
  lemma {:induction false} ControlledIgnoresChanges(m: TabsModel, values: seq<string>)
    requires m.controlled.Some?
    decreases |values|
    ensures ValueChanges(m, values).Value() == m.controlled.value
    ensures ValueChanges(m, values).requested == m.requested + values
  {
    if values != [] {
      ControlledIgnoresChanges(ValueChange(m, values[0]), values[1..]);
      assert m.requested + [values[0]] + values[1..] == m.requested + values;
    }
  }

  /** A trigger as `TabsList` finds it: its value and whether it is disabled. */
  datatype Trigger = Trigger(value: string, disabled: bool)

  /** `TabsTrigger`'s `handleClick`: a disabled trigger asks for nothing. */
  function TriggerClick(m: TabsModel, t: Trigger): (m': TabsModel)
    ensures t.disabled ==> m' == m
    ensures !t.disabled ==> m' == ValueChange(m, t.value)
    ensures !t.disabled ==> m'.requested == m.requested + [t.value] && m'.controlled == m.controlled
    ensures !t.disabled && m.controlled.None? ==> m'.Value() == t.value
    ensures m.controlled.Some? ==> m'.Value() == m.Value() && m'.internal == m.internal
  {
    if t.disabled then m else ValueChange(m, t.value)
  }

  /**
   * `TabsTrigger`'s `handleKeyDown`: Enter and Space act as a click and
   * cancel the browser default (the Boolean); other keys do nothing.
   */
  function TriggerKeyDown(m: TabsModel, t: Trigger, key: string): (r: (TabsModel, bool))
    ensures r.1 <==> key == "Enter" || key == " "
    ensures r.1 ==> r.0 == TriggerClick(m, t)
    ensures !r.1 ==> r.0 == m
  {
    if key == "Enter" || key == " " then (TriggerClick(m, t), true) else (m, false)
  }

  /** `isActive`, which sets `aria-selected`, `data-state` and the roving `tabIndex`. */
  predicate IsActive(value: string, triggerValue: string) {
    value == triggerValue
  }

  /** What `TabsContent` renders when it renders anything: whether the panel is `hidden`. */
  datatype Panel = Panel(hidden: bool)

  /** `TabsContent`: nothing unless mounted by force or active; hidden when inactive. */
  function Content(value: string, contentValue: string, forceMount: bool): (p: Option<Panel>)
    ensures p.Some? <==> forceMount || value == contentValue
    ensures p.Some? ==> (p.value.hidden <==> value != contentValue)
  {
    if !forceMount && !IsActive(value, contentValue) then None
    else Some(Panel(!IsActive(value, contentValue)))
  }

  /** Among panels with distinct values and no forced mounting, only the active one is shown, unhidden. */
  lemma AtMostOneContent(value: string, contentValues: seq<string>, i: nat, j: nat)
    requires i < |contentValues| && j < |contentValues| && i != j
    requires contentValues[i] != contentValues[j]
    ensures !(Content(value, contentValues[i], false).Some? && Content(value, contentValues[j], false).Some?)
  {
  }

  // ---------------------------------------------------------------------
  // TabsList: keyboard navigation
  // ---------------------------------------------------------------------

  /**
   * The index `handleKeyDown` moves to from `current` (the focused trigger,
   * or -1) among `count` triggers: arrows of the list's orientation wrap
   * around, Home and End jump to the ends, anything else stays.
   */
  function NextIndex(key: string, orientation: Orientation, count: nat, current: int): (next: int)
    requires count > 0 && -1 <= current < count
    ensures next == current || 0 <= next < count
  {
    if (key == "ArrowRight" && orientation == Horizontal)
       || (key == "ArrowDown" && orientation == Vertical) then
      if current + 1 >= count then 0 else current + 1
    else if (key == "ArrowLeft" && orientation == Horizontal)
       || (key == "ArrowUp" && orientation == Vertical) then
      if current - 1 < 0 then count - 1 else current - 1
    else if key == "Home" then 0
    else if key == "End" then count - 1
    else current
  }

  /** The keys `TabsList` takes over, calling `preventDefault`: the arrows of its orientation, Home and End. */
  predicate ListKeyHandled(key: string, orientation: Orientation) {
    ((key == "ArrowRight" || key == "ArrowLeft") && orientation == Horizontal)
    || ((key == "ArrowDown" || key == "ArrowUp") && orientation == Vertical)
    || key == "Home" || key == "End"
  }

  /** Exactly the keys the list takes over move focus to a trigger; any other key leaves the index alone. */
  lemma HandledKeysMove(key: string, orientation: Orientation, count: nat, current: int)
    requires count > 0 && -1 <= current < count
    ensures ListKeyHandled(key, orientation) ==> 0 <= NextIndex(key, orientation, count, current) < count
    ensures !ListKeyHandled(key, orientation) ==> NextIndex(key, orientation, count, current) == current
  {
  }

  /** The forward arrow is the successor modulo the number of triggers (from no focus, the first). */
  lemma ForwardIsSuccessor(orientation: Orientation, count: nat, current: int)
    requires count > 0 && -1 <= current < count
    ensures var key := if orientation == Horizontal then "ArrowRight" else "ArrowDown";
      NextIndex(key, orientation, count, current) == (current + 1) % count
  {
  }

  /** The backward arrow is the predecessor modulo the number of triggers (from no focus, the last). */
  lemma BackwardIsPredecessor(orientation: Orientation, count: nat, current: int)
    requires count > 0 && -1 <= current < count
    ensures var key := if orientation == Horizontal then "ArrowLeft" else "ArrowUp";
      NextIndex(key, orientation, count, current)
        == if current == -1 then count - 1 else (current - 1 + count) % count
  {
  }

  /** Wrap-around at both ends. */
  lemma ArrowsWrap(orientation: Orientation, count: nat)
    requires count > 0
    ensures var fwd := if orientation == Horizontal then "ArrowRight" else "ArrowDown";
      NextIndex(fwd, orientation, count, count - 1) == 0
    ensures var back := if orientation == Horizontal then "ArrowLeft" else "ArrowUp";
      NextIndex(back, orientation, count, 0) == count - 1
  {
  }

  /** Going forward and then back returns to the focused trigger. */
  lemma ForwardThenBack(orientation: Orientation, count: nat, current: nat)
    requires current < count
    ensures var fwd := if orientation == Horizontal then "ArrowRight" else "ArrowDown";
      var back := if orientation == Horizontal then "ArrowLeft" else "ArrowUp";
      NextIndex(back, orientation, count, NextIndex(fwd, orientation, count, current)) == current
  {
  }

  /** The arrows of the other orientation, and keys the list does not handle, leave the index alone. */
  lemma OtherKeysStay(key: string, orientation: Orientation, count: nat, current: int)
    requires count > 0 && -1 <= current < count
    requires key !in {"Home", "End"}
    requires orientation == Horizontal ==> key !in {"ArrowRight", "ArrowLeft"}
    requires orientation == Vertical ==> key !in {"ArrowDown", "ArrowUp"}
    ensures NextIndex(key, orientation, count, current) == current
  {
  }

  /** Home gives the first trigger and End the last, in either orientation. */
  lemma HomeAndEnd(orientation: Orientation, count: nat, current: int)
    requires count > 0 && -1 <= current < count
    ensures NextIndex("Home", orientation, count, current) == 0
    ensures NextIndex("End", orientation, count, current) == count - 1
  {
  }

  // ---------------------------------------------------------------------
  // The Tabs root as an object
  // ---------------------------------------------------------------------

  /** One mounted `Tabs` root and the state its children share through the tabs context. */
  class TabsRoot {
    var controlledValue: Option<string>
    var internalValue: string
    var requested: seq<string>
    const orientation: Orientation

    /** The state as a value. */
    function Model(): TabsModel
      reads this
    {
      TabsModel(controlledValue, internalValue, requested)
    }

    /** `Tabs({ defaultValue, value, orientation = 'horizontal' })` on first render. */
    constructor (defaultValue: Option<string>, value: Option<string>, orientation: Option<Orientation>)
      ensures Model() == TabsModel(value, InitialValue(defaultValue), [])
      ensures this.orientation == orientation.GetOr(Horizontal)
    {
      controlledValue := value;
      internalValue := if defaultValue.Some? && defaultValue.value != "" then defaultValue.value else "";
      requested := [];
      this.orientation := orientation.GetOr(Horizontal);
    }

    /** The parent renders `Tabs` again with a new `value` prop. */
    method SetValueProp(value: Option<string>)
      modifies this
      ensures Model() == old(Model()).(controlled := value)
    {
      controlledValue := value;
    }

    /** `handleValueChange(newValue)` */
    method HandleValueChange(newValue: string)
      modifies this
      ensures Model() == ValueChange(old(Model()), newValue)
    {
      if controlledValue.None? {
        internalValue := newValue;
      }
      requested := requested + [newValue];
    }

    /** A click on a trigger, or Enter or Space pressed on it. */
    method TriggerActivate(t: Trigger)
      modifies this
      ensures Model() == TriggerClick(old(Model()), t)
    {
      if !t.disabled {
        HandleValueChange(t.value);
      }
    }

    /** A key pressed on a trigger; answers whether the default was prevented. */
    method TriggerHandleKeyDown(t: Trigger, key: string) returns (preventDefault: bool)
      modifies this
      ensures (Model(), preventDefault) == TriggerKeyDown(old(Model()), t, key)
    {
      preventDefault := false;
      if key == "Enter" || key == " " {
        preventDefault := true;
        TriggerActivate(t);
      }
    }

    /**
     * `TabsList`'s `handleKeyDown` with `triggers` the list's triggers and
     * `currentIndex` the position of the focused one (-1 if none): the
     * trigger at the new index, if the index moved, is focused and clicked.
     * `preventDefault` tells whether the handler called it.
     */
    method ListKeyDown(key: string, triggers: seq<Trigger>, currentIndex: int) returns (moved: Option<nat>, preventDefault: bool)
      requires -1 <= currentIndex < |triggers|
      modifies this
      ensures preventDefault <==> triggers != [] && ListKeyHandled(key, orientation)
      ensures triggers == [] ==> moved.None?
      ensures triggers != [] ==>
        var next := NextIndex(key, orientation, |triggers|, currentIndex);
        moved == if next != currentIndex then Some(next) else None
      ensures moved.Some? ==> moved.value < |triggers|
      ensures Model() == if moved.Some? then TriggerClick(old(Model()), triggers[moved.value]) else old(Model())
    {
      moved, preventDefault := None, false;
      if |triggers| == 0 {
        return;
      }
      var nextIndex := currentIndex;
      if key == "ArrowRight" || key == "ArrowDown" {
        if (key == "ArrowRight" && orientation == Horizontal) || (key == "ArrowDown" && orientation == Vertical) {
          preventDefault := true;
          nextIndex := if currentIndex + 1 >= |triggers| then 0 else currentIndex + 1;
        }
      } else if key == "ArrowLeft" || key == "ArrowUp" {
        if (key == "ArrowLeft" && orientation == Horizontal) || (key == "ArrowUp" && orientation == Vertical) {
          preventDefault := true;
          nextIndex := if currentIndex - 1 < 0 then |triggers| - 1 else currentIndex - 1;
        }
      } else if key == "Home" {
        preventDefault := true;
        nextIndex := 0;
      } else if key == "End" {
        preventDefault := true;
        nextIndex := |triggers| - 1;
      }
      if nextIndex != currentIndex {
        moved := Some(nextIndex);
        TriggerActivate(triggers[nextIndex]);
      }
    }
  }
}
