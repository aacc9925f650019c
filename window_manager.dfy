/** The window registry of apps/web/src/components/window-manager.tsx: the store shared by every
    window that holds each window's stacking order and its minimized/maximized flags, the
    focused window and a z-index counter that only goes up.

    The operations are first given as functions on a `RegistryState` value, where their
    properties are proved; the class `WindowRegistry` then updates its fields in place the way
    the provider does and is proved to follow those functions. */
module WindowManager {
  import opened Wrappers

  /** The identity of an `onClose` callback passed to `registerWindow`. */
  type CallbackId = nat

  /** One window's record (`WindowInfo`). */
  datatype WindowInfo = WindowInfo(id: string, zIndex: int, title: Option<string>,
                                   minimized: bool, maximized: bool, onClose: Option<CallbackId>)

  /** The provider's state: the `windows` map; `order`, the order in which that JavaScript
      Map iterates its keys (insertion order, kept when an existing key is set again); the
      focused id; the counter `nextZIndexRef`; the `baseZIndex` prop; and the `onClose`
      callbacks invoked so far, in order. */
  datatype RegistryState = RegistryState(windows: map<string, WindowInfo>, order: seq<string>,
                                         focused: Option<string>, nextZIndex: int, baseZIndex: int,
                                         closeCalls: seq<CallbackId>)

  ghost predicate Distinct(ids: seq<string>) {
    forall i, j :: 0 <= i < j < |ids| ==> ids[i] != ids[j]
  }

  /** The registry invariant: each record is stored under its own id; every stored z-index is
      at least the base and below the counter; no two records share a z-index; the iteration
      order lists each stored id exactly once. */
  ghost predicate WellFormed(s: RegistryState) {
    && s.baseZIndex <= s.nextZIndex
    && (forall id :: id in s.windows ==> s.windows[id].id == id && s.baseZIndex <= s.windows[id].zIndex < s.nextZIndex)
    && (forall a, b :: a in s.windows && b in s.windows && a != b ==> s.windows[a].zIndex != s.windows[b].zIndex)
    && Distinct(s.order)
    && (forall id :: id in s.windows <==> id in s.order)
  }

  /** `id` is stored and is painted above every other stored window. */
  ghost predicate IsTop(s: RegistryState, id: string) {
    id in s.windows && forall other :: other in s.windows && other != id ==> s.windows[other].zIndex < s.windows[id].zIndex
  }

  /** Records other than `id` are the same in both states. */
  ghost predicate OthersUnchanged(s: RegistryState, r: RegistryState, id: string) {
    forall other :: other != id ==> (other in r.windows <==> other in s.windows) &&
                                    (other in s.windows ==> r.windows[other] == s.windows[other])
  }

  /** A freshly mounted provider. */
  function Initial(baseZIndex: int): (r: RegistryState)
    ensures WellFormed(r) && r.windows == map[] && r.focused == None
    ensures r.baseZIndex == baseZIndex && r.nextZIndex == baseZIndex && r.order == [] && r.closeCalls == []
  {
    RegistryState(map[], [], None, baseZIndex, baseZIndex, [])
  }

  /** `ids` without `id`, in the same order. */
  function RemoveId(ids: seq<string>, id: string): seq<string> {
    if ids == [] then [] else (if ids[0] == id then [] else [ids[0]]) + RemoveId(ids[1..], id)
  }

  lemma {:induction false} RemoveIdMembers(ids: seq<string>, id: string)
    ensures forall x :: x in RemoveId(ids, id) <==> x in ids && x != id
    ensures Distinct(ids) ==> Distinct(RemoveId(ids, id))
  {
    if ids != [] {
      RemoveIdMembers(ids[1..], id);
      var rest := RemoveId(ids[1..], id);
      if ids[0] != id && Distinct(ids) {
        forall i, j | 0 <= i < j < |[ids[0]] + rest| ensures ([ids[0]] + rest)[i] != ([ids[0]] + rest)[j] {
          if i == 0 {
            assert ([ids[0]] + rest)[j] in rest;
          } else {
            assert ([ids[0]] + rest)[i] == rest[i - 1];
          }
        }
      }
    }
  }

  lemma {:induction false} RemoveIdAbsent(ids: seq<string>, id: string)
    requires id !in ids
    ensures RemoveId(ids, id) == ids
  {
    if ids != [] {
      RemoveIdAbsent(ids[1..], id);
      assert ids == [ids[0]] + ids[1..];
    }
  }

  /** `registerWindow`: stores a fresh record for `id` (replacing any earlier one, which keeps
      its place in the iteration order) with the counter's value as z-index, bumps the counter
      and focuses `id`. The z-index it returns is the old counter. */
  function Register(s: RegistryState, id: string, title: Option<string>, onClose: Option<CallbackId>): (r: RegistryState)
    ensures WellFormed(s) ==> WellFormed(r) && IsTop(r, id)
    ensures id in r.windows && r.windows[id] == WindowInfo(id, s.nextZIndex, title, false, false, onClose)
    ensures r.focused == Some(id) && r.nextZIndex == s.nextZIndex + 1 && r.closeCalls == s.closeCalls
    ensures OthersUnchanged(s, r, id)
    ensures id in s.order ==> r.order == s.order
    ensures id !in s.order ==> r.order == s.order + [id]
  {
    s.(windows := s.windows[id := WindowInfo(id, s.nextZIndex, title, false, false, onClose)],
       order := if id in s.order then s.order else s.order + [id],
       focused := Some(id),
       nextZIndex := s.nextZIndex + 1)
  }

  /** `unregisterWindow`: removes the record for `id` if any; the focus becomes none only if
      it was `id`. */
  function Unregister(s: RegistryState, id: string): (r: RegistryState)
    ensures WellFormed(s) ==> WellFormed(r)
    ensures id !in r.windows && OthersUnchanged(s, r, id)
    ensures r.focused == (if s.focused == Some(id) then None else s.focused)
    ensures r.nextZIndex == s.nextZIndex && r.closeCalls == s.closeCalls
    ensures forall x :: x in r.order <==> x in s.order && x != id
    ensures id !in s.order ==> r.order == s.order
    ensures r.order == RemoveId(s.order, id)
  {
    assert id !in s.order ==> RemoveId(s.order, id) == s.order by {
      if id !in s.order { RemoveIdAbsent(s.order, id); }
    }
    RemoveIdMembers(s.order, id);
    s.(windows := s.windows - {id},
       order := RemoveId(s.order, id),
       focused := if s.focused == Some(id) then None else s.focused)
  }

  /** `closeWindow`: invokes the stored `onClose`, when a record with one exists, then
      unregisters `id`. */
  function Close(s: RegistryState, id: string): (r: RegistryState)
    ensures WellFormed(s) ==> WellFormed(r)
    ensures id !in r.windows && OthersUnchanged(s, r, id)
    ensures r.closeCalls == s.closeCalls + (if id in s.windows && s.windows[id].onClose.Some? then [s.windows[id].onClose.value] else [])
    ensures r.focused == (if s.focused == Some(id) then None else s.focused)
    ensures r.nextZIndex == s.nextZIndex && r.order == Unregister(s, id).order
  {
    var calls := if id in s.windows && s.windows[id].onClose.Some? then s.closeCalls + [s.windows[id].onClose.value] else s.closeCalls;
    Unregister(s.(closeCalls := calls), id)
  }

  /** `minimizeWindow`: sets the `minimized` flag of a stored `id`, nothing else of it; clears
      the focus when it was `id`, whether or not `id` is stored. */
  function Minimize(s: RegistryState, id: string): (r: RegistryState)
    ensures WellFormed(s) ==> WellFormed(r)
    ensures id in s.windows <==> id in r.windows
    ensures id in s.windows ==> r.windows[id] == s.windows[id].(minimized := true)
    ensures OthersUnchanged(s, r, id) && r.order == s.order && r.nextZIndex == s.nextZIndex
    ensures r.focused == (if s.focused == Some(id) then None else s.focused)
  {
    s.(windows := if id in s.windows then s.windows[id := s.windows[id].(minimized := true)] else s.windows,
       focused := if s.focused == Some(id) then None else s.focused)
  }

  /** `restoreWindow`: for a stored `id`, clears both flags and gives it a fresh z-index from
      the counter; focuses `id` even when it is not stored. */
  function Restore(s: RegistryState, id: string): (r: RegistryState)
    ensures WellFormed(s) ==> WellFormed(r)
    ensures WellFormed(s) && id in s.windows ==> IsTop(r, id)
    ensures id in s.windows <==> id in r.windows
    ensures id in s.windows ==> r.windows[id] == s.windows[id].(minimized := false, maximized := false, zIndex := s.nextZIndex)
    ensures r.nextZIndex == s.nextZIndex + (if id in s.windows then 1 else 0)
    ensures OthersUnchanged(s, r, id) && r.order == s.order && r.focused == Some(id)
  {
    if id in s.windows then
      s.(windows := s.windows[id := s.windows[id].(minimized := false, maximized := false, zIndex := s.nextZIndex)],
         nextZIndex := s.nextZIndex + 1,
         focused := Some(id))
    else
      s.(focused := Some(id))
  }

  /** `maximizeWindow`: for a stored `id`, toggles `maximized`, clears `minimized` and gives it
      a fresh z-index; focuses `id` even when it is not stored. */
  function Maximize(s: RegistryState, id: string): (r: RegistryState)
    ensures WellFormed(s) ==> WellFormed(r)
    ensures WellFormed(s) && id in s.windows ==> IsTop(r, id)
    ensures id in s.windows <==> id in r.windows
    ensures id in s.windows ==> r.windows[id] == s.windows[id].(maximized := !s.windows[id].maximized, minimized := false, zIndex := s.nextZIndex)
    ensures r.nextZIndex == s.nextZIndex + (if id in s.windows then 1 else 0)
    ensures OthersUnchanged(s, r, id) && r.order == s.order && r.focused == Some(id)
  {
    if id in s.windows then
      s.(windows := s.windows[id := s.windows[id].(maximized := !s.windows[id].maximized, minimized := false, zIndex := s.nextZIndex)],
         nextZIndex := s.nextZIndex + 1,
         focused := Some(id))
    else
      s.(focused := Some(id))
  }

  /** `focusWindow`: for a stored `id`, gives it a fresh z-index and changes nothing else of
      it; focuses `id` even when it is not stored. */
  function Focus(s: RegistryState, id: string): (r: RegistryState)
    ensures WellFormed(s) ==> WellFormed(r)
    ensures WellFormed(s) && id in s.windows ==> IsTop(r, id)
    ensures id in s.windows <==> id in r.windows
    ensures id in s.windows ==> r.windows[id] == s.windows[id].(zIndex := s.nextZIndex)
    ensures r.nextZIndex == s.nextZIndex + (if id in s.windows then 1 else 0)
    ensures OthersUnchanged(s, r, id) && r.order == s.order && r.focused == Some(id)
  {
    if id in s.windows then
      s.(windows := s.windows[id := s.windows[id].(zIndex := s.nextZIndex)],
         nextZIndex := s.nextZIndex + 1,
         focused := Some(id))
    else
      s.(focused := Some(id))
  }

  /** `getWindowZIndex`: the stored z-index, or `baseZIndex` for an unknown id. JavaScript's
      `||` also falls back to the base for a stored z-index of 0. */
  function GetWindowZIndex(s: RegistryState, id: string): (r: int)
    ensures WellFormed(s) ==> r >= s.baseZIndex
    ensures id !in s.windows ==> r == s.baseZIndex
    ensures WellFormed(s) && s.baseZIndex > 0 && id in s.windows ==> r == s.windows[id].zIndex
  {
    if id in s.windows && s.windows[id].zIndex != 0 then s.windows[id].zIndex else s.baseZIndex
  }

  function IsWindowFocused(s: RegistryState, id: string): bool {
    s.focused == Some(id)
  }

  function IsWindowMinimized(s: RegistryState, id: string): bool {
    id in s.windows && s.windows[id].minimized
  }

  function IsWindowMaximized(s: RegistryState, id: string): bool {
    id in s.windows && s.windows[id].maximized
  }

  /** With a positive base, the z-index the registry reports puts the top window above every
      other stored window. */
  lemma TopReportsHighestZIndex(s: RegistryState, id: string, other: string)
    requires WellFormed(s) && s.baseZIndex > 0 && IsTop(s, id)
    requires other in s.windows && other != id
    ensures GetWindowZIndex(s, other) < GetWindowZIndex(s, id)
  {
  }

  /** Minimizing the focused window leaves no window focused, whether or not it is stored,
      and reports it minimized when it is stored. */
  lemma MinimizeFocusedClearsFocus(s: RegistryState, id: string)
    requires IsWindowFocused(s, id)
    ensures var r := Minimize(s, id);
            r.focused == None && !IsWindowFocused(r, id) && (IsWindowMinimized(r, id) <==> id in s.windows)
  {
  }

  /** What the three queries report about `id` right after each operation on it: a new or
      restored window is focused and neither minimized nor maximized; a minimized one is not
      focused; maximize toggles the report; focus leaves both flags; after unregistering
      every query is false. */
  lemma QueriesAfterOperations(s: RegistryState, id: string, title: Option<string>, onClose: Option<CallbackId>)
    ensures var r := Register(s, id, title, onClose);
            IsWindowFocused(r, id) && !IsWindowMinimized(r, id) && !IsWindowMaximized(r, id)
    ensures var r := Minimize(s, id);
            !IsWindowFocused(r, id) && (IsWindowMinimized(r, id) <==> id in s.windows)
            && IsWindowMaximized(r, id) == IsWindowMaximized(s, id)
    ensures var r := Restore(s, id);
            IsWindowFocused(r, id) && !IsWindowMinimized(r, id) && !IsWindowMaximized(r, id)
    ensures var r := Maximize(s, id);
            IsWindowFocused(r, id) && !IsWindowMinimized(r, id)
            && (IsWindowMaximized(r, id) <==> id in s.windows && !IsWindowMaximized(s, id))
    ensures var r := Focus(s, id);
            IsWindowFocused(r, id) && IsWindowMinimized(r, id) == IsWindowMinimized(s, id)
            && IsWindowMaximized(r, id) == IsWindowMaximized(s, id)
    ensures var r := Unregister(s, id);
            !IsWindowFocused(r, id) && !IsWindowMinimized(r, id) && !IsWindowMaximized(r, id)
  {
  }

  /** Unregistering twice is the same as unregistering once. */
  lemma {:induction false} UnregisterIdempotent(s: RegistryState, id: string)
    ensures Unregister(Unregister(s, id), id) == Unregister(s, id)
  {
    var once := Unregister(s, id);
    RemoveIdMembers(s.order, id);
    RemoveIdAbsent(once.order, id);
  }

  /** A second `closeWindow` finds no record and invokes nothing. */
  lemma SecondCloseInvokesNothing(s: RegistryState, id: string)
    ensures Close(Close(s, id), id).closeCalls == Close(s, id).closeCalls
    ensures Close(Close(s, id), id).windows == Close(s, id).windows
  {
  }

  /** Registering a window with a close callback and closing it twice invokes the callback
      exactly once. */
  lemma CloseTwiceInvokesCallbackOnce(s: RegistryState, id: string, title: Option<string>, cb: CallbackId)
    ensures Close(Close(Register(s, id, title, Some(cb)), id), id).closeCalls == s.closeCalls + [cb]
  {
  }

  /** An operation on an id that is not stored leaves the records, the iteration order and the
      counter alone; restore, maximize and focus still move the focus to that id. */
  lemma UnknownIdLeavesRecords(s: RegistryState, id: string)
    requires id !in s.windows
    ensures Minimize(s, id).windows == s.windows && Minimize(s, id).order == s.order && Minimize(s, id).nextZIndex == s.nextZIndex
    ensures Restore(s, id) == s.(focused := Some(id))
    ensures Maximize(s, id) == s.(focused := Some(id))
    ensures Focus(s, id) == s.(focused := Some(id))
    ensures Unregister(s, id).windows == s.windows && Close(s, id).closeCalls == s.closeCalls
  {
  }

  /** The registry operations as a value, for reasoning about sequences of calls. */
  datatype Op =
    | RegisterOp(id: string, title: Option<string>, onClose: Option<CallbackId>)
    | UnregisterOp(id: string)
    | CloseOp(id: string)
    | MinimizeOp(id: string)
    | RestoreOp(id: string)
    | MaximizeOp(id: string)
    | FocusOp(id: string)

  function Step(s: RegistryState, op: Op): RegistryState {
    match op
    case RegisterOp(id, title, onClose) => Register(s, id, title, onClose)
    case UnregisterOp(id) => Unregister(s, id)
    case CloseOp(id) => Close(s, id)
    case MinimizeOp(id) => Minimize(s, id)
    case RestoreOp(id) => Restore(s, id)
    case MaximizeOp(id) => Maximize(s, id)
    case FocusOp(id) => Focus(s, id)
  }

  function Run(s: RegistryState, ops: seq<Op>): RegistryState
    decreases |ops|
  {
    if ops == [] then s else Run(Step(s, ops[0]), ops[1..])
  }

  /** The operation gives `op.id` a fresh z-index: a registration, or a restore, maximize or
      focus of a stored id. */
  predicate Raises(s: RegistryState, op: Op) {
    op.RegisterOp? || ((op.RestoreOp? || op.MaximizeOp? || op.FocusOp?) && op.id in s.windows)
  }

  /** One step keeps the invariant, never lowers the counter, and a raising step hands out the
      old counter as `op.id`'s z-index and puts that window on top. */
  lemma StepSpec(s: RegistryState, op: Op)
    requires WellFormed(s)
    ensures WellFormed(Step(s, op))
    ensures Step(s, op).nextZIndex >= s.nextZIndex
    ensures Raises(s, op) ==> Step(s, op).nextZIndex == s.nextZIndex + 1
                              && Step(s, op).windows[op.id].zIndex == s.nextZIndex
                              && IsTop(Step(s, op), op.id)
  {
  }

  lemma {:induction false} RunSpec(s: RegistryState, ops: seq<Op>)
    requires WellFormed(s)
    ensures WellFormed(Run(s, ops))
    ensures Run(s, ops).nextZIndex >= s.nextZIndex
    decreases |ops|
  {
    if ops != [] {
      StepSpec(s, ops[0]);
      RunSpec(Step(s, ops[0]), ops[1..]);
    }
  }

  lemma {:induction false} RunAppend(s: RegistryState, a: seq<Op>, b: seq<Op>)
    ensures Run(s, a + b) == Run(Run(s, a), b)
    decreases |a|
  {
    if a == [] {
      assert a + b == b;
    } else {
      assert (a + b)[0] == a[0];
      assert (a + b)[1..] == a[1..] + b;
      RunAppend(Step(s, a[0]), a[1..], b);
    }
  }

  lemma RunSnoc(s: RegistryState, ops: seq<Op>, op: Op)
    ensures Run(s, ops + [op]) == Step(Run(s, ops), op)
  {
    RunAppend(s, ops, [op]);
    var t := Run(s, ops);
    assert [op][1..] == [];
    assert Run(t, [op]) == Run(Step(t, op), []);
  }

  /** Focusing a stored window twice leaves it on top. */
  lemma FocusTwiceIsTop(s: RegistryState, id: string)
    requires WellFormed(s) && id in s.windows
    ensures WellFormed(Focus(Focus(s, id), id)) && IsTop(Focus(Focus(s, id), id), id)
  {
  }

  /** One step never lowers the counter, and a raising step bumps it by one. */
  lemma StepCounter(s: RegistryState, op: Op)
    ensures Step(s, op).nextZIndex >= s.nextZIndex
    ensures Raises(s, op) ==> Step(s, op).nextZIndex == s.nextZIndex + 1
  {
  }

  /** The counter never goes down along a sequence of operations. */
  lemma {:induction false} RunCounter(s: RegistryState, ops: seq<Op>)
    ensures Run(s, ops).nextZIndex >= s.nextZIndex
    decreases |ops|
  {
    if ops != [] {
      StepCounter(s, ops[0]);
      RunCounter(Step(s, ops[0]), ops[1..]);
    }
  }

  /** Stacking monotonicity: of two raising calls in a sequence, the later one hands out the
      higher z-index, and the window raised by the last call of a sequence is on top. */
  lemma LaterRaiseGetsHigherZIndex(s: RegistryState, ops: seq<Op>, i: nat, j: nat)
    requires i < j <= |ops|
    requires Raises(Run(s, ops[..i]), ops[i])
    ensures Run(s, ops[..i]).nextZIndex < Run(s, ops[..j]).nextZIndex
  {
    var before := Run(s, ops[..i]);
    StepCounter(before, ops[i]);
    assert ops[..i + 1] == ops[..i] + [ops[i]];
    RunSnoc(s, ops[..i], ops[i]);
    var after := Run(s, ops[..i + 1]);
    assert ops[..j] == ops[..i + 1] + ops[i + 1..j];
    RunAppend(s, ops[..i + 1], ops[i + 1..j]);
    RunCounter(after, ops[i + 1..j]);
  }

  /** Of two raising calls in a sequence, the window raised later is stored with the higher
      z-index, each read right after its own call. */
  lemma LaterRaiseStoresHigherZIndex(s: RegistryState, ops: seq<Op>, i: nat, j: nat)
    requires i < j < |ops|
    requires Raises(Run(s, ops[..i]), ops[i]) && Raises(Run(s, ops[..j]), ops[j])
    ensures ops[i].id in Run(s, ops[..i + 1]).windows && ops[j].id in Run(s, ops[..j + 1]).windows
    ensures Run(s, ops[..i + 1]).windows[ops[i].id].zIndex < Run(s, ops[..j + 1]).windows[ops[j].id].zIndex
  {
    LaterRaiseGetsHigherZIndex(s, ops, i, j);
    RaisedAfterStep(s, ops, i);
    RaisedAfterStep(s, ops, j);
  }

  lemma RaisedAfterStep(s: RegistryState, ops: seq<Op>, k: nat)
    requires k < |ops| && Raises(Run(s, ops[..k]), ops[k])
    ensures ops[k].id in Run(s, ops[..k + 1]).windows
    ensures Run(s, ops[..k + 1]).windows[ops[k].id].zIndex == Run(s, ops[..k]).nextZIndex
  {
    assert ops[..k + 1] == ops[..k] + [ops[k]];
    RunSnoc(s, ops[..k], ops[k]);
    RaiseStoresCounter(Run(s, ops[..k]), ops[k]);
  }

  /** A raising step stores the counter it found as the raised window's z-index. */
  lemma RaiseStoresCounter(s: RegistryState, op: Op)
    requires Raises(s, op)
    ensures op.id in Step(s, op).windows && Step(s, op).windows[op.id].zIndex == s.nextZIndex
  {
  }

  lemma LastRaisedIsTop(s: RegistryState, ops: seq<Op>, last: Op)
    requires WellFormed(s)
    requires Raises(Run(s, ops), last)
    ensures IsTop(Run(s, ops + [last]), last.id)
  {
    RunSnoc(s, ops, last);
    RunSpec(s, ops);
    StepSpec(Run(s, ops), last);
  }

  /** The provider's state as an object whose fields each callback reassigns. */
  class WindowRegistry {
    var windows: map<string, WindowInfo>
    var order: seq<string>
    var focusedWindowId: Option<string>
    var nextZIndex: int
    const baseZIndex: int
    var closeCalls: seq<CallbackId>

    function State(): RegistryState
      reads this
    {
      RegistryState(windows, order, focusedWindowId, nextZIndex, baseZIndex, closeCalls)
    }

    ghost predicate Valid()
      reads this
    {
      WellFormed(State())
    }

    constructor (baseZIndex: int)
      ensures Valid() && State() == Initial(baseZIndex)
    {
      windows, order, focusedWindowId := map[], [], None;
      nextZIndex, this.baseZIndex := baseZIndex, baseZIndex;
      closeCalls := [];
    }

    method RegisterWindow(id: string, title: Option<string>, onClose: Option<CallbackId>) returns (zIndex: int)
      requires Valid()
      modifies this
      ensures Valid() && State() == Register(old(State()), id, title, onClose)
      ensures zIndex == old(nextZIndex) && IsTop(State(), id)
    {
      ghost var before := State();
      zIndex := nextZIndex;
      nextZIndex := nextZIndex + 1;
      windows := windows[id := WindowInfo(id, zIndex, title, false, false, onClose)];
      if id !in order {
        order := order + [id];
      }
      focusedWindowId := Some(id);
      assert State() == Register(before, id, title, onClose);
    }

    method UnregisterWindow(id: string)
      requires Valid()
      modifies this
      ensures Valid() && State() == Unregister(old(State()), id)
    {
      ghost var before := State();
      RemoveIdMembers(order, id);
      windows := windows - {id};
      order := RemoveId(order, id);
      if focusedWindowId == Some(id) {
        focusedWindowId := None;
      }
      assert State() == Unregister(before, id);
    }

    method CloseWindow(id: string)
      requires Valid()
      modifies this
      ensures Valid() && State() == Close(old(State()), id)
    {
      if id in windows && windows[id].onClose.Some? {
        closeCalls := closeCalls + [windows[id].onClose.value];
      }
      UnregisterWindow(id);
    }

    method MinimizeWindow(id: string)
      requires Valid()
      modifies this
      ensures Valid() && State() == Minimize(old(State()), id)
    {
      ghost var before := State();
      if id in windows {
        windows := windows[id := windows[id].(minimized := true)];
      }
      if focusedWindowId == Some(id) {
        focusedWindowId := None;
      }
      assert State() == Minimize(before, id);
    }

    method RestoreWindow(id: string)
      requires Valid()
      modifies this
      ensures Valid() && State() == Restore(old(State()), id)
    {
      ghost var before := State();
      if id in windows {
        var newZIndex := nextZIndex;
        nextZIndex := nextZIndex + 1;
        windows := windows[id := windows[id].(minimized := false, maximized := false, zIndex := newZIndex)];
      }
      focusedWindowId := Some(id);
      assert State() == Restore(before, id);
    }

    method MaximizeWindow(id: string)
      requires Valid()
      modifies this
      ensures Valid() && State() == Maximize(old(State()), id)
    {
      ghost var before := State();
      if id in windows {
        var current := windows[id];
        var newZIndex := nextZIndex;
        nextZIndex := nextZIndex + 1;
        windows := windows[id := current.(maximized := !current.maximized, minimized := false, zIndex := newZIndex)];
      }
      focusedWindowId := Some(id);
      assert State() == Maximize(before, id);
    }

    method FocusWindow(id: string)
      requires Valid()
      modifies this
      ensures Valid() && State() == Focus(old(State()), id)
    {
      ghost var before := State();
      if id in windows {
        var newZIndex := nextZIndex;
        nextZIndex := nextZIndex + 1;
        windows := windows[id := windows[id].(zIndex := newZIndex)];
      }
      focusedWindowId := Some(id);
      assert State() == Focus(before, id);
    }
  }
}
