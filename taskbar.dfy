/** The taskbar of apps/web/src/components/taskbar.tsx: a view of the registry that lists the
    minimized windows, in the registry's iteration order, and restores one when it is clicked. */
module Taskbar {
  import opened Wrappers
  import opened WindowManager

  /** One taskbar button: the window it restores, its accessible label and its tooltip. */
  datatype Entry = Entry(id: string, ariaLabel: string, tooltip: Option<string>)

  /** `a` is `b` with some elements left out: the elements of `a` appear in `b` in the same
      order. */
  ghost predicate IsSubsequence(a: seq<string>, b: seq<string>) {
    a == [] || (b != [] && ((a[0] == b[0] && IsSubsequence(a[1..], b[1..])) || IsSubsequence(a, b[1..])))
  }

  /** The ids of `order` whose record is minimized, in order. */
  function MinimizedIds(windows: map<string, WindowInfo>, order: seq<string>): (r: seq<string>)
    ensures forall x :: x in r <==> x in order && x in windows && windows[x].minimized
    ensures IsSubsequence(r, order)
    ensures Distinct(order) ==> Distinct(r)
  {
    if order == [] then []
    else
      var rest := MinimizedIds(windows, order[1..]);
      if order[0] in windows && windows[order[0]].minimized then
        assert ([order[0]] + rest)[1..] == rest;
        [order[0]] + rest
      else
        rest
  }

  /** The minimized windows the taskbar shows. */
  function MinimizedWindows(s: RegistryState): (r: seq<string>)
    ensures WellFormed(s) ==> forall x :: x in r <==> IsWindowMinimized(s, x)
    ensures WellFormed(s) ==> Distinct(r) && IsSubsequence(r, s.order)
  {
    MinimizedIds(s.windows, s.order)
  }

  /** The label falls back to "Window" and the tooltip is left out when the title is absent
      or empty, as JavaScript's truthiness test treats both alike. */
  function EntryFor(info: WindowInfo): (e: Entry)
    ensures e.id == info.id
    ensures e.tooltip.Some? <==> info.title.Some? && info.title.value != ""
    ensures e.tooltip.Some? ==> e.tooltip.value == e.ariaLabel && info.title == Some(e.ariaLabel)
    ensures e.tooltip.None? ==> e.ariaLabel == "Window"
  {
    var named := info.title.Some? && info.title.value != "";
    Entry(info.id, if named then info.title.value else "Window", if named then info.title else None)
  }

  /** What the taskbar renders: nothing when no window is minimized, else one entry per
      minimized window in iteration order. */
  function Render(s: RegistryState): (r: Option<seq<Entry>>)
    requires WellFormed(s)
    ensures r.None? <==> MinimizedWindows(s) == []
    ensures r.Some? ==> |r.value| == |MinimizedWindows(s)|
                        && forall k :: 0 <= k < |r.value| ==>
                             r.value[k].id == MinimizedWindows(s)[k] && MinimizedWindows(s)[k] in s.windows
                             && r.value[k] == EntryFor(s.windows[MinimizedWindows(s)[k]])
  {
    var ids := MinimizedWindows(s);
    if ids == [] then None
    else Some(seq(|ids|, k requires 0 <= k < |ids| => EntryFor(s.windows[ids[k]])))
  }

  lemma {:induction false} RemoveIdAppend(a: seq<string>, b: seq<string>, id: string)
    ensures RemoveId(a + b, id) == RemoveId(a, id) + RemoveId(b, id)
  {
    if a == [] {
      assert a + b == b;
    } else {
      assert (a + b)[0] == a[0] && (a + b)[1..] == a[1..] + b;
      RemoveIdAppend(a[1..], b, id);
    }
  }

  /** Restoring a window takes exactly that window off the taskbar and keeps the order of the
      others. */
  lemma {:induction false} RestoreRemovesEntry(windows: map<string, WindowInfo>, order: seq<string>,
                                                id: string, restored: map<string, WindowInfo>)
    requires forall x :: x != id ==> (x in restored <==> x in windows) && (x in windows ==> restored[x] == windows[x])
    requires id in restored ==> !restored[id].minimized
    ensures MinimizedIds(restored, order) == RemoveId(MinimizedIds(windows, order), id)
  {
    if order != [] {
      var head := if order[0] in windows && windows[order[0]].minimized then [order[0]] else [];
      RestoreRemovesEntry(windows, order[1..], id, restored);
      RemoveIdAppend(head, MinimizedIds(windows, order[1..]), id);
      assert RemoveId(head, id) == (if order[0] in restored && restored[order[0]].minimized then [order[0]] else []);
    }
  }

  /** The taskbar after `restoreWindow(id)` is the taskbar before it without `id`. */
  lemma RestoreTakesEntryOff(s: RegistryState, id: string)
    ensures MinimizedWindows(Restore(s, id)) == RemoveId(MinimizedWindows(s), id)
    ensures id !in MinimizedWindows(Restore(s, id))
  {
    RestoreRemovesEntry(s.windows, s.order, id, Restore(s, id).windows);
  }

  /** Clicking an entry calls `restoreWindow` with that entry's id. */
  method OnEntryClick(registry: WindowRegistry, id: string)
    requires registry.Valid()
    modifies registry
    ensures registry.Valid() && registry.State() == Restore(old(registry.State()), id)
    ensures MinimizedWindows(registry.State()) == RemoveId(MinimizedWindows(old(registry.State())), id)
  {
    registry.RestoreWindow(id);
    RestoreTakesEntryOff(old(registry.State()), id);
  }
}
