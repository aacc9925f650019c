# Desktop-style windows of the portfolio web app, in Dafny

This project models the window manager of the portfolio's web app and two small validators
from its dashboard:

- **The window registry** (`WindowManager`, window_manager.dfy). This is the store every window
  shares. It holds a map from window id to record (z-index, title, minimized and maximized
  flags, close callback), the focused id and a z-index counter that only goes up. The seven
  operations (register, unregister, close, minimize, restore, maximize, focus) are first
  defined as functions on a `RegistryState` value, where their properties are proved. The
  class `WindowRegistry` then updates its fields in place and is proved to follow those
  functions. The map's iteration order is kept as a sequence, because the taskbar lists
  windows in that order. Each close callback is an identity, and the calls made so far are
  kept in a log.
- **Shared geometry** (`Geometry`, geometry.dfy). This holds the size and position records,
  the 300 x 200 minimum, the size derived from the `width`/`height` props, and the clamped
  drag step. Both window components contain the same code for these.
- **The current window** (`WindowInstance`, window_current.dfy). This is one window's
  position, size and interaction mode. A pointer move performs a drag step or a resize from
  one of eight handles, and every other event is a call into the registry.
- **The earlier window** (`LegacyWindow`, window_legacy.dfy). The home page still uses it. It
  resizes by a different formula, which is proved to agree with the current one on any window
  that fits the viewport, and shown to differ near the viewport's edge.
- **The taskbar** (`Taskbar`, taskbar.dfy). It shows the minimized windows in the registry's
  order, and a click restores one.
- **The post form** (`PostForm`, post_form.dfy). It derives a slug from the title and holds
  the schema's field rules.
- **The cover-image picker** (`ImageUpload`, image_upload.dfy). It holds the ordered file
  checks and the drop zone's highlight flag.

Pixels are `real`, not integers. The components compute with JavaScript numbers, which are
often fractional: a width of 301 derives a height of 361.2, and centring halves a width.
Every formula is linear, so nothing is lost by this. The viewport size, the pointer position,
the viewport centre and the offset captured from the title bar's bounding box are parameters.

Behaviours of the code a reader might not expect:

- A given `width` prop wins over `height`, and derives a height 6/5 of the width, so the
  window is taller than wide. The launchers' default props, 600 and 500, open a 600 x 720
  window. Both window models use the size as written; the correction listed under Findings
  is kept beside it.
- Restore, maximize and focus on an unknown id leave the records alone but still focus that id.
- `getWindowZIndex` falls back to the base when the stored z-index is 0, because it uses `||`.
- A window mounted without a spawn point starts with its top-left corner at the viewport
  centre. The `x`/`y` props only feed the end point of the spawn animation.
- A press on the title bar focuses the window twice. The title bar focuses it, and the press
  then bubbles to the window's own handler, which focuses it again.

## Model

| member | source | states |
|---|---|---|
| WindowManager.Initial | apps/web/src/components/window-manager.tsx:46-52 | a new provider has no records, an empty iteration order, no focus and no close calls, and its counter starts at the base |
| WindowManager.Register | apps/web/src/components/window-manager.tsx:54-65 | stores a fresh, unminimized, unmaximized record at the old counter, replacing any earlier one; raises the counter by one; focuses the id and puts it on top; appends a new id to the iteration order and leaves a known id in its place; keeps the other records and the invariant |
| WindowManager.Unregister | apps/web/src/components/window-manager.tsx:67-80 | removes only `id`, from the records and from the iteration order, where the other ids keep their order; focus becomes none exactly when it was `id`; the counter stays |
| WindowManager.Close | apps/web/src/components/window-manager.tsx:82-88 | logs the stored callback only when a record with one exists, then unregisters: `id` is gone, the focus becomes none exactly when it was `id`, the counter and the others stay |
| WindowManager.Minimize | apps/web/src/components/window-manager.tsx:90-106 | on a stored id, sets only `minimized` and leaves every other field and record alone; the focus becomes none when it was `id`, present or not, and otherwise stays |
| WindowManager.Restore | apps/web/src/components/window-manager.tsx:108-120 | clears both flags and gives a fresh top z-index to a stored id; focuses `id` whether or not it is stored |
| WindowManager.Maximize | apps/web/src/components/window-manager.tsx:122-134 | toggles `maximized`, clears `minimized`, gives a fresh top z-index; focuses `id` even when unknown |
| WindowManager.Focus | apps/web/src/components/window-manager.tsx:136-148 | changes only that record's z-index, to a fresh top one; focuses `id` even when unknown |
| WindowManager.GetWindowZIndex | apps/web/src/components/window-manager.tsx:150-153 | the base for an absent id; never below the base; the stored z-index when the base is positive |
| WindowManager.TopReportsHighestZIndex | apps/web/src/components/window-manager.tsx:150-153 | the window on top reports a higher z-index than any other stored window |
| WindowManager.MinimizeFocusedClearsFocus | apps/web/src/components/window-manager.tsx:90-106 | minimizing the focused window leaves no window focused, whether or not it is stored, and reports it minimized exactly when it is stored |
| WindowManager.QueriesAfterOperations | apps/web/src/components/window-manager.tsx:155-167 | `isWindowFocused`, `isWindowMinimized` and `isWindowMaximized` right after each operation: a registered or restored window is focused and neither minimized nor maximized; a minimized one is not focused and is minimized exactly when stored; maximize focuses and toggles the maximized report of a stored window; focus leaves both flags; after unregistering all three are false |
| WindowManager.UnregisterIdempotent | apps/web/src/components/window-manager.tsx:67-80 | unregistering twice is the same as unregistering once |
| WindowManager.SecondCloseInvokesNothing | apps/web/src/components/window-manager.tsx:82-88 | a second close finds no record and invokes no callback |
| WindowManager.CloseTwiceInvokesCallbackOnce | apps/web/src/components/window-manager.tsx:54-88 | after registering with a callback, two closes invoke it exactly once |
| WindowManager.UnknownIdLeavesRecords | apps/web/src/components/window-manager.tsx:90-148 | on an unknown id, minimize, restore, maximize and focus leave the records and the counter alone; restore, maximize and focus change only the focus |
| WindowManager.StepSpec | apps/web/src/components/window-manager.tsx:52-148 | every operation keeps the invariant and never lowers the counter; each one that raises a window bumps it by one |
| WindowManager.RunSpec | apps/web/src/components/window-manager.tsx:52-148 | any sequence of operations keeps the invariant and never lowers the counter |
| WindowManager.LaterRaiseGetsHigherZIndex | apps/web/src/components/window-manager.tsx:55-141 | a raising call later in a sequence finds a higher counter than an earlier raising call handed out |
| WindowManager.LaterRaiseStoresHigherZIndex | apps/web/src/components/window-manager.tsx:55-141 | of two raising calls in a sequence, the window raised later is stored with a higher z-index than the one raised earlier, each read right after its own call |
| WindowManager.LastRaisedIsTop | apps/web/src/components/window-manager.tsx:52-148 | after any history, the window raised last is on top of all stored windows |
| WindowManager.WindowRegistry.constructor | apps/web/src/components/window-manager.tsx:46-52 | the provider's fields start as the initial state |
| WindowManager.WindowRegistry.RegisterWindow | apps/web/src/components/window-manager.tsx:54-65 | updates the fields as `Register` does and returns the z-index it stored |
| WindowManager.WindowRegistry.UnregisterWindow | apps/web/src/components/window-manager.tsx:67-80 | updates the fields as `Unregister` does |
| WindowManager.WindowRegistry.CloseWindow | apps/web/src/components/window-manager.tsx:82-88 | invokes the stored callback, then unregisters, as `Close` does |
| WindowManager.WindowRegistry.MinimizeWindow | apps/web/src/components/window-manager.tsx:90-106 | updates the fields as `Minimize` does |
| WindowManager.WindowRegistry.RestoreWindow | apps/web/src/components/window-manager.tsx:108-120 | updates the fields as `Restore` does |
| WindowManager.WindowRegistry.MaximizeWindow | apps/web/src/components/window-manager.tsx:122-134 | updates the fields as `Maximize` does |
| WindowManager.WindowRegistry.FocusWindow | apps/web/src/components/window-manager.tsx:136-148 | updates the fields as `Focus` does |
| Taskbar.MinimizedIds | apps/web/src/components/taskbar.tsx:9-11 | an id is listed exactly when it is in the iteration order and its record is minimized; the list keeps the iteration order (a subsequence of it) and lists no id twice |
| Taskbar.MinimizedWindows | apps/web/src/components/taskbar.tsx:9-11 | for a well-formed registry, lists exactly the minimized windows, each once, in iteration order |
| Taskbar.EntryFor | apps/web/src/components/taskbar.tsx:20-38 | the label is the title, or "Window" when the title is absent or empty; a tooltip exists exactly when the title is non-empty |
| Taskbar.Render | apps/web/src/components/taskbar.tsx:9-40 | renders nothing exactly when no window is minimized; otherwise one entry per minimized window, in iteration order, each the `EntryFor` of that window's record |
| Taskbar.RestoreRemovesEntry | apps/web/src/components/taskbar.tsx:28 | after restoring `id`, the list is the old list without `id`, with the others in the same order |
| Taskbar.RestoreTakesEntryOff | apps/web/src/components/taskbar.tsx:28 | after `restoreWindow(id)`, `id` is gone from the taskbar and the other entries keep their order |
| Taskbar.OnEntryClick | apps/web/src/components/taskbar.tsx:28 | a click restores that entry's window, which leaves the taskbar |
| Geometry.DragPosition | apps/web/src/components/windows/window.tsx:209-221 | the position is never negative; it stays inside the viewport when the viewport can hold the window; it follows the pointer minus the offset when that is in range, is clamped to 0 below it and to the viewport's size minus the window's past it; on an axis where the window is larger than the viewport it is 0 |
| Geometry.DragPreservesFit | apps/web/src/components/windows/window.tsx:209-221 | a drag keeps the size and keeps a fitting window fitting |
| Geometry.DragClampExample | apps/web/src/components/window.tsx:89-101 | a 600 x 500 window dragged far out of a 1920 x 1080 viewport ends at (0, 0) or (1320, 580) |
| Geometry.CalculateDimensionsFromAR | apps/web/src/components/windows/window.tsx:67-81 | a given width below 300 is rejected and, without a width, a given height below 200; a given width of at least 300 succeeds with that width and a height of 6/5 of it, whatever the height prop; a height alone succeeds with that height and a width of 6/5 of it; neither prop gives 600 x 500; 0 counts as absent |
| Geometry.AsWrittenWidthOnlyInvertsRatio | apps/web/src/components/windows/window.tsx:71 | as written, the launchers' props 600 and 500, or a width of 600 alone, give 600 x 720, while a height of 500 alone gives 600 x 500 |
| Geometry.CalculateDimensionsIntended | apps/web/src/components/windows/window.tsx:67-81 | the size with the width-only case corrected: the same rejections, and every result keeps the given side and has the 6 : 5 shape of the defaults |
| Geometry.CorrectionOnlyChangesWidthOnlyCase | apps/web/src/components/window.tsx:48-62 | the corrected size agrees with the code as written except when a valid width is given |
| WindowInstance.AnchoredEdge | apps/web/src/components/windows/window.tsx:244-250 | the opposite edge stays fixed and the moved edge is never negative; the size stays at least the minimum when the anchor allows it; the edge follows the pointer when in range, stops at 0 (the size becoming the anchor) below it, and at the minimum's distance from the anchor above it; an anchor closer to 0 than the minimum puts the edge at 0 |
| WindowInstance.FarEdge | apps/web/src/components/windows/window.tsx:252-262 | the start stays; the far edge never passes the viewport; the size follows the pointer when in range, is the minimum below it and the distance to the viewport's edge past it, when the viewport allows the minimum; when it does not, the size is the distance to the viewport's edge |
| WindowInstance.AnchoredStep | apps/web/src/components/windows/window.tsx:264-270 | the statements of a top or left handle compute exactly `AnchoredEdge` |
| WindowInstance.FarStep | apps/web/src/components/windows/window.tsx:252-256 | the statements of a right or bottom handle compute exactly `FarEdge` |
| WindowInstance.ResizeBox | apps/web/src/components/windows/window.tsx:243-314 | per handle: a left or top handle keeps the right or bottom edge with a non-negative start; a right or bottom handle keeps the position inside the viewport; an axis no handle touches is unchanged |
| WindowInstance.ResizePreservesFit | apps/web/src/components/windows/window.tsx:243-318 | a resize from any handle keeps a fitting window fitting, at least the minimum size |
| WindowInstance.CornerIsTwoEdges | apps/web/src/components/windows/window.tsx:272-313 | each corner handle is its two edge rules composed |
| WindowInstance.TopLeftExample | apps/web/src/components/windows/window.tsx:301-313 | top-left from (100,100) 400 x 300 to (150,150) gives (150,150) 350 x 250 |
| WindowInstance.TargetCoordinates | apps/web/src/components/windows/window.tsx:105-110 | the `x`/`y` props when present, else the position that centres the window |
| WindowInstance.Render | apps/web/src/components/windows/window.tsx:336-360 | renders exactly when the record exists and is not minimized; a maximized window fills the viewport; the `z` prop overrides the registry's z-index |
| WindowInstance.Window.constructor | apps/web/src/components/windows/window.tsx:95-113 | the window starts idle at its initial position and size |
| WindowInstance.Window.OnMount | apps/web/src/components/windows/window.tsx:143-144 | mounting registers the window, which then renders on top |
| WindowInstance.Window.OnUnmount | apps/web/src/components/windows/window.tsx:145-147 | unmounting unregisters the window |
| WindowInstance.Window.OnWindowMouseDown | apps/web/src/components/windows/window.tsx:371 | a press focuses the window and puts it on top |
| WindowInstance.Window.OnTitleBarMouseDown | apps/web/src/components/windows/window.tsx:379-391 | focuses the window twice; enters drag mode with the pointer's offset only when not maximized; the geometry stays |
| WindowInstance.Window.StartDrag | apps/web/src/components/windows/window.tsx:382-389 | enters drag mode with the pointer's offset from the corner and keeps the geometry |
| WindowInstance.Window.OnResizeHandleMouseDown | apps/web/src/components/windows/window.tsx:434-525 | focuses the window and enters resize mode for the handle; handles exist only when not maximized |
| WindowInstance.Window.OnCloseClick | apps/web/src/components/windows/window.tsx:393-398 | closes the window through the registry, after which it no longer renders |
| WindowInstance.Window.OnMinimizeClick | apps/web/src/components/windows/window.tsx:402-411 | restores a minimized window and minimizes any other |
| WindowInstance.Window.OnMaximizeClick | apps/web/src/components/windows/window.tsx:415-420 | toggles maximized through the registry |
| WindowInstance.Window.HandleMouseMove | apps/web/src/components/windows/window.tsx:204-320 | dragging moves to `DragPosition` and keeps the size; otherwise the new geometry is `ResizeBox` for the held handle; when idle, nothing changes; the mode stays |
| WindowInstance.Window.HandleMouseUp | apps/web/src/components/windows/window.tsx:322-325 | returns to idle and keeps the geometry |
| WindowInstance.Create | apps/web/src/components/windows/window.tsx:67-113 | a rejected size aborts the mount with that error; otherwise the window is idle at its initial position with the derived size |
| LegacyWindow.LegacyAnchoredEdge | apps/web/src/components/window.tsx:114-118 | the start is never negative and the size is at least the minimum; the far edge stays exactly when the window reaches the minimum from 0; the edge follows the pointer when in range, sits at 0 below it and at the minimum's distance from the far edge above it; a far edge closer to 0 than the minimum gives start 0 and the minimum size |
| LegacyWindow.LegacyFarEdge | apps/web/src/components/window.tsx:120-125 | the start stays and the size is always at least the minimum; the size follows the pointer when in range, is capped at the viewport's edge past it, and is the minimum when the pointer or the viewport is closer than that |
| LegacyWindow.LegacyAnchoredStep | apps/web/src/components/window.tsx:126-130 | the statements of a top or left handle compute exactly `LegacyAnchoredEdge` |
| LegacyWindow.LegacyFarStep | apps/web/src/components/window.tsx:120-122 | the statement of a right or bottom handle computes exactly `LegacyFarEdge` |
| LegacyWindow.LegacyResizeBox | apps/web/src/components/window.tsx:109-163 | per handle: sizes on a moved axis are at least the minimum; left and top starts are non-negative; right and bottom keep the position; untouched axes are unchanged |
| LegacyWindow.LegacyTopLeftKeepsCorner | apps/web/src/components/window.tsx:150-157 | the top-left handle keeps both the right and the bottom edge |
| LegacyWindow.VersionsAgreeOnFittingWindows | apps/web/src/components/window.tsx:109-163 | on a fitting window, the earlier and the current resize give the same box for every handle |
| LegacyWindow.VersionsDifferNearTheEdge | apps/web/src/components/window.tsx:120-122 | near the right edge, the earlier version keeps width 300 past the viewport while the current one shrinks to 120 |
| LegacyWindow.LegacyResizePreservesFit | apps/web/src/components/window.tsx:109-163 | the earlier resize also keeps a fitting window fitting |
| LegacyWindow.Window.constructor | apps/web/src/components/window.tsx:72-81 | the position defaults to (100, 100) per axis, and the window starts idle |
| LegacyWindow.Window.OnTitleBarMouseDown | apps/web/src/components/window.tsx:200-209 | always enters drag mode with the pointer's offset |
| LegacyWindow.Window.OnResizeHandleMouseDown | apps/web/src/components/window.tsx:226-290 | enters resize mode for the handle |
| LegacyWindow.Window.HandleMouseMove | apps/web/src/components/window.tsx:84-165 | dragging moves to `DragPosition`; otherwise the new geometry is `LegacyResizeBox`; when idle, nothing changes |
| LegacyWindow.Window.HandleMouseUp | apps/web/src/components/window.tsx:167-170 | returns to idle and keeps the geometry |
| LegacyWindow.Create | apps/web/src/components/window.tsx:48-81 | a rejected size aborts the mount; otherwise the window is idle at the default position with the derived size |
| PostForm.LowerChar | apps/web/src/app/dashboard/page.tsx:128 | capitals become small letters; other ASCII characters and whitespace stay |
| PostForm.LowerCaseAscii | apps/web/src/app/dashboard/page.tsx:128 | on ASCII text, lowering keeps the length and maps each capital to its small letter |
| PostForm.DashWhitespaceShape | apps/web/src/app/dashboard/page.tsx:129 | no whitespace is left; text without whitespace is unchanged; the letters and digits stay in order |
| PostForm.DashWhitespaceRun | apps/web/src/app/dashboard/page.tsx:129 | a whitespace run between two non-whitespace characters becomes exactly one dash, and the text on either side is handled as if apart |
| PostForm.KeepSlugCharsShape | apps/web/src/app/dashboard/page.tsx:130 | only `[a-z0-9-]` is left; text made of it is unchanged; the letters and digits stay in order |
| PostForm.KeepSlugCharsAt | apps/web/src/app/dashboard/page.tsx:130 | wherever it stands, a `[a-z0-9-]` character, a dash included, is kept in its place and any other character is dropped without touching its neighbours |
| PostForm.CollapseDashesShape | apps/web/src/app/dashboard/page.tsx:131 | keeps text within `[a-z0-9-]`; leaves no two dashes in a row; keeps the letters and digits |
| PostForm.CollapseDashesRun | apps/web/src/app/dashboard/page.tsx:131 | a run of dashes between two non-dash characters becomes exactly one dash, and the text on either side is handled as if apart |
| PostForm.TrimDashes | apps/web/src/app/dashboard/page.tsx:132 | the input is the result with at most one dash put back at the start and at most one at the end, each exactly when the input starts or ends with a dash (a lone dash counts once) |
| PostForm.TrimDashesShape | apps/web/src/app/dashboard/page.tsx:132 | keeps text within `[a-z0-9-]` and the letters and digits; on text without double dashes, leaves no dash at either end and no double dash |
| PostForm.SlugShape | apps/web/src/app/dashboard/page.tsx:127-132 | any slug holds only `[a-z0-9-]`, has no double dash and no dash at either end |
| PostForm.SlugKeepsAlnums | apps/web/src/app/dashboard/page.tsx:127-132 | the slug's letters and digits are those of the lowered title, in order |
| PostForm.SlugEmptyIff | apps/web/src/app/dashboard/page.tsx:127-132 | the slug is empty exactly when the lowered title has no letter or digit |
| PostForm.SlugIdempotent | apps/web/src/app/dashboard/page.tsx:127-132 | deriving a slug from a slug changes nothing |
| PostForm.SlugSeparator | apps/web/src/app/dashboard/page.tsx:127-132 | for two titles with non-empty slugs, joining them with any non-empty run of whitespace and dashes gives the two slugs joined by exactly one dash |
| PostForm.SlugOfWord | apps/web/src/app/dashboard/page.tsx:127-132 | a title of ASCII letters and digits only gives its lower-cased self: nothing is inserted and nothing dropped |
| PostForm.Issues | apps/web/src/app/dashboard/page.tsx:86-108 | reports exactly the rules the post breaks, each once; an empty slug breaks both slug rules |
| PostForm.ValidPost | apps/web/src/app/dashboard/page.tsx:86-108 | valid exactly when the title has 1..128 characters, the slug matches `^[a-z0-9-]+$`, the body is non-empty, a present excerpt has at most 255 characters and the format is markdown or html |
| PostForm.HandleTitleChange | apps/web/src/app/dashboard/page.tsx:123-135 | stores the title unchanged, overwrites the slug with the derived one and keeps the other fields |
| PostForm.TitleChangeSlugRules | apps/web/src/app/dashboard/page.tsx:86-135 | after a title change the slug passes its rules exactly when the title has a letter or digit; such a title of 1..128 characters makes an otherwise valid post valid |
| ImageUpload.CheckFile | apps/web/src/app/dashboard/image-upload.tsx:60-78 | accepts exactly the allowed types up to 5 MiB inclusive; a non-image is refused first, whatever its size; then an oversize file; then a type outside the list |
| ImageUpload.CheckFileExamples | apps/web/src/app/dashboard/image-upload.tsx:62-78 | exactly 5 MiB passes and one more byte fails; huge text is refused as not an image; SVG is refused by the type list, or by size when too large |
| ImageUpload.ImageUploader.constructor | apps/web/src/app/dashboard/image-upload.tsx:18-20 | starts without highlight, with nothing passed on and no toast |
| ImageUpload.ImageUploader.HandleFile | apps/web/src/app/dashboard/image-upload.tsx:60-83 | passes the file on exactly once when every check holds; otherwise shows only the first failing check's error; everything passed on has passed the checks |
| ImageUpload.ImageUploader.HandleDrag | apps/web/src/app/dashboard/image-upload.tsx:33-41 | enter and over set the highlight, leave clears it, and nothing else changes; ignored when the handlers are not attached |
| ImageUpload.ImageUploader.HandleDrop | apps/web/src/app/dashboard/image-upload.tsx:43-51 | clears the highlight and handles the first dropped file, if any |
| ImageUpload.ImageUploader.HandleChange | apps/web/src/app/dashboard/image-upload.tsx:53-58 | handles the first chosen file, if any, and leaves the highlight alone |
| ImageUpload.ImageUploader.RemoveImage | apps/web/src/app/dashboard/image-upload.tsx:85-87 | passes on "no image" when a preview is shown |

## Left out

- The spawn animation: its timers, animation frames and logarithmic easing are cosmetic and
  driven by time. The scale-in flag goes with it.
- Reads of the viewport size and centre, and of the title bar's bounding box: these are
  parameters. The server-side fallback centre (400, 300) goes with them.
- Console logging, CSS classes and JSX structure beyond what decides rendering.
- React scheduling. Each registry operation sees the latest state. `closeWindow` in fact reads
  the map of the last render, so two closes within one update could both see the record. The
  double run of state updaters in strict mode is not modelled either.
- Re-registration when a window's `title` or `onClose` prop changes: the effect unregisters and
  registers again. This is the sequence Unregister then Register, which the model has, but the
  prop change itself is not modelled.
- The earlier window's `setPosition` call inside the size updater: the model writes position and
  size together.
- `useWindowManager` throwing outside its provider: this is context wiring.
- The launchers in apps/web/src/components/app.tsx and apps/web/src/components/windows/app.tsx,
  the markdown preview, all server code and the app's wiring files.
  apps/web/src/components/windows/window-manager.tsx is not part of this model; the registry
  modelled is apps/web/src/components/window-manager.tsx.
- The image picker's preview URL: the model treats the preview as shown exactly when the
  `value` prop holds a file, and keeps `value` fixed for one rendering.
- The image picker's drop and change handlers capture the first rendering's file handler; the
  model uses the current `onChange`.
- The image form's submit, the post form's submit and the toast texts: these are I/O.
- Floating-point rounding: pixel arithmetic is exact over `real`.
- WindowManager.GetWindowZIndex: only states that it returns the stored z-index when the base
  is positive. With a base of 0 or below, a stored 0 falls back to the base, as the code does.
- PostForm.LowerChar: maps only the characters whose lower case can reach the slug (ASCII
  capitals, U+0130 and U+212A). Other characters are kept as they are. Their real lower case
  is neither in `[a-z0-9-]` nor whitespace, so the slug is the same either way.
- PostForm.Issues: lengths count Unicode code points. The schema counts UTF-16 code units, so
  a title with characters outside the Basic Multilingual Plane may be judged differently.
- The `coverImageId` replacement on submit, and the schema's `meta` field: they belong to the
  submit path.

## Findings

| source | as written | input that shows it | evidently intended | confidence | as-written member | corrected member |
|---|---|---|---|---|---|---|
| apps/web/src/components/windows/window.tsx:71 (identical at apps/web/src/components/window.tsx:52) | with only a width, the height is `width * DEFAULT_ASPECT_RATIO`, where the ratio is width / height = 1.2 | the launchers' `width = 600, height = 500` gives 600 x 720, while no props give 600 x 500 and `height = 500` alone gives 600 x 500 | height = width / 1.2, keeping the 6 : 5 shape of the defaults and of the height-only case | not executed | Geometry.CalculateDimensionsFromAR, Geometry.AsWrittenWidthOnlyInvertsRatio | Geometry.CalculateDimensionsIntended, Geometry.CorrectionOnlyChangesWidthOnlyCase |
