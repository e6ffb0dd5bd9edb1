# MapMaker editor core, modelled in Dafny

MapMaker is a small JavaFX map editor. The map area is a pane whose ordered list of children
holds polygons ("rooms"), their control points (circles) and a selection rectangle. Mouse press,
drag and release handlers edit that list according to the tool held in a shared tool state (a
tool and an integer option). The application window sets the tool state from a toolbar and a Room
submenu, shows the tool and the option in two status labels, clears the map, and loads a saved
map by grouping the file's lines by five, one group per polygon.

This project models that core:

- `options.dfy`, module `Options`: the optional value used for the active polygon and the
  dialog's result.
- `strings.dfy`, module `Strings`: the two ways the editor joins texts.
  - `Prefixed` puts the separator before every part.
  - `Join` puts one separator between consecutive parts.
- `tools.dfy`, module `Tools`:
  - the tool enum;
  - the state as a value (`Setting`) with the effects of its setters;
  - the class `ToolState` with its two fields.
- `scene.dfy`, module `Scene`: the nodes of the display list (`Node`) and the list operations the
  handlers use.
  - `RemoveFirst` is a list's `remove(Object)`; `Exclude` is `removeAll`; `Shapes` is the filter
    for polygons.
  - `WellFormed` is the invariant of the display list: identities come from a counter, no
    polygon or control point is shown twice (the selection rectangle is exempt, see "Left out"),
    and the active polygon's control points are not shown yet.
  - `Loaded` gives the nodes that loading adds.
  - `MapText` gives the saved text form.
- `canvas.dfy`, module `Canvas`: the class `MapArea`.
  - Its fields are `children`, `activeShape`, the anchor `(startX, startY)`, and a counter
    `nextId` that stands for object allocation.
  - Its methods are the three mouse handlers, `activeTool`, `convertToString`,
    `convertFromString` and `clearMap`.
- `lines.dfy`, module `Lines`:
  - the 5-line grouping of `loadMap`. `Grouping` is the reference definition, and the method
    `GroupLines` is the counter-driven loop;
  - the `reduce` fold of `loadFile`.
- `inputs.dfy`, module `Inputs`:
  - `getOption` with its fall-through switch;
  - the pattern `([1-9][0-9]*)` as a matcher, proved equal to a hand-written predicate;
  - the input dialog's listener rule, and its callback rule as the class `InputDialog`.
- `shell.dfy`, module `Shell`: the class `MapMaker`.
  - It holds the one tool state, the map area (which holds the same tool state object) and the
    two status label texts.
  - Its methods are the toolbar buttons, the Room submenu items, Clear, and loading a map.

How the model is built:

- **Object identity.** A polygon's object identity is `Shape.id`, handed out by the counter.
  Control points are named by their owner's identity and their position. `Distinct` says that no
  polygon or control point is shown twice.
- **Event targets.** A mouse event's target is the map area itself or a node. A gesture keeps
  the node pressed first as the target of all its events, so that node may already have been
  removed (a second release on an erased polygon then changes nothing). The handlers that read
  the target (`DragClick`, `ReleaseClick`, `EraseTarget`) require only that it agrees with
  whatever the list shows under the same identity.
- **Exceptions.** An exception a handler ends with is an `Outcome` of `Thrown(...)`. The state at
  that point is what the Java code leaves behind:
  - Erase on a target that is not a polygon has already done `children.remove(target)` before
    the cast fails;
  - a handler that throws skips `activeShape = null`;
  - a Move drag whose cast fails keeps the old anchor.
- **The polygon class.** Its code is not part of this model. It enters as three functions in
  `Polygons`: the control-point count for a side count, the side count and control-point count
  read from a group of lines, and the text form of a polygon.
- **Key order.** Loading visits the keys of a `HashMap` in an order the map does not specify.
  `KeyOrder` chooses it nondeterministically, and `ConvertFromString` returns the order taken.
  Its contract holds for every such order.

Two points where the code is followed as written:

- **The trailing group is kept.** `Collectors.groupingBy(l -> index.getAndIncrement() / 5)` keeps
  the last group of `n % 5` lines. Twelve lines therefore give three groups, the last of two
  lines (`Lines.TwelveLines`), and each group is passed to the polygon constructor. What that
  constructor makes of a short group is up to the polygon class, which enters the model only
  through `Polygons.parse`, taken to be total.
- **`getOption` always shows `{}`.** The switch in `getOption` has no `break`, so every case falls
  through to the default. The label is `"{}"` for every option, the side counts 2 to 6 included
  (`Inputs.OptionLabel`). The model keeps this behaviour.

## Model

Source paths are relative to the repository root.

| member | source | states |
|---|---|---|
| Tools.WithTool | MapMakerAssignment/src/mapmaker/ToolStateSkeleton.java:57-60 | choosing a tool gives that tool with option 0, whatever the previous option |
| Tools.WithOption | MapMakerAssignment/src/mapmaker/ToolStateSkeleton.java:78-80 | setting the option changes only the option, with no bounds check |
| Tools.ToolThenOption | MapMakerAssignment/src/mapmaker/ToolStateSkeleton.java:57-80 | `setTool(t); setOption(n)` gives (t, n) |
| Tools.OptionThenTool | MapMakerAssignment/src/mapmaker/ToolStateSkeleton.java:57-80 | `setOption(n); setTool(t)` gives (t, 0): the option is lost |
| Tools.WithToolIdempotent | MapMakerAssignment/src/mapmaker/ToolStateSkeleton.java:57-60 | choosing the same tool twice is choosing it once |
| Tools.ToolState.constructor | MapMakerAssignment/src/mapmaker/ToolStateSkeleton.java:24-31 | the initial state is (Room, 0) |
| Tools.ToolState.SetTool | MapMakerAssignment/src/mapmaker/ToolStateSkeleton.java:57-60 | the new state is `WithTool` of the old one |
| Tools.ToolState.GetTool | MapMakerAssignment/src/mapmaker/ToolStateSkeleton.java:68-70 | returns the stored tool and changes nothing |
| Tools.ToolState.SetOption | MapMakerAssignment/src/mapmaker/ToolStateSkeleton.java:78-80 | the new state is `WithOption` of the old one; only the option field may change |
| Tools.ToolState.GetOption | MapMakerAssignment/src/mapmaker/ToolStateSkeleton.java:88-90 | returns the stored option and changes nothing |
| Strings.Join | MapMakerAssignment/src/mapmaker/MapAreaSkeleton.java:248 | the joining collector: no parts give "", one part gives that part alone; `JoinAppend` and `JoinSnoc` state where the separators go |
| Strings.PrefixedAppend | MapMakerAssignment/src/mapmaker/MapMakerSkeleton.java:316 | the separator-before-each-part text of two part lists is the two texts concatenated |
| Strings.PrefixedIsSepThenJoin | MapMakerAssignment/src/mapmaker/MapMakerSkeleton.java:316 | for at least one part it is the separator followed by the joined parts |
| Strings.JoinAppend | MapMakerAssignment/src/mapmaker/MapAreaSkeleton.java:248 | joining two non-empty lists puts exactly one separator at the seam |
| Strings.JoinSnoc | MapMakerAssignment/src/mapmaker/MapAreaSkeleton.java:248 | joining one more part appends the separator and the part |
| Scene.ControlPoints | MapMakerAssignment/src/mapmaker/MapAreaSkeleton.java:204-209 | a polygon's control points are exactly the points it owns below its corner count, one per position |
| Scene.Shapes | MapMakerAssignment/src/mapmaker/MapAreaSkeleton.java:240-244 | the polygons kept by the filter are exactly the polygons of the list, never more than the list's length |
| Scene.ShapesAppend | MapMakerAssignment/src/mapmaker/MapAreaSkeleton.java:240-244 | the filter keeps the display order |
| Scene.ShapesNone | MapMakerAssignment/src/mapmaker/MapAreaSkeleton.java:240-244 | a list without polygons yields no polygons |
| Scene.Exclude | MapMakerAssignment/src/mapmaker/MapAreaSkeleton.java:204 | `removeAll` keeps exactly the nodes not in the removed list |
| Scene.ExcludeAppend | MapMakerAssignment/src/mapmaker/MapAreaSkeleton.java:204 | `removeAll` keeps the relative order of what stays |
| Scene.ExcludeNothing | MapMakerAssignment/src/mapmaker/MapAreaSkeleton.java:204 | removing nodes a list does not hold leaves it unchanged |
| Scene.ExcludeTwice | MapMakerAssignment/src/mapmaker/MapAreaSkeleton.java:203-204 | two removals in a row are one removal of both lists |
| Scene.RemoveFirst | MapMakerAssignment/src/mapmaker/MapAreaSkeleton.java:195 | `remove(Object)` shortens the list by one when the node is present, changes nothing when it is absent, and adds nothing |
| Scene.RemoveFirstBag | MapMakerAssignment/src/mapmaker/MapAreaSkeleton.java:195 | `remove(Object)` takes out exactly one occurrence of the node |
| Scene.RemoveFirstAt | MapMakerAssignment/src/mapmaker/MapAreaSkeleton.java:195 | it takes out the first occurrence and keeps everything else in order |
| Scene.RemoveFirstDistinct | MapMakerAssignment/src/mapmaker/MapAreaSkeleton.java:203 | in a list without repetitions removing a node other than the selection rectangle equals excluding it |
| Scene.SelectRoundTrip | MapMakerAssignment/src/mapmaker/MapAreaSkeleton.java:104-199 | a Select press followed by its release restores the list when no selection rectangle was shown before |
| Scene.SameId | MapMakerAssignment/src/mapmaker/MapAreaSkeleton.java:115-116 | in a list without repetitions two polygons with the same identity are the same polygon |
| Scene.RemoveWellFormed | MapMakerAssignment/src/mapmaker/MapAreaSkeleton.java:195-203 | `remove` keeps the invariant |
| Scene.ExcludeWellFormed | MapMakerAssignment/src/mapmaker/MapAreaSkeleton.java:204 | `removeAll` keeps the invariant |
| Scene.AddRectWellFormed | MapMakerAssignment/src/mapmaker/MapAreaSkeleton.java:106 | adding the selection rectangle keeps the invariant |
| Scene.AddPolygonWellFormed | MapMakerAssignment/src/mapmaker/MapAreaSkeleton.java:115-116 | adding a new polygon and making it active keeps the invariant |
| Scene.ReleaseWellFormed | MapMakerAssignment/src/mapmaker/MapAreaSkeleton.java:208-216 | showing the active polygon's control points and dropping it keeps the invariant |
| Scene.EraseIsExclude | MapMakerAssignment/src/mapmaker/MapAreaSkeleton.java:203-204 | `remove` of the polygon followed by `removeAll` of its control points is one exclusion of polygon and points |
| Scene.EraseFrame | MapMakerAssignment/src/mapmaker/MapAreaSkeleton.java:201-204 | erasing a shown polygon removes it and its control points, and keeps every other polygon and that polygon's control points |
| Scene.Loaded | MapMakerAssignment/src/mapmaker/MapAreaSkeleton.java:259-268 | the nodes loading adds, first the polygon of the first group; it is empty exactly when there are no groups; `LoadedSnoc`, `LoadedFresh` and `LoadedShapes` state the rest |
| Scene.LoadedSnoc | MapMakerAssignment/src/mapmaker/MapAreaSkeleton.java:265-268 | loading one more group appends its polygon and its control points |
| Scene.LoadedStep | MapMakerAssignment/src/mapmaker/MapAreaSkeleton.java:265-268 | the same after any existing nodes |
| Scene.LoadedFresh | MapMakerAssignment/src/mapmaker/MapAreaSkeleton.java:263 | loaded nodes are new objects and none appears twice |
| Scene.LoadedWellFormed | MapMakerAssignment/src/mapmaker/MapAreaSkeleton.java:259-268 | loading after a well-formed list keeps the invariant |
| Scene.BlockShapes | MapMakerAssignment/src/mapmaker/MapAreaSkeleton.java:266-267 | a polygon and its control points hold exactly one polygon |
| Scene.LoadedShapes | MapMakerAssignment/src/mapmaker/MapAreaSkeleton.java:259-268 | loading adds one polygon per group, the i-th built from the i-th group visited |
| Scene.MapText | MapMakerAssignment/src/mapmaker/MapAreaSkeleton.java:238-248 | the saved text: "" when no polygon is shown, one polygon's own text form when exactly one is; `MapTextSkips` and `MapTextAppend` state the filter and the joining |
| Scene.MapTextNoShapes | MapMakerAssignment/src/mapmaker/MapAreaSkeleton.java:238-248 | a list without polygons, the empty list among them, saves as "" |
| Scene.MapTextSkips | MapMakerAssignment/src/mapmaker/MapAreaSkeleton.java:242 | a node that is not a polygon does not show in the saved text |
| Scene.MapTextAppend | MapMakerAssignment/src/mapmaker/MapAreaSkeleton.java:248 | the saved text of two lists with polygons is the two texts with one separator between |
| Scene.MapTextSingle | MapMakerAssignment/src/mapmaker/MapAreaSkeleton.java:246-248 | a single polygon saves as its own text form |
| Canvas.MapArea.constructor | MapMakerAssignment/src/mapmaker/MapAreaSkeleton.java:63-69 | a new map area holds the given tool state, an empty list and no active polygon |
| Canvas.MapArea.ActiveTool | MapMakerAssignment/src/mapmaker/MapAreaSkeleton.java:226-228 | returns the shared state's tool |
| Canvas.MapArea.PressClick | MapMakerAssignment/src/mapmaker/MapAreaSkeleton.java:92-122 | the anchor becomes the event position for every tool; Door, Move, Path and Erase change nothing else; Select appends the rectangle; Room appends one new polygon with the current option as side count and makes it active; the invariant holds |
| Canvas.MapArea.DragClick | MapMakerAssignment/src/mapmaker/MapAreaSkeleton.java:134-173 | the list never changes; Move on a polygon moves the anchor to the event position, Move on anything else throws ClassCastException with the anchor kept; Room throws NullPointerException without an active polygon |
| Canvas.MapArea.ReleaseClick | MapMakerAssignment/src/mapmaker/MapAreaSkeleton.java:185-217 | Door, Move and Path leave the list; Select removes the rectangle; Erase removes the polygon and exactly its control points, or throws ClassCastException after removing a non-polygon target; Room appends the active polygon's control points or throws NullPointerException; the active polygon is cleared exactly when nothing was thrown; the invariant holds |
| Canvas.MapArea.RemoveSelection | MapMakerAssignment/src/mapmaker/MapAreaSkeleton.java:194-199 | the first selection rectangle leaves the list |
| Canvas.MapArea.EraseTarget | MapMakerAssignment/src/mapmaker/MapAreaSkeleton.java:201-206 | the target leaves the list, then the cast decides between removing its control points and ClassCastException |
| Canvas.MapArea.FinishActive | MapMakerAssignment/src/mapmaker/MapAreaSkeleton.java:207-211 | the active polygon's control points are appended, or NullPointerException without one |
| Canvas.MapArea.ConvertToString | MapMakerAssignment/src/mapmaker/MapAreaSkeleton.java:238-249 | a list without polygons gives "", a list with one polygon gives its text form |
| Canvas.MapArea.ConvertFromString | MapMakerAssignment/src/mapmaker/MapAreaSkeleton.java:259-270 | every key is visited once; the existing nodes are kept and each visited key's group adds a polygon immediately followed by its control points; the invariant holds |
| Canvas.MapArea.KeyOrder | MapMakerAssignment/src/mapmaker/MapAreaSkeleton.java:261 | the key set hands out every key exactly once |
| Canvas.MapArea.AddLoaded | MapMakerAssignment/src/mapmaker/MapAreaSkeleton.java:263-268 | the loop adds the blocks of all groups in order, one fresh identity each |
| Canvas.MapArea.AddParsed | MapMakerAssignment/src/mapmaker/MapAreaSkeleton.java:263-267 | one group adds its polygon and then its control points |
| Canvas.MapArea.ClearMap | MapMakerAssignment/src/mapmaker/MapAreaSkeleton.java:277-279 | the list is empty afterwards and saves as "" |
| Lines.GroupCount | MapMakerAssignment/src/mapmaker/MapMakerSkeleton.java:361-365 | n lines make n / 5 rounded up groups |
| Lines.Grouping | MapMakerAssignment/src/mapmaker/MapMakerSkeleton.java:360-365 | the keys are exactly 0 up to the group count |
| Lines.GroupingSize | MapMakerAssignment/src/mapmaker/MapMakerSkeleton.java:365 | there are as many groups as the group count |
| Lines.GroupLines | MapMakerAssignment/src/mapmaker/MapMakerSkeleton.java:360-365 | the counter-driven grouping yields exactly `Grouping` of the lines |
| Lines.GroupingSnoc | MapMakerAssignment/src/mapmaker/MapMakerSkeleton.java:361-365 | one more line is appended to the group of key n / 5, opening it when 5 divides n |
| Lines.LinePlacement | MapMakerAssignment/src/mapmaker/MapMakerSkeleton.java:360-365 | the line at position i is line i % 5 of the group under key i / 5 |
| Lines.GroupSizes | MapMakerAssignment/src/mapmaker/MapMakerSkeleton.java:361-365 | every group but the last has five lines; the last has n % 5, or five, and is kept |
| Lines.ConcatGrouping | MapMakerAssignment/src/mapmaker/MapMakerSkeleton.java:361-365 | the groups concatenated in key order give back the lines |
| Lines.TwelveLines | MapMakerAssignment/src/mapmaker/MapMakerSkeleton.java:365 | twelve lines make three groups of 5, 5 and 2 lines |
| Lines.Reduce | MapMakerAssignment/src/mapmaker/MapMakerSkeleton.java:316 | the left fold `reduce(acc, (a, b) -> a + sep + b)`: the accumulator is a prefix of the result, and no lines leave it unchanged; `ReduceIsPrefixed` gives the result |
| Lines.ReduceIsPrefixed | MapMakerAssignment/src/mapmaker/MapMakerSkeleton.java:316 | the fold puts the separator before every line |
| Lines.LoadFile | MapMakerAssignment/src/mapmaker/MapMakerSkeleton.java:313-321 | a read file gives the text `sep+l1+...+sep+ln`: "" when empty, else the separator followed by the joined lines; a file that cannot be opened gives the not-found text with the exception's message; a failure while the lines are read is not caught and escapes as an exception, with no text |
| Inputs.CaseEntry | MapMakerAssignment/src/mapmaker/MapMakerSkeleton.java:215-228 | option k from 2 to 6 enters at its own case, position k - 2 (`case 2` is "Line"), every other value at the default |
| Inputs.FallThrough | MapMakerAssignment/src/mapmaker/MapMakerSkeleton.java:217-230 | entering the break-less cases anywhere ends with the last assignment's value |
| Inputs.OptionLabel | MapMakerAssignment/src/mapmaker/MapMakerSkeleton.java:213-231 | the label is "{}" for every option, 2 to 6 included |
| Inputs.Matches | MapMakerAssignment/src/mapmaker/MapMakerSkeleton.java:61 | whole-text matching of `([1-9][0-9]*)`, as in the listener and the callback (lines 412 and 418): a match is non-empty and starts with 1 to 9; `MatchesPositiveInteger` says exactly which texts match |
| Inputs.MatchesPositiveInteger | MapMakerAssignment/src/mapmaker/MapMakerSkeleton.java:61-68 | the pattern accepts a text exactly when it is a non-empty digit string whose first digit is 1 to 9 |
| Inputs.Filtered | MapMakerAssignment/src/mapmaker/MapMakerSkeleton.java:410-415 | an empty or matching change stands, any other change reverts to the old text, so an empty-or-matching text stays so |
| Inputs.InputDialog.constructor | MapMakerAssignment/src/mapmaker/MapMakerSkeleton.java:406 | the editor starts empty |
| Inputs.InputDialog.Edit | MapMakerAssignment/src/mapmaker/MapMakerSkeleton.java:410-415 | every change is filtered, and the editor text stays empty or matching |
| Inputs.InputDialog.Close | MapMakerAssignment/src/mapmaker/MapMakerSkeleton.java:417-420 | the callback receives the text exactly when the dialog is confirmed with a matching text |
| Shell.Sides | MapMakerAssignment/src/mapmaker/MapMakerSkeleton.java:114-135 | a Room item sets a side count from 2 to 6 |
| Shell.SidesInjective | MapMakerAssignment/src/mapmaker/MapMakerSkeleton.java:114-135 | different items set different side counts |
| Shell.MapMaker.constructor | MapMakerAssignment/src/mapmaker/MapMakerSkeleton.java:90-112 | the map area shares the new tool state (Room, 0), and the labels show "Tool: Room" and "Option: {}" |
| Shell.MapMaker.OptionText | MapMakerAssignment/src/mapmaker/MapMakerSkeleton.java:141 | the option label text is "Option: " and `getOption`, so always "Option: {}" |
| Shell.MapMaker.ClickToolButton | MapMakerAssignment/src/mapmaker/MapMakerSkeleton.java:137-158 | a toolbar button leaves the state at (tool, 0) and shows the tool and "Option: {}" |
| Shell.MapMaker.ChooseRoomShape | MapMakerAssignment/src/mapmaker/MapMakerSkeleton.java:114-135 | a Room item leaves the state at (Room, side count) and shows "Tool: Room", leaving the option label as it was |
| Shell.MapMaker.ClearItem | MapMakerAssignment/src/mapmaker/MapMakerSkeleton.java:96-97 | Clear empties the map area |
| Shell.MapMaker.LoadMap | MapMakerAssignment/src/mapmaker/MapMakerSkeleton.java:353-369 | loading n lines visits every group key once and adds one polygon per group, n / 5 rounded up in all, each built from its group's lines, after the existing nodes |

## Left out

- JavaFX construction and chrome are not modelled, because none of it is editor logic. This covers
  the menus, toolbars, buttons, alerts, the file chooser, CSS, the Escape key handler, and
  `init`/`start`/`stop`/`main`.
- File I/O is not modelled. `Files.lines`, `Files.write`, `createNewFile` and the chooser's `null`
  or missing file become parameters: `LoadFile` takes what the read gave, and `LoadMap` takes the
  lines. The printed stack traces are left out. `saveMap` only writes `convertToString` to a
  file, so it is covered by `ConvertToString`. Open and Save are not wired to their menu items in
  the source, so no model of the menu calls `LoadMap`.
- The polygon class `PolyShapeSkeleton2` is not modelled: its constructors, its text form,
  `registerControlPoints`, `translate` and `reDraw` are outside this model. Its text form and its
  parsing are uninterpreted functions, so the round trip between saving and loading is not stated.
- The selection area's `start`, `end` and `clear` are not modelled; they draw the rectangle. Its
  `containsAny` with an empty consumer does nothing, and it is left out.
- Double-valued geometry is not modelled: the Move deltas and the drawn geometry are floating
  point. Only where the anchor is set is tracked, and the event position is an abstract `Point`.
- The `default` branches that throw `UnsupportedOperationException` cannot be reached, since the
  switch covers every tool.
- A JavaFX list refuses to hold the same node twice. Adding the selection rectangle while
  it is shown would then throw. That check is not modelled: the add is a plain append.
- `REGEX_DECIMAL` and `mousePosition` are not modelled, since nothing uses them. `e.consume()`
  only stops event propagation and is not modelled either.
- `state()` returning one shared instance is not modelled as a static singleton. The one
  `ToolState` object is created by `MapMaker` and given to `MapArea`, and `MapMaker.Valid`
  states that both hold the same object.
- Inputs.InputDialog.Edit: the listener's `setText(oldV)` fires the listener once more. It then
  changes nothing, because the old text was empty or matching, and that second call is not
  written out.
- Lines.LoadFile: `e.getMessage()` may be `null`, which Java prints as "null". The message is
  modelled as a string. A failure while the lines are streamed surfaces from `reduce` as an
  `UncheckedIOException`, which the `IOException` handler does not catch. The model records
  only that it escapes. What the caller then does with it is not modelled.
