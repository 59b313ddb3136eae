# FreeGrid commands and point helpers in Dafny

FreeGrid is a FreeCAD workbench that generates storage boxes and grids. This
project models two parts of it and proves properties of them.

**The command layer** (`freecad/freegrid/commands.py`):

- The `ViewProvider` proxy attached to a new object's view. It picks and
  returns its icon. It saves nothing and restores a back-reference to its
  document object by name. Which pair of persistence hooks the proxy defines
  (`dumps`/`loads` or `__getstate__`/`__setstate__`) depends on a *string*
  comparison of `"major.minor"` with `"0.22"`. The model keeps that string
  comparison as written. Lemmas show where it agrees with the numeric order
  (two-digit minors) and where it does not: `"0.3"` to `"0.9"` select the
  modern pair.
- The command metadata: `IsActive`, the HTML tool tip with its icon, and
  `GetResources`.
- `BaseObjectCommand.create`, modelled over an abstract host (`HostDocument.Host`):
  - the host holds the active document's objects, the active PartDesign body
    and App::Part, the `GuiUp` flag, and a trace of every call made into it;
  - the number of transactions opened and committed, the view providers
    attached and the generator runs are read off that trace;
  - the object generators (`BoxObject`, `GridObject`) are opaque, so each run
    is only recorded.

**The point-list helpers** (`freecad/freegrid/in3dca/h.py`), with coordinates
as exact reals:

- `xyz`;
- `poly_close`, and `poly_translate`, which works in place on an array;
- `get_edges_enclosed_by_box`, with inclusive containment tests;
- the close dispatch of `poly_to_face`;
- the segment and constraint pattern `poly_to_sketch` emits into a sketch object.

The package constant `ICONPATH` is a parameter (`iconPath`) wherever it is used.
`FreeCAD.ActiveDocument` is either the `Host` or an `Option` of the document's
objects. `FreeCAD.Version()` is a pair of strings. Exceptions the Python code
can raise are modelled as error results:

- a restore with no active document, or with no `"ObjectName"` key;
- an edge test that indexes a missing vertex.

Files: `wrappers.dfy` (Option, Result), `strings.dfy` (Python string order,
`str` of integers, `os.path.join`), `version_gate.dfy`, `host_document.dfy`,
`view_provider.dfy`, `commands.dfy`, `point_helpers.dfy`.

## Model

| member | source | states |
|---|---|---|
| Strings.StrLessIffLessAt | freecad/freegrid/commands.py:36 | Python's `<` on strings holds iff at the first differing position the left character is smaller, or the left string is a proper prefix |
| Strings.StrLessTrichotomy | freecad/freegrid/commands.py:36 | the string order is total, irreflexive and asymmetric |
| Strings.StrGeMeansEqualOrGreater | freecad/freegrid/commands.py:36 | `a >= b` holds iff `a == b` or `b < a` |
| Strings.NatToStringRoundTrip | freecad/freegrid/commands.py:86-88 | `str(n)` of a natural is a non-empty run of decimal digits, without a leading zero, that reads back as `n` |
| VersionGate.SelectProtocol | freecad/freegrid/commands.py:36 | the modern hooks are chosen iff `"major.minor"` equals `"0.22"` or is lexicographically greater |
| VersionGate.HookNames | freecad/freegrid/commands.py:36-57 | the save hook and the restore hook of either protocol have distinct names (which names each version gets is stated by `ReleasedVersions`) |
| VersionGate.ReleasedVersions | freecad/freegrid/commands.py:36-57 | 0.19, 0.20 and 0.21 get the legacy hooks; 0.22, 1.0 and 1.1 get the modern ones |
| VersionGate.TwoDigitMinorAgreesWithNumeric | freecad/freegrid/commands.py:36 | for major "0" and a two-digit minor, the modern hooks are chosen iff the minor is at least 22 |
| VersionGate.OneDigitMinorIsNotNumeric | freecad/freegrid/commands.py:36 | for major "0" and a one-digit minor, the modern hooks are chosen iff the digit is 3 or more, so "0.9" counts as newer than "0.22" |
| VersionGate.MajorFromOneIsModern | freecad/freegrid/commands.py:36 | any major version starting with a digit from 1 to 9 selects the modern hooks |
| HostDocument.GetObject | freecad/freegrid/commands.py:47 | `doc.getObject(name)` is None iff no object has that name, otherwise the first object of that name |
| HostDocument.Host.NewDocument | freecad/freegrid/commands.py:124-125 | a new, empty document becomes active with no active body or part |
| HostDocument.Host.OpenTransaction | freecad/freegrid/commands.py:127-129 | records the opening of a transaction with its title |
| HostDocument.Host.AddObject | freecad/freegrid/commands.py:136-140 | a fresh object of the given kind and name is appended to the document |
| HostDocument.Host.AttachViewProvider | freecad/freegrid/commands.py:142 | records a view provider bound to the object with the given icon |
| HostDocument.Host.RunGenerator | freecad/freegrid/commands.py:143 | records one run of the generator on the object |
| HostDocument.Host.BodyAddObject | freecad/freegrid/commands.py:145-146 | the object is appended to the active body's members |
| HostDocument.Host.PartAppend | freecad/freegrid/commands.py:147-148 | the object is appended to the end of `part.Group`; earlier members keep their order |
| HostDocument.Host.CommitTransaction | freecad/freegrid/commands.py:153 | records the commit |
| ViewProviders.DefaultIcon | freecad/freegrid/commands.py:22-27 | the default icon path starts with the icon directory and ends with `FreeGrid.svg` |
| ViewProviders.ChosenIcon | freecad/freegrid/commands.py:22 | the icon is the one given when it is non-empty; when it is None or empty (both falsy) it is the default `FreeGrid.svg` under the icon path |
| ViewProviders.RestoreError | freecad/freegrid/commands.py:42-47 | a restore fails iff there is a state and either no document is active (checked first) or the state has no `"ObjectName"` |
| ViewProviders.RestoredObject | freecad/freegrid/commands.py:42-47 | with no state, or on an error, the back-reference is unchanged; otherwise it becomes the active document's lookup of `state["ObjectName"]`: None iff no object has that name, else an object of that name in the document |
| ViewProviders.RestoreFindsNamedObject | freecad/freegrid/commands.py:42-47 | with unique names, restoring `{"ObjectName": o.Name}` binds the proxy to exactly `o` |
| ViewProviders.SaveThenRestoreKeepsObject | freecad/freegrid/commands.py:38-47 | restoring what `dumps` saved (None) never fails and leaves the back-reference as it was |
| ViewProviders.ViewProvider.constructor | freecad/freegrid/commands.py:17-22 | the view object's `Proxy` becomes the new provider; `icon_fn` is the given icon or the default; nothing else is set |
| ViewProviders.ViewProvider.Restored | freecad/freegrid/commands.py:24-27 | a proxy rebuilt by the host without running `__init__` has no `icon_fn`, `vobj` or `Object` |
| ViewProviders.ViewProvider.CheckAttr | freecad/freegrid/commands.py:24-27 | the default icon is set only when `icon_fn` is missing; a present one is kept |
| ViewProviders.ViewProvider.Attach | freecad/freegrid/commands.py:29-30 | `vobj` becomes the given view object |
| ViewProviders.ViewProvider.GetIcon | freecad/freegrid/commands.py:32-34 | returns `icon_fn`, which is set afterwards; a present icon is unchanged, a missing one becomes the default |
| ViewProviders.ViewProvider.Dumps | freecad/freegrid/commands.py:38-40 | always returns None |
| ViewProviders.ViewProvider.Loads | freecad/freegrid/commands.py:42-47 | the back-reference and the error are those of `RestoredObject` and `RestoreError` |
| ViewProviders.ViewProvider.GetState | freecad/freegrid/commands.py:50-52 | always returns None |
| ViewProviders.ViewProvider.SetState | freecad/freegrid/commands.py:54-57 | the back-reference and the error are those of `RestoredObject` and `RestoreError` |
| Commands.IsActive | freecad/freegrid/commands.py:66-70 | true iff a document is active (`Create` ensures it afterwards); when false, a well-formed session has no objects, body or part |
| Commands.ToolTipWithIcon | freecad/freegrid/commands.py:80-93 | read left to right, the tool tip is `<img src=`, the joined icon path, ` align=left width='`, `str(icon_size)`, `' height='`, `str(icon_size)`, `' type='svg/xml' />`, `<div align=center>`, the command's tool tip and `</div>`, each piece at its offset |
| Commands.FragmentFields | freecad/freegrid/commands.py:82-93 | the concatenation of the ten pieces of the tool tip has each literal and each field at its offset |
| Commands.ToolTipFields | freecad/freegrid/commands.py:80-93 | for a non-negative size, the numeral laid out as both width and height is a non-empty run of digits, without a leading zero, reading back as `icon_size` |
| Commands.GetResources | freecad/freegrid/commands.py:95-100 | exactly the keys Pixmap, MenuText and ToolTip, with the command's icon, its menu text and the tool tip at the default size 125 |
| Commands.TransactionTitle | freecad/freegrid/commands.py:127-129 | the transaction title is `Create ` followed by the command's name |
| Commands.ResolveContext | freecad/freegrid/commands.py:131-148 | with the GUI up, an active body wins over an active part; headless, or with neither, there is no container |
| Commands.KindFor | freecad/freegrid/commands.py:135-140 | the object is a `PartDesign::FeaturePython` iff it goes into a body, otherwise a `Part::FeaturePython`; its type name string is the one passed to `addObject` |
| Commands.CreateTransactionBracket | freecad/freegrid/commands.py:123-153 | `create` opens one transaction and commits one; a new document, if any, comes first, then the open; the commit is last; every other call lies between them |
| Commands.CreateRunsGeneratorOnce | freecad/freegrid/commands.py:136-151 | the generator runs exactly once and one object is added; every call concerns the new object |
| Commands.CreateAttachOrder | freecad/freegrid/commands.py:142-143 | with the GUI up, one view provider with the command's pixmap is attached after the object is added and before the generator runs; headless, none is |
| Commands.CreateOrder | freecad/freegrid/commands.py:136-148 | the object is added, then the generator runs, then the object is put into the body or the part |
| Commands.CreateContainerEvents | freecad/freegrid/commands.py:145-151 | the body receives the object once iff the GUI is up and a body is active; the part iff the GUI is up, no body is active and a part is |
| Commands.CreateAddsOneTransaction | freecad/freegrid/commands.py:127-153 | after `create`, the counts of opened and committed transactions are each one higher |
| Commands.CreateKeepsWellFormed | freecad/freegrid/commands.py:131-155 | the document stays well formed; the new object was not in it before; it is in the body exactly once iff it went there, and likewise for the part |
| Commands.Create | freecad/freegrid/commands.py:120-155 | makes a document active if none was, returns the new object (fresh id, the command's name, the kind for its context), appends it to the document, places it in the body or part by the context rule, records exactly the calls of `CreateEvents`, and adds one open and one commit; the document stays well formed and `IsActive` holds afterwards |
| PointHelpers.Xyz | freecad/freegrid/in3dca/h.py:158-160 | the vector has the given coordinates; with all of them at their default it is the zero of addition |
| PointHelpers.Add | freecad/freegrid/in3dca/h.py:154 | `p.add(v)` is the sum: taking `v` away gives `p` back and taking `p` away gives `v` |
| PointHelpers.XyzIsNeutral | freecad/freegrid/in3dca/h.py:158-160 | `xyz()` is the zero vector for addition, moving by `v` is undone by `-v`, and `xyz(p.x, p.y, p.z)` is `p` |
| PointHelpers.Translate | freecad/freegrid/in3dca/h.py:151-155 | same length, and each point is the input point plus the vector |
| PointHelpers.TranslateInverse | freecad/freegrid/in3dca/h.py:151-155 | moving by `v` and then by `-v` restores the points; moving by zero changes nothing |
| PointHelpers.TranslateCompose | freecad/freegrid/in3dca/h.py:151-155 | moving by `u` then by `v` is moving by `u + v` |
| PointHelpers.ClosePoly | freecad/freegrid/in3dca/h.py:97-113 | the first `len(vec)` points are the input shifted by the offset, in order; one point is added iff the shifted first and last points differ, none iff they are equal; the first and last output points are equal |
| PointHelpers.ClosePolyIdempotent | freecad/freegrid/in3dca/h.py:102-113 | closing a closed polygon again with the default offset returns it unchanged; the default offset `0` acts as `xyz()` |
| PointHelpers.PolyClose | freecad/freegrid/in3dca/h.py:97-113 | the loop-built result equals `ClosePoly` |
| PointHelpers.PolyTranslate | freecad/freegrid/in3dca/h.py:151-155 | the same array is returned, and its contents become every old entry plus the vector |
| PointHelpers.PolyTranslateRoundTrip | freecad/freegrid/in3dca/h.py:151-155 | calling `poly_translate` on a list with `v` and then with `-v` leaves its contents as they were |
| PointHelpers.MakeBoundBox | freecad/freegrid/in3dca/h.py:80 | the enclosure spanned by `origin` and `origin + size` is ordered, holds both corners whatever the signs of `size`, and lies inside every box that holds both |
| PointHelpers.ContainsPoint | freecad/freegrid/in3dca/h.py:91-92 | a point is inside only an ordered box, and an ordered box holds its own corners (bounds included) |
| PointHelpers.ContainsBox | freecad/freegrid/in3dca/h.py:88 | for an ordered edge box, it is inside the enclosure iff every point of it is |
| PointHelpers.EdgeTest | freecad/freegrid/in3dca/h.py:86-93 | fully-enclosed mode tests the edge's bounding box; otherwise the edge is selected iff one of its first two vertexes is inside, and the test fails iff it needs a vertex the edge lacks |
| PointHelpers.FullySelectedIsPartlySelected | freecad/freegrid/in3dca/h.py:86-93 | an edge selected in fully-enclosed mode, whose box holds its first vertex, is also selected in one-vertex mode |
| PointHelpers.GetEdgesEnclosedByBox | freecad/freegrid/in3dca/h.py:72-94 | succeeds iff every edge can be tested; the result is strictly increasing valid edge indices, containing `i` iff edge `i` passes the test; on failure the error names the first edge whose test indexes a missing vertex |
| PointHelpers.PolygonPoints | freecad/freegrid/in3dca/h.py:133-134 | the points are closed by `poly_close` iff `close != 0`, otherwise used unchanged |
| PointHelpers.PolyToFace | freecad/freegrid/in3dca/h.py:123-128 | the face's outline is the points unchanged when `close == 0`; otherwise it is `poly_close(points)`, which starts with them and is closed |
| PointHelpers.Segments | freecad/freegrid/in3dca/h.py:139-140 | `n` segments, segment `i` running from point `i` to point `i + 1` |
| PointHelpers.SketchObject.constructor | freecad/freegrid/in3dca/h.py:137 | a new sketch of the given name with no geometry and no constraints |
| PointHelpers.SketchObject.AddGeometry | freecad/freegrid/in3dca/h.py:140 | appends one segment |
| PointHelpers.SketchObject.AddConstraint | freecad/freegrid/in3dca/h.py:142-145 | appends one constraint |
| PointHelpers.PolyToSketch | freecad/freegrid/in3dca/h.py:131-148 | a fresh sketch of the given name, mapped `FlatFace`, holding the step segments and constraints of the (optionally closed) points, then the closing constraint |
| PointHelpers.ConstraintsLayout | freecad/freegrid/in3dca/h.py:139-144 | after `n` steps there are `3n - 1` constraints: DistanceX and DistanceY of step `i` at `3i` and `3i + 1`, the join `(i-1, 2, i, 1)` at `3i - 1` |
| PointHelpers.SketchLayout | freecad/freegrid/in3dca/h.py:138-145 | for `k + 1 >= 2` points: `k` segments, `3k` constraints, the step pattern, and the closing join `(k-1, 2, 0, 1)` last |
| PointHelpers.StepsHold | freecad/freegrid/in3dca/h.py:139-144 | every join and distance constraint of the loop holds on the segments it builds |
| PointHelpers.SketchReferencesValid | freecad/freegrid/in3dca/h.py:138-145 | every constraint refers to an existing segment and point position iff there are at least two points |
| PointHelpers.SketchConstraintsHoldIffClosed | freecad/freegrid/in3dca/h.py:138-145 | with at least two points, the sketch's constraints all hold on the segments as built iff the first and last points coincide |
| PointHelpers.ClosedSketchConstraintsHold | freecad/freegrid/in3dca/h.py:133-145 | asked to close a polygon of at least two points, `poly_to_sketch` emits constraints that all hold on the segments it builds |

## Left out

- `arc` and `disk` (h.py): trigonometry, float loop termination and calls into
  the geometry kernel.
- `poly_rotate` (h.py): its only content is `DraftVecUtils.rotate`, a float
  rotation outside this code.
- `Part.Face`, `Part.makePolygon` and `Part.LineSegment`: these are geometry
  kernel calls. A face is modelled as its outline and a segment as its two end
  points.
- `doc.recompute()` is not modelled, and neither is the `show` branch of
  `get_edges_enclosed_by_box`, which is display only.
- `FreeCAD.BoundBox(a, b)` is assumed to span its two corners in either order.
  `isInside` is assumed to include the bounds.
- PointHelpers.PolyToSketch: the sketch is returned, not registered in the
  active document. The `AttributeError` raised when no document is active is
  not modelled. Nor are errors the host raises for the invalid geometry index
  of a sketch with fewer than two points; `SketchReferencesValid` states when
  they occur.
- PointHelpers.PolyClose: requires a non-empty list, where the Python code raises
  `IndexError` on `moved[0]`.
- Float rounding: all coordinates are exact reals.
- `BaseObjectCommand.Activated` and `CreateSketch.Activated`: macro replay
  through the GUI, view messages, and the sketch generator, which is not part
  of this model.
- `BoxObject` and `GridObject` (FreeGridCmd) are not part of this model. Each
  generator run is only recorded in the host trace.
- `translate()` localisation is left out: titles and menu texts use their
  untranslated strings.
- The host makes object names unique on `addObject`. Here each new object has
  a fresh id, its position in the document.
- Commands.Create: the generator is assumed to return normally. If it raises,
  the exception passes `commitTransaction` by and the transaction stays open;
  `Create`, `CreateTransactionBracket` and `CreateAddsOneTransaction` (one
  commit per call) do not describe that run.
- HostDocument.Host.BodyAddObject: appends to the body's members. The host
  inserts after the body's Tip.
- `Gui.ActiveDocument.ActiveView` is assumed to exist when the GUI is up. Only
  the active body and part it reports are modelled.
- `os.path.join` is modelled for POSIX paths only.
- The version gate is evaluated once, when the class is defined. The model
  gives both hook pairs as methods, and `VersionGate.SelectProtocol` says which
  pair the class has.
- `freecad/freegrid/init_gui.py` (command registration) and
  `freecad/freegrid/__init__.py` (path constants) contain no logic.
- Commands.ToolTipFields: states the digit read-back only for non-negative
  sizes. The function itself accepts any integer and renders `str` with a
  minus sign.
