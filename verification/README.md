# Campus map viewer: a Dafny model of its interaction core

The application shows a campus building as a three.js scene. Users can:

- tap a map object, which gives a tap-or-drag decision and then a ray from the tap position;
- see room-name labels and facility icons pinned to the objects of a floor;
- type an object's name to paint it red;

This project models the parts of that behaviour that are pure logic, and proves their properties:

- `JsString`: the JavaScript `indexOf`/`substring` behaviour the name handling relies on. `indexOf` gives -1 when the character is absent. `substring` clamps its arguments to the string, and swaps them when they are reversed.
- `Scene`: a scene-graph node (`Object3D`) with name, position, optional material and children. It also models `traverse` (pre-order) and `getObjectByName`. Both are the three.js operations the script calls.
- `Projection`: the two formulas between pointer pixels and normalised device coordinates (NDC):
  - pointer to NDC, used before the ray cast;
  - NDC to canvas pixel, used to pin overlays.
- `Gesture`: `getPointerdownCoord` and `isClick`. A release counts as a tap when it is within 5 px of the last press on both axes. Before the first press the saved position is `undefined`, every difference is `NaN`, and no release is a tap; the model writes this as an absent position. The pre-raycast part of `getClickedMapObj` is also here.
- `MapInfo`: `createMapInfo`. Each child of a floor group, except those named `"object"`, becomes an overlay:
  - an icon when the text before its first `_` is a key of the icon table;
  - a room-name label otherwise.
- `Loader`: `loadMap`. It loads every model file of a map and names each model after the part of its file name after the first `_`. The i-th model is stacked at height i. The models are appended to the scene in file order.
- `Search`: the search box's `input` handler. It first puts back the colour it saved last time. It then paints the first matching object red, in traversal order, saving that object's colour.
- `MapData`: mapData.js defines a catalog of model files (the class `MapData`) and `extractMapsByMapName`, which filters it by building name. script.js does not import or call them; they are modelled as mapData.js defines them.

The GLB loader is a parameter of `LoadMap`: a total function from a model path to the loaded scene. The JavaScript `mapMode` global, fixed at 2 in the script, is a parameter of `CreateMapInfo`. Screen coordinates and colours are reals.

## Model

| member | source | states |
|---|---|---|
| JsString.IndexOf | script.js:175 | the result is -1 exactly when the character is absent; otherwise it is the position of its first occurrence |
| JsString.Substring | script.js:175 | in-range ends give the slice between them, reversed ends are swapped, each end below 0 counts as 0 and each end past the string counts as its length (so two ends at or below 0, or two at or past the end, give "", and ends that cover the string give all of it) |
| MapInfo.FirstWord | script.js:175 | a name without `_` has the empty first word (the -1 index clamps to 0); otherwise the first word followed by `_` is a prefix of the name and contains no `_` |
| MapInfo.FirstWordUnique | script.js:175 | the first word is the only `_`-free prefix of the name that is followed by `_` |
| MapInfo.Classify | script.js:175-198 | the overlay carries the object's name as `data-name`. An icon's `alt` is a table key, its `src` is that key's icon, its height is 20. When the name has a `_`, the `alt` followed by `_` begins it; otherwise the `alt` is empty. A label's text is the name |
| MapInfo.ClassifyIconIff | script.js:175-176 | an object gets an icon exactly when some `_`-free prefix of its name, followed by `_`, is a table key (or, with an empty key in the table, when its name has no `_`) |
| MapInfo.NoUnderscoreIsRoomName | script.js:175-176 | with a table that has no empty key, like the script's, a name without `_` is always a label, even when the whole name is a facility word |
| MapInfo.ChildOverlays | script.js:173-199 | a child gets one overlay unless it is named "object", in which case it gets none |
| MapInfo.OverlaysFor | script.js:173-200 | every overlay made is the classification of its own `data-name`, and none is for "object" |
| MapInfo.OverlaysForCoversChildren | script.js:173-200 | the overlays' `data-name`s are exactly the names of the children not named "object" |
| MapInfo.OverlaysForInChildOrder | script.js:173-199 | one overlay per child not named "object", in child order: the k-th overlay is the classification of the k-th such child's name |
| MapInfo.OverlaysForAppend | script.js:173 | overlays follow the children's order: the overlays of two concatenated child lists are the two overlay lists concatenated |
| MapInfo.CreateMapInfo | script.js:164-203 | modes 0, 1 and unknown modes create nothing. In mode 2 the group is the first object named `mapNames` in traversal order; the result is its children's overlays, or an error when no such object exists |
| MapInfo.StairsGetIcon | script.js:175-187 | with the script's table, "階段_1" gets the stairs icon with `alt` "階段" |
| MapInfo.BareWordGetsLabel | script.js:175-196 | with the script's table, the bare facility word "階段" gets a room label, not an icon |
| MapInfo.RoomNumberGetsLabel | script.js:175-196 | with the script's table, "101_教室" gets a room label |
| Scene.Traverse | script.js:237 | the traversal starts at the node itself and visits each of its children |
| Scene.FindInChildren | script.js:173 | an object found among the children's subtrees carries the name |
| Scene.FindInChildrenIsFirstInTraversal | script.js:173 | searching the children in order returns the first object with the name in the traversal of those children, or nothing when none has it |
| Scene.GetObjectByName | script.js:173 | an object found by name carries that name |
| Scene.FirstNamed | script.js:173 | the result is the first element of the list with the name, or nothing when none has it |
| Scene.GetObjectByNameIsFirstInTraversal | script.js:173 | `getObjectByName`'s depth-first search returns the first object with the name in `traverse` order |
| Scene.FindInChildrenAppend | script.js:173 | appending a node to a child list that has no object of a given name makes the search find that node's first match |
| Seqs.FlatMapAppend | script.js:173 | flattening respects concatenation |
| Loader.FloorName | script.js:256-263 | without `_` the model is named by its file name; otherwise by the suffix after the first `_` |
| Loader.FileNameSplits | script.js:257-259 | a file name with `_` is its first word, `_`, and its floor name |
| Loader.ModelPath | script.js:252 | the loader's path is the directory, then the file name, then ".glb" |
| Loader.Place | script.js:252-265 | a loaded model keeps its material and children, is named by its file's floor name and is placed at the given height |
| Loader.PlaceAll | script.js:251-270 | the i-th model is the loaded scene of the i-th file, named by its floor name and placed at height `first + i` |
| Loader.LoadMap | script.js:247-272 | an unknown map name is an error. Otherwise one floor name per file, in file order, and the scene's old children are kept. The models follow them in file order, the i-th at height i with the loaded material and children |
| Loader.Building10FloorNames | script.js:247-272 | loading "10号館" yields the floor names ["1"] |
| Loader.StartupOverlays | script.js:277-280 | at start-up, after loading "10号館", `createMapInfo("1")` builds the overlays of the loaded first-floor model's children. This holds whenever no object named "1" was in the scene before |
| Gesture.PointerDown | script.js:360-364 | whatever was saved before, the next release is a tap exactly when it lies strictly within 5 px of this press on both axes |
| Gesture.MostRecentDownDecides | script.js:360-364 | of two presses only the later one decides whether a release is a tap |
| Gesture.ThresholdIsExclusive | script.js:370 | a move of exactly 5 px on either axis is a drag, whatever the move on the other axis |
| Gesture.ClickAtDownPoint | script.js:366-375 | a release at the press point is a tap, and before any press no release is a tap |
| Gesture.TapAndDragExamples | script.js:366-375 | after a press at (100, 100), a release at (102, 103) is a tap and one at (100, 120) a drag |
| Gesture.IsClick | script.js:366-375 | a release is a tap exactly when a press was recorded and the release lies strictly within 5 px of it on both axes |
| Gesture.PointerUp | script.js:310-320 | NDC are produced exactly for taps, and they map back to the tap's pixel position inside the map area |
| Projection.NdcToPixel | script.js:143-144 | NDC (0,0) is the canvas centre, (-1,1) the top-left and (1,-1) the bottom-right corner; NDC within [-1,1] fall on the canvas |
| Projection.PixelToNdc | script.js:319-320 | the area's top-left corner maps to (-1,1), the bottom-right to (1,-1), and points of the area to NDC within [-1,1] |
| Projection.PixelNdcRoundTrip | script.js:319-320 | pixel to NDC and back gives the pixel relative to the area's corner |
| Projection.NdcPixelRoundTrip | script.js:143-144 | NDC to pixel and back, over an area at the origin of the canvas's size, gives the same NDC |
| Projection.NdcToPixelOrientation | script.js:143-144 | NDC x grows rightwards and NDC y grows upwards, against the canvas's downward y |
| Search.Restore | script.js:229-234 | the highlighted object gets the saved colour back, every other object is untouched, and every object keeps its name and whether it has a material |
| Search.SearchOnScene | script.js:237-243 | on a scene tree, from the initial state, an input highlights the first object of `traverse` that has a material and exactly the search text as its name, paints it red and saves its colour; it highlights nothing when there is no such object |
| Search.FirstMatch | script.js:237-243 | nothing when no object with a material has the search text as its name; otherwise the first such object in traversal order |
| Search.FirstMatchIgnoresColour | script.js:238 | colours do not affect which object matches |
| Search.SearchInput | script.js:226-244 | the state stays consistent, and an object is highlighted exactly when one matches. It is the first match, painted red, and its colour from before is saved. All other objects are as after the restore step, and restoring the new state gives the same scene as restoring the old one |
| Search.SearchInputIdempotent | script.js:226-244 | typing the same text twice gives the state of typing it once |
| Search.Run | script.js:226-244 | a run of inputs keeps the state consistent, and keeps the scene's objects and their names |
| Search.RunKeepsRestored | script.js:222-244 | any run of inputs leaves the restored scene unchanged |
| Search.RunRestoresScene | script.js:222-244 | after any run of inputs from the initial state, at most the highlighted object differs from the original scene, and restoring it gives back the original |
| MapData.ExtractMapsByMapName | mapData.js:124-132 | the result holds exactly the catalog's entries with that display name, and is no longer than the catalog |
| MapData.ExtractKeepsKeysDistinct | mapData.js:125-128 | the extract, like the object it comes from, has distinct property names |
| MapData.ExtractAppend | mapData.js:126-129 | extraction keeps the catalog's insertion order |
| MapData.ExtractIdempotent | mapData.js:124-132 | extracting again by the same name changes nothing |
| MapData.AbsentNameYieldsNothing | mapData.js:124-132 | a display name that no record carries yields the empty object |
| MapData.AllMatchingIsIdentity | mapData.js:126-129 | a catalog whose records all have the name is returned whole |
| MapData.OtherGroupContributesNothing | mapData.js:126-129 | records of another display name are dropped |
| MapData.ExtractFromMaps | mapData.js:7-132 | extracting from the catalog is extracting from its four groups in order |
| MapData.WholeMapEntry | mapData.js:8-13 | "全体マップ" yields the single whole-site model, which has no floor |
| MapData.Building10Extract | mapData.js:86-132 | "10号館" yields exactly the six building-10 entries |
| MapData.Building10Floors | mapData.js:86-132 | those entries are "10_1.glb" to "10_6.glb" with floors "1" to "6", in order |

## Left out

- JsString.IndexOf: positions count Unicode characters, not the UTF-16 code units ECMAScript counts, so a character outside the Basic Multilingual Plane before the `_` shifts the index by one for each such character; the first word split off at `_` is the same either way, because `_` is never part of a surrogate pair.
- JsString.Substring: positions count Unicode characters, not UTF-16 code units, for the same reason; the words `FirstWord` and `FloorName` extract are unaffected.
- Rendering is left out. This covers the renderer, lights, cameras, OrbitControls, `rotateCamera`, `resize` and the animation loop: it is graphics output with no logic to verify.
- The ray cast itself (`setFromCamera`, `intersectObjects`) is left out. It is three.js geometry; the model stops at the NDC handed to it.
- `getMapObjCoord`'s world position and `project()` are left out. The NDC are an input of `Projection.NdcToPixel`.
- Loading GLB files is left out, along with the asynchronous `await` and the service worker. The loader is a parameter of `Loader.LoadMap`. A failed load (a rejected promise) is not modelled.
- mapInfoIcon.js is not part of this model.
- In three.js several objects can share one material, so painting one repaints the others. Here each object's material belongs to it alone.
- Search.SearchInput: sees only names and materials, in traversal order. Position, the tree shape and children are dropped because the handler does not read them.
- The overlays are modelled as values. The model leaves out the DOM element creation, the `mapInfo`/`icon`/`roomName` classes and the appending to the map area.
- Loose `==` in `extractMapsByMapName` is modelled as string equality: every `mapName` in the catalog is a string.
- Gesture.PointerUp: requires a map area of positive width and height. With a zero width the source divides by zero and hands Infinity or NaN to the ray cast.
- Projection.PixelToNdc: requires positive width and height for the same reason.
- Screen coordinates are reals. IEEE-754 rounding is not modelled, so the round trips are exact here.
- Building and floor navigation, breadcrumbs, camera presets, overlay depth ordering and multi-pointer gestures are not part of this model: script.js has one pointer position and no such features.
- An empty search text is handled like any other: it highlights the first object that has a material and an empty name.
