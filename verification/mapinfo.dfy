/** `createMapInfo` (script.js): turn the children of one floor group into
    the 2D overlays pinned to them. A child whose name begins with a known
    facility word followed by `_` becomes an icon; every other child except
    those named "object" becomes a room-name label. */
module MapInfo {
  import opened Wrappers
  import opened JsString
  import opened Scene
  import opened Seqs

  /** The icon table of script.js: facility word to icon file. */
  const MapInfoIcons: map<string, string> := map[
    "男子トイレ" := "data/icon/stairsIcon.png",
    "女子トイレ" := "data/icon/stairsIcon.png",
    "階段" := "data/icon/stairsIcon.png",
    "エスカレーター" := "data/icon/stairsIcon.png",
    "エレベーター" := "data/icon/stairsIcon.png",
    "プリンター" := "data/icon/stairsIcon.png"
  ]

  /** The `height` given to every icon image. */
  const IconHeight: nat := 20

  /** The name of the child that never gets an overlay. */
  const ExcludedName: string := "object"

  /** One overlay element: a `mapInfo icon` div holding an image, or a
      `mapInfo roomName` div holding text. `dataName` is `data-name`, the
      name of the object the overlay follows. */
  datatype Overlay =
    | Icon(dataName: string, src: string, alt: string, height: nat)
    | RoomName(dataName: string, text: string)

  /** The only mode with overlays; the source's `mapMode` is fixed at it. */
  const FloorMode: int := 2

  datatype MapInfoError = GroupNotFound(name: string)

  /** `mapObjNamefirstWord`: `name.substring(0, name.indexOf("_"))`. With
      no `_` the index is -1, which `substring` clamps to 0, so the word is
      empty. */
  function FirstWord(name: string): (r: string)
    ensures '_' !in name ==> r == ""
    ensures '_' in name ==> r + "_" <= name && '_' !in r
  {
    var k := IndexOf(name, '_');
    assert k >= 0 ==> name[..k] + "_" == name[..k + 1];
    Substring(name, 0, k)
  }

  /** The first word is the only `_`-free prefix that is followed by `_`. */
  lemma FirstWordUnique(name: string, i: int)
    requires 0 <= i < |name| && name[i] == '_' && '_' !in name[..i]
    ensures FirstWord(name) == name[..i]
  {
    var k := IndexOf(name, '_');
    assert k == i;
  }

  /** The first word is in the table exactly when some `_`-free prefix
      followed by `_` is. */
  lemma IconWordCharacterised(name: string, icons: map<string, string>)
    ensures FirstWord(name) in icons <==>
            (('_' !in name && "" in icons)
             || exists i :: 0 <= i < |name| && name[i] == '_' && '_' !in name[..i] && name[..i] in icons)
  {
    if '_' in name {
      var k := IndexOf(name, '_');
      assert FirstWord(name) == name[..k];
      forall i | 0 <= i < |name| && name[i] == '_' && '_' !in name[..i]
        ensures name[..i] == FirstWord(name)
      {
        FirstWordUnique(name, i);
      }
    }
  }

  /** The overlay made for a child named `name`: an icon when its first
      word is a key of the table, a room label otherwise. */
  function Classify(name: string, icons: map<string, string>): (o: Overlay)
    ensures o.dataName == name
    ensures o.Icon? ==> && o.alt in icons && o.src == icons[o.alt]
                        && '_' !in o.alt && o.height == IconHeight
                        && ('_' in name ==> o.alt + "_" <= name)
                        && ('_' !in name ==> o.alt == "")
    ensures o.RoomName? ==> o.text == name
  {
    var word := FirstWord(name);
    if word in icons then
      Icon(name, icons[word], word, IconHeight)
    else
      RoomName(name, name)
  }

  /** A child becomes an icon exactly when some `_`-free prefix of its name
      that is followed by `_` is a key of the table (or, for a table with
      the empty key, when the name has no `_` at all). */
  lemma ClassifyIconIff(name: string, icons: map<string, string>)
    ensures Classify(name, icons).Icon? <==>
            || ('_' !in name && "" in icons)
            || exists i :: 0 <= i < |name| && name[i] == '_' && '_' !in name[..i] && name[..i] in icons
  {
    IconWordCharacterised(name, icons);
  }

  /** A name without `_` is always a room label (its first word is empty),
      even when the whole name is a facility word of the table. */
  lemma NoUnderscoreIsRoomName(name: string, icons: map<string, string>)
    requires '_' !in name && "" !in icons
    ensures Classify(name, icons) == RoomName(name, name)
  {
  }

  /** The overlays for one child: none for a child named "object", one
      otherwise. */
  function ChildOverlays(child: Object3D, icons: map<string, string>): (r: seq<Overlay>)
    ensures |r| <= 1
    ensures |r| == 1 <==> child.name != ExcludedName
    ensures forall o | o in r :: o == Classify(child.name, icons)
  {
    if child.name != ExcludedName then [Classify(child.name, icons)] else []
  }

  /** The overlays for a list of children, in child order. */
  function OverlaysFor(children: seq<Object3D>, icons: map<string, string>): (r: seq<Overlay>)
    ensures forall o | o in r :: o == Classify(o.dataName, icons) && o.dataName != ExcludedName
  {
    FlatMap(children, c => ChildOverlays(c, icons))
  }

  /** Exactly the children not named "object" get an overlay: the
      `data-name`s of the overlays are the names of those children. */
  lemma OverlaysForCoversChildren(children: seq<Object3D>, icons: map<string, string>)
    ensures DataNames(OverlaysFor(children, icons))
            == (set c | c in children && c.name != ExcludedName :: c.name)
  {
    var r := OverlaysFor(children, icons);
    forall c | c in children && c.name != ExcludedName
      ensures c.name in DataNames(r)
    {
      var i :| 0 <= i < |children| && children[i] == c;
      assert Classify(c.name, icons) in ChildOverlays(children[i], icons);
    }
  }

  /** The names of the children that get an overlay, in child order. */
  function NamesExcept(children: seq<Object3D>): (r: seq<string>)
    ensures |r| <= |children|
    ensures forall n | n in r :: n != ExcludedName
  {
    if |children| == 0 then []
    else
      var first := if children[0].name != ExcludedName then [children[0].name] else [];
      first + NamesExcept(children[1..])
  }

  /** The overlays are exactly one per child not named "object", in child
      order: the k-th overlay is the classification of the k-th such name. */
  lemma {:induction false} OverlaysForInChildOrder(children: seq<Object3D>, icons: map<string, string>)
    ensures |OverlaysFor(children, icons)| == |NamesExcept(children)|
    ensures forall k :: 0 <= k < |NamesExcept(children)| ==>
              OverlaysFor(children, icons)[k] == Classify(NamesExcept(children)[k], icons)
    decreases |children|
  {
    if |children| > 0 {
      var c := children[0];
      var rest := children[1..];
      assert children == [c] + rest;
      OverlaysForAppend([c], rest, icons);
      assert OverlaysFor([c], icons) == ChildOverlays(c, icons) by {
        assert [c][1..] == [];
      }
      OverlaysForInChildOrder(rest, icons);
    }
  }

  /** The `data-name`s carried by a list of overlays. */
  function DataNames(os: seq<Overlay>): set<string> {
    set o | o in os :: o.dataName
  }

  /** Overlays of concatenated child lists are concatenated: the overlays
      keep the children's order. */
  lemma OverlaysForAppend(a: seq<Object3D>, b: seq<Object3D>, icons: map<string, string>)
    ensures OverlaysFor(a + b, icons) == OverlaysFor(a, icons) + OverlaysFor(b, icons)
  {
    FlatMapAppend(a, b, c => ChildOverlays(c, icons));
  }

  /** `createMapInfo(mapNames)` in mode `mode`: modes other than the floor
      mode create nothing; in the floor mode the group is the first object
      named `mapNames` in traversal order, and a missing group is the
      source's TypeError on `undefined.children`. */
  function CreateMapInfo(mode: int, scene: Object3D, mapNames: string, icons: map<string, string>)
    : (r: Result<seq<Overlay>, MapInfoError>)
    ensures mode != FloorMode ==> r == Ok([])
    ensures mode == FloorMode ==>
              match FirstNamed(Traverse(scene), mapNames)
              case None => r == Err(GroupNotFound(mapNames))
              case Some(g) => r == Ok(OverlaysFor(g.children, icons))
  {
    GetObjectByNameIsFirstInTraversal(scene, mapNames);
    if mode == 0 then Ok([])
    else if mode == 1 then Ok([])
    else if mode == 2 then
      match GetObjectByName(scene, mapNames)
      case None => Err(GroupNotFound(mapNames))
      case Some(group) => Ok(OverlaysFor(group.children, icons))
    else Ok([])
  }

  /** Examples over the script's table: a stairs object gets the stairs
      icon, a bare facility word and a room number get labels. */
  lemma StairsGetIcon()
    ensures Classify("階段_1", MapInfoIcons) == Icon("階段_1", "data/icon/stairsIcon.png", "階段", 20)
  {
    FirstWordUnique("階段_1", 2);
    assert "階段_1"[..2] == "階段";
  }

  lemma BareWordGetsLabel()
    ensures Classify("階段", MapInfoIcons) == RoomName("階段", "階段")
  {
    NoUnderscoreIsRoomName("階段", MapInfoIcons);
  }

  lemma RoomNumberGetsLabel()
    ensures Classify("101_教室", MapInfoIcons) == RoomName("101_教室", "101_教室")
  {
    FirstWordUnique("101_教室", 3);
    assert "101_教室"[..3] == "101";
    KeyLengths();
  }

  /** The words of the script's table are 2, 5, 6 or 7 characters long. */
  lemma KeyLengths()
    ensures forall k | k in MapInfoIcons :: |k| != 3
  {
  }
}
