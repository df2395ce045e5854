/** `loadMap` (script.js): load every model file of one map, name each loaded
    scene after the floor part of its file name, stack the i-th model at
    height i and add them to the scene in order. The GLB loader is a
    parameter: a total function from the model's path to its scene root. */
module Loader {
  import opened Wrappers
  import opened JsString
  import opened Scene
  import opened MapInfo

  /** One entry of `map3DModelPaths`. */
  datatype ModelDir = ModelDir(dirPath: string, fileNames: seq<string>)

  /** `map3DModelPaths` of script.js. */
  const Map3DModelPaths: map<string, ModelDir> := map[
    "全体マップ" := ModelDir("data/map3DModel/", ["map"]),
    "10号館" := ModelDir("data/map3DModel/building10/", ["10_1"]),
    "9号館" := ModelDir("data/map3DModel/building9/", ["9_1"])
  ]

  /** Looking up a map name the table lacks reads a property of `undefined`. */
  datatype LoadError = UnknownMap(mapName: string)

  /** What a successful load yields: the node names (the promise's value)
      and the scene with the models added. */
  datatype Loaded = Loaded(floorNames: seq<string>, scene: Object3D)

  /** The path handed to the loader. */
  function ModelPath(dirPath: string, fileName: string): (r: string)
    ensures |r| == |dirPath| + |fileName| + 4
    ensures r[..|dirPath|] == dirPath
    ensures r[|dirPath|..|dirPath| + |fileName|] == fileName
    ensures r[|r| - 4..] == ".glb"
  {
    dirPath + fileName + ".glb"
  }

  /** The name given to a loaded model: the part after the first `_`, or
      the whole file name when it has none. */
  function FloorName(fileName: string): (r: string)
    ensures '_' !in fileName ==> r == fileName
    ensures '_' in fileName ==>
              && |r| < |fileName| && r == fileName[|fileName| - |r|..]
              && fileName[|fileName| - |r| - 1] == '_'
              && '_' !in fileName[..|fileName| - |r| - 1]
  {
    if Includes(fileName, '_') then
      var k := IndexOf(fileName, '_');
      var r := fileName[k + 1..];
      assert SubstringFrom(fileName, k + 1) == r;
      assert |fileName| - |r| - 1 == k;
      r
    else
      fileName
  }

  /** A file name with `_` splits into its first word, `_`, and its floor
      name, with no `_` in the first word. */
  lemma FileNameSplits(fileName: string)
    requires '_' in fileName
    ensures fileName == FirstWord(fileName) + "_" + FloorName(fileName)
    ensures '_' !in FirstWord(fileName)
  {
    var k := IndexOf(fileName, '_');
    assert FirstWord(fileName) == fileName[..k];
    assert fileName == fileName[..k] + [fileName[k]] + fileName[k + 1..];
  }

  /** The loaded scene for `fileName`, renamed and placed at height `level`. */
  function Place(dirPath: string, fileName: string, level: nat, load: string -> Object3D): (r: Object3D)
    ensures r.name == FloorName(fileName)
    ensures r.position == Vec3(0.0, level as real, 0.0)
    ensures r.material == load(ModelPath(dirPath, fileName)).material
    ensures r.children == load(ModelPath(dirPath, fileName)).children
  {
    load(ModelPath(dirPath, fileName)).(name := FloorName(fileName), position := Vec3(0.0, level as real, 0.0))
  }

  /** The models of `fileNames`, the first one at height `first`. */
  function PlaceAll(dirPath: string, fileNames: seq<string>, first: nat, load: string -> Object3D)
    : (r: seq<Object3D>)
    ensures |r| == |fileNames|
    ensures forall i :: 0 <= i < |r| ==>
              var m := load(ModelPath(dirPath, fileNames[i]));
              && r[i].name == FloorName(fileNames[i])
              && r[i].position == Vec3(0.0, (first + i) as real, 0.0)
              && r[i].material == m.material
              && r[i].children == m.children
    decreases |fileNames|
  {
    if |fileNames| == 0 then []
    else
      var rest := PlaceAll(dirPath, fileNames[1..], first + 1, load);
      [Place(dirPath, fileNames[0], first, load)] + rest
  }

  /** `loadMap(mapName)` on `scene`: the promise's value is one name per file,
      in file order, and the scene's children gain the models in that order,
      the i-th at height i. */
  function LoadMap(paths: map<string, ModelDir>, mapName: string, load: string -> Object3D, scene: Object3D)
    : (r: Result<Loaded, LoadError>)
    ensures mapName !in paths <==> r == Err(UnknownMap(mapName))
    ensures r.Ok? ==>
              var files := paths[mapName].fileNames;
              var n := |scene.children|;
              var cs := r.value.scene.children;
              && |r.value.floorNames| == |files|
              && (forall i :: 0 <= i < |files| ==> r.value.floorNames[i] == FloorName(files[i]))
              && r.value.scene == scene.(children := cs)
              && |cs| == n + |files| && cs[..n] == scene.children
              && (forall i :: 0 <= i < |files| ==>
                    var m := load(ModelPath(paths[mapName].dirPath, files[i]));
                    && cs[n + i].name == r.value.floorNames[i]
                    && cs[n + i].position == Vec3(0.0, i as real, 0.0)
                    && cs[n + i].material == m.material
                    && cs[n + i].children == m.children)
  {
    if mapName !in paths then Err(UnknownMap(mapName))
    else
      var dir := paths[mapName];
      var models := PlaceAll(dir.dirPath, dir.fileNames, 0, load);
      var names := seq(|models|, i requires 0 <= i < |models| => models[i].name);
      var scene' := scene.(children := scene.children + models);
      assert scene'.children[..|scene.children|] == scene.children;
      Ok(Loaded(names, scene'))
  }

  /** For the "10号館" entry of the table the only name is "1". */
  lemma Building10FloorNames(load: string -> Object3D, scene: Object3D)
    ensures LoadMap(Map3DModelPaths, "10号館", load, scene).Ok?
    ensures LoadMap(Map3DModelPaths, "10号館", load, scene).value.floorNames == ["1"]
  {
    var r := LoadMap(Map3DModelPaths, "10号館", load, scene);
    assert Map3DModelPaths["10号館"].fileNames == ["10_1"];
    FileNameSplits("10_1");
    FirstWordUnique("10_1", 2);
    assert "10_1" == "10" + "_" + "1";
  }

  /** Start-up (script.js, `loadMap("10号館").then(... createMapInfo("1"))`):
      when no object of the initial scene is named "1", the overlays built
      afterwards are those of the children of the loaded first-floor model. */
  lemma StartupOverlays(load: string -> Object3D, scene: Object3D, icons: map<string, string>)
    requires GetObjectByName(scene, "1").None?
    ensures LoadMap(Map3DModelPaths, "10号館", load, scene).Ok?
    ensures var s := LoadMap(Map3DModelPaths, "10号館", load, scene).value.scene;
            CreateMapInfo(FloorMode, s, "1", icons)
            == Ok(OverlaysFor(load("data/map3DModel/building10/10_1.glb").children, icons))
  {
    Building10FloorNames(load, scene);
    var r := LoadMap(Map3DModelPaths, "10号館", load, scene).value;
    var m := r.scene.children[|scene.children|];
    assert r.scene.children == scene.children + [m];
    assert m.name == "1";
    assert ModelPath("data/map3DModel/building10/", "10_1") == "data/map3DModel/building10/10_1.glb";
    FindInChildrenAppend(scene.children, m, "1");
    assert GetObjectByName(m, "1") == Some(m);
    assert GetObjectByName(r.scene, "1") == Some(m);
    GetObjectByNameIsFirstInTraversal(r.scene, "1");
  }
}
