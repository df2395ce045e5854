/** `MapData` (mapData.js): the catalog of map models, keyed by model file
    name, and `extractMapsByMapName`, which keeps the entries of one display
    name. The catalog is a JavaScript object whose keys are all non-integer
    strings, so `for ... in` visits them in insertion order; it is modelled
    as an ordered sequence of key/record entries. */
module MapData {
  import opened Wrappers

  /** One catalog record. `floor` is `null` for the whole-site map. */
  datatype MapRecord = MapRecord(dirPath: string, mapName: string, floor: Option<string>, rooms: seq<string>)

  /** One property of the catalog object: file name and record. */
  datatype Entry = Entry(fileName: string, record: MapRecord)

  /** Property names of an object are unique. */
  ghost predicate DistinctKeys(entries: seq<Entry>) {
    forall i, j :: 0 <= i < j < |entries| ==> entries[i].fileName != entries[j].fileName
  }

  const MapPath: string := "data/map3DModel/"
  const Building10MapPath: string := MapPath + "building10/"
  const Building3MapPath: string := MapPath + "building3/"
  const Building1MapPath: string := MapPath + "building1/"

  function Floor(dirPath: string, mapName: string, floor: string): MapRecord {
    MapRecord(dirPath, mapName, Some(floor), [])
  }

  const WholeMapName: string := "全体マップ"
  const Building1Name: string := "1号館"
  const Building3Name: string := "3号館"
  const Building10Name: string := "10号館"

  const WholeMapEntries: seq<Entry> := [
    Entry("wholeMap.glb", MapRecord(MapPath, WholeMapName, None, []))
  ]

  const Building1Entries: seq<Entry> := [
    Entry("1_B1.glb", Floor(Building1MapPath, Building1Name, "B1")),
    Entry("1_1.glb", Floor(Building1MapPath, Building1Name, "1")),
    Entry("1_2.glb", Floor(Building1MapPath, Building1Name, "2")),
    Entry("1_3.glb", Floor(Building1MapPath, Building1Name, "3")),
    Entry("1_4.glb", Floor(Building1MapPath, Building1Name, "4"))
  ]

  const Building3Entries: seq<Entry> := [
    Entry("3_1.glb", Floor(Building3MapPath, Building3Name, "1")),
    Entry("3_2.glb", Floor(Building3MapPath, Building3Name, "2")),
    Entry("3_3.glb", Floor(Building3MapPath, Building3Name, "3")),
    Entry("3_4.glb", Floor(Building3MapPath, Building3Name, "4")),
    Entry("3_5.glb", Floor(Building3MapPath, Building3Name, "5")),
    Entry("3_6.glb", Floor(Building3MapPath, Building3Name, "6")),
    Entry("3_7.glb", Floor(Building3MapPath, Building3Name, "7"))
  ]

  const Building10Entries: seq<Entry> := [
    Entry("10_1.glb", Floor(Building10MapPath, Building10Name, "1")),
    Entry("10_2.glb", Floor(Building10MapPath, Building10Name, "2")),
    Entry("10_3.glb", Floor(Building10MapPath, Building10Name, "3")),
    Entry("10_4.glb", Floor(Building10MapPath, Building10Name, "4")),
    Entry("10_5.glb", Floor(Building10MapPath, Building10Name, "5")),
    Entry("10_6.glb", Floor(Building10MapPath, Building10Name, "6"))
  ]

  /** `maps`, in insertion order: the whole-site map, then the floors of
      buildings 1, 3 and 10. */
  const Maps: seq<Entry> := WholeMapEntries + Building1Entries + Building3Entries + Building10Entries

  /** `extractMapsByMapName(mapName)`: the entries whose record has display
      name `mapName`, with key and record unchanged. */
  function ExtractMapsByMapName(maps: seq<Entry>, mapName: string): (r: seq<Entry>)
    ensures |r| <= |maps|
    ensures forall e | e in r :: e in maps && e.record.mapName == mapName
    ensures forall e | e in maps && e.record.mapName == mapName :: e in r
  {
    if |maps| == 0 then []
    else
      var rest := ExtractMapsByMapName(maps[1..], mapName);
      assert forall e | e in maps[1..] :: e in maps;
      if maps[0].record.mapName == mapName then [maps[0]] + rest else rest
  }

  /** The extract of an object has distinct property names, like the object. */
  lemma {:induction false} ExtractKeepsKeysDistinct(maps: seq<Entry>, mapName: string)
    requires DistinctKeys(maps)
    ensures DistinctKeys(ExtractMapsByMapName(maps, mapName))
    decreases |maps|
  {
    if |maps| > 0 {
      var tail := maps[1..];
      assert DistinctKeys(tail) by {
        forall i, j | 0 <= i < j < |tail| ensures tail[i].fileName != tail[j].fileName {
          assert tail[i] == maps[i + 1] && tail[j] == maps[j + 1];
        }
      }
      ExtractKeepsKeysDistinct(tail, mapName);
      var rest := ExtractMapsByMapName(tail, mapName);
      if maps[0].record.mapName == mapName {
        forall e | e in rest ensures e.fileName != maps[0].fileName {
          var k :| 0 <= k < |tail| && tail[k] == e;
          assert maps[k + 1] == e;
        }
        var r := [maps[0]] + rest;
        forall i, j | 0 <= i < j < |r| ensures r[i].fileName != r[j].fileName {
          if i == 0 {
            assert r[j] in rest;
          } else {
            assert r[i] == rest[i - 1] && r[j] == rest[j - 1];
          }
        }
      }
    }
  }

  /** Filtering keeps the catalog's order: extracting from two halves is
      extracting from each and concatenating. */
  lemma {:induction false} ExtractAppend(a: seq<Entry>, b: seq<Entry>, mapName: string)
    ensures ExtractMapsByMapName(a + b, mapName)
            == ExtractMapsByMapName(a, mapName) + ExtractMapsByMapName(b, mapName)
    decreases |a|
  {
    if |a| == 0 {
      assert a + b == b;
    } else {
      assert (a + b)[0] == a[0];
      assert (a + b)[1..] == a[1..] + b;
      ExtractAppend(a[1..], b, mapName);
    }
  }

  /** Extracting again by the same name returns the extract unchanged. */
  lemma {:induction false} ExtractIdempotent(maps: seq<Entry>, mapName: string)
    ensures ExtractMapsByMapName(ExtractMapsByMapName(maps, mapName), mapName)
            == ExtractMapsByMapName(maps, mapName)
    decreases |maps|
  {
    if |maps| > 0 {
      ExtractIdempotent(maps[1..], mapName);
      var rest := ExtractMapsByMapName(maps[1..], mapName);
      if maps[0].record.mapName == mapName {
        assert ([maps[0]] + rest)[0] == maps[0];
        assert ([maps[0]] + rest)[1..] == rest;
      }
    }
  }

  /** A display name no record carries yields the empty object. */
  lemma AbsentNameYieldsNothing(maps: seq<Entry>, mapName: string)
    requires forall e | e in maps :: e.record.mapName != mapName
    ensures ExtractMapsByMapName(maps, mapName) == []
  {
  }

  /** Every record of a group carries `name`. */
  ghost predicate AllNamed(entries: seq<Entry>, name: string) {
    forall e | e in entries :: e.record.mapName == name
  }

  /** Each group of the catalog belongs to one display name, and the four
      names differ. */
  lemma WholeMapGroupNamed() ensures AllNamed(WholeMapEntries, WholeMapName) {}
  lemma Building1GroupNamed() ensures AllNamed(Building1Entries, Building1Name) {}
  lemma Building3GroupNamed() ensures AllNamed(Building3Entries, Building3Name) {}
  lemma Building10GroupNamed() ensures AllNamed(Building10Entries, Building10Name) {}

  lemma GroupsAreNamed()
    ensures AllNamed(WholeMapEntries, WholeMapName)
    ensures AllNamed(Building1Entries, Building1Name)
    ensures AllNamed(Building3Entries, Building3Name)
    ensures AllNamed(Building10Entries, Building10Name)
    ensures WholeMapName != Building1Name && WholeMapName != Building3Name
    ensures WholeMapName != Building10Name && Building10Name != Building1Name
    ensures Building10Name != Building3Name
  {
    WholeMapGroupNamed();
    Building1GroupNamed();
    Building3GroupNamed();
    Building10GroupNamed();
  }

  /** A group of another display name contributes nothing. */
  lemma OtherGroupContributesNothing(group: seq<Entry>, groupName: string, mapName: string)
    requires AllNamed(group, groupName) && groupName != mapName
    ensures ExtractMapsByMapName(group, mapName) == []
  {
    AbsentNameYieldsNothing(group, mapName);
  }

  /** Extraction from the catalog, group by group. */
  lemma ExtractFromMaps(mapName: string)
    ensures ExtractMapsByMapName(Maps, mapName)
            == ExtractMapsByMapName(WholeMapEntries, mapName)
               + ExtractMapsByMapName(Building1Entries, mapName)
               + ExtractMapsByMapName(Building3Entries, mapName)
               + ExtractMapsByMapName(Building10Entries, mapName)
  {
    var a := WholeMapEntries + Building1Entries;
    var b := a + Building3Entries;
    ExtractAppend(b, Building10Entries, mapName);
    ExtractAppend(a, Building3Entries, mapName);
    ExtractAppend(WholeMapEntries, Building1Entries, mapName);
  }

  /** The whole-site name selects the single whole-site model, with no floor. */
  lemma WholeMapEntry()
    ensures ExtractMapsByMapName(Maps, "全体マップ")
            == [Entry("wholeMap.glb", MapRecord("data/map3DModel/", "全体マップ", None, []))]
  {
    ExtractFromMaps(WholeMapName);
    GroupsAreNamed();
    AllMatchingIsIdentity(WholeMapEntries, WholeMapName);
    OtherGroupContributesNothing(Building1Entries, Building1Name, WholeMapName);
    OtherGroupContributesNothing(Building3Entries, Building3Name, WholeMapName);
    OtherGroupContributesNothing(Building10Entries, Building10Name, WholeMapName);
  }

  /** Building 10 yields exactly its own group. */
  lemma Building10Extract()
    ensures ExtractMapsByMapName(Maps, "10号館") == Building10Entries
  {
    ExtractFromMaps(Building10Name);
    GroupsAreNamed();
    OtherGroupContributesNothing(WholeMapEntries, WholeMapName, Building10Name);
    OtherGroupContributesNothing(Building1Entries, Building1Name, Building10Name);
    OtherGroupContributesNothing(Building3Entries, Building3Name, Building10Name);
    AllMatchingIsIdentity(Building10Entries, Building10Name);
  }

  /** The building-10 floor files "10_1.glb" to "10_6.glb", with floors
      "1" to "6", in that order. */
  predicate SixBuilding10Floors(r: seq<Entry>) {
    && |r| == 6
    && [r[0].fileName, r[1].fileName, r[2].fileName, r[3].fileName, r[4].fileName, r[5].fileName]
       == ["10_1.glb", "10_2.glb", "10_3.glb", "10_4.glb", "10_5.glb", "10_6.glb"]
    && [r[0].record.floor, r[1].record.floor, r[2].record.floor,
        r[3].record.floor, r[4].record.floor, r[5].record.floor]
       == [Some("1"), Some("2"), Some("3"), Some("4"), Some("5"), Some("6")]
  }

  /** Building 10 yields its six floors, "1" to "6", in catalog order. */
  lemma Building10Floors()
    ensures SixBuilding10Floors(ExtractMapsByMapName(Maps, "10号館"))
  {
    Building10Extract();
    Building10Group();
  }

  lemma Building10Group()
    ensures SixBuilding10Floors(Building10Entries)
  {
  }

  /** When every record has the name, nothing is dropped. */
  lemma {:induction false} AllMatchingIsIdentity(maps: seq<Entry>, mapName: string)
    requires AllNamed(maps, mapName)
    ensures ExtractMapsByMapName(maps, mapName) == maps
    decreases |maps|
  {
    if |maps| > 0 {
      var tail := maps[1..];
      assert maps == [maps[0]] + tail;
      assert forall e | e in tail :: e in maps;
      AllMatchingIsIdentity(tail, mapName);
    }
  }
}
