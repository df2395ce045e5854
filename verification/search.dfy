/** The search box's `input` handler (script.js): it keeps two variables, the
    highlighted object and that object's colour before highlighting. On every
    input it first puts the saved colour back, then walks the scene in
    traversal order and paints red the first object that has a material and
    whose name equals the search text exactly, saving its colour first.

    Only names and materials matter to the handler, so the scene is modelled
    as the sequence of (name, material) pairs in traversal order, and the
    highlighted object as its position in that sequence. */
module Search {
  import opened Wrappers
  import opened Scene

  /** `color.set(0xff0000)`. */
  const HighlightColour: Colour := Rgb(1.0, 0.0, 0.0)

  /** What the handler sees of one object. */
  datatype Mesh = Mesh(name: string, material: Option<Material>)

  /** `highlightedObject` and `originalColor`; `null` is `None`. */
  datatype SearchState = SearchState(highlighted: Option<nat>, originalColour: Option<Colour>)

  /** The state before any input. */
  const NoHighlight := SearchState(None, None)

  datatype Searched = Searched(scene: seq<Mesh>, state: SearchState)

  /** The scene as the handler's `traverse` sees it. */
  function Meshes(root: Object3D): (r: seq<Mesh>)
    ensures |r| == |Traverse(root)|
    ensures forall i :: 0 <= i < |r| ==>
              r[i].name == Traverse(root)[i].name && r[i].material == Traverse(root)[i].material
  {
    var t := Traverse(root);
    seq(|t|, i requires 0 <= i < |t| => Mesh(t[i].name, t[i].material))
  }

  /** The two variables are set and cleared together, and a highlighted
      object exists and has a material. */
  ghost predicate Valid(scene: seq<Mesh>, st: SearchState) {
    && (st.highlighted.Some? <==> st.originalColour.Some?)
    && (st.highlighted.Some? ==>
          st.highlighted.value < |scene| && scene[st.highlighted.value].material.Some?)
  }

  /** The traversal callback's condition, apart from "nothing highlighted yet". */
  predicate Matches(m: Mesh, term: string) {
    m.material.Some? && m.name == term
  }

  function SetColour(m: Mesh, c: Colour): Mesh
    requires m.material.Some?
  {
    m.(material := Some(m.material.value.(colour := c)))
  }

  /** The scene with the highlighted object's saved colour put back. */
  function Restore(scene: seq<Mesh>, st: SearchState): (r: seq<Mesh>)
    requires Valid(scene, st)
    ensures |r| == |scene|
    ensures forall k :: 0 <= k < |scene| ==>
              r[k].name == scene[k].name && r[k].material.Some? == scene[k].material.Some?
    ensures st.highlighted.Some? ==>
              r[st.highlighted.value].material.value.colour == st.originalColour.value
    ensures forall k :: 0 <= k < |scene| && Some(k) != st.highlighted ==> r[k] == scene[k]
  {
    if st.highlighted.Some? && st.originalColour.Some? then
      var h := st.highlighted.value;
      scene[h := SetColour(scene[h], st.originalColour.value)]
    else
      scene
  }

  /** The first position, in traversal order, of an object the search text
      selects. */
  function FirstMatch(scene: seq<Mesh>, term: string): (r: Option<nat>)
    ensures r.None? <==> forall k :: 0 <= k < |scene| ==> !Matches(scene[k], term)
    ensures r.Some? ==> && r.value < |scene| && Matches(scene[r.value], term)
                        && forall k :: 0 <= k < r.value ==> !Matches(scene[k], term)
  {
    if |scene| == 0 then None
    else if Matches(scene[0], term) then Some(0)
    else
      var rest := FirstMatch(scene[1..], term);
      assert forall k :: 1 <= k < |scene| ==> scene[k] == scene[1..][k - 1];
      match rest
      case None => None
      case Some(j) => Some(j + 1)
  }

  /** Only names and the presence of a material decide the first match. */
  lemma {:induction false} FirstMatchIgnoresColour(a: seq<Mesh>, b: seq<Mesh>, term: string)
    requires |a| == |b|
    requires forall k :: 0 <= k < |a| ==> a[k].name == b[k].name && a[k].material.Some? == b[k].material.Some?
    ensures FirstMatch(a, term) == FirstMatch(b, term)
  {
    assert forall k :: 0 <= k < |a| ==> (Matches(a[k], term) <==> Matches(b[k], term));
  }

  /** One `input` event with search text `term`. */
  function SearchInput(scene: seq<Mesh>, st: SearchState, term: string): (r: Searched)
    requires Valid(scene, st)
    ensures |r.scene| == |scene|
    ensures Valid(r.scene, r.state)
    ensures r.state.highlighted.None? <==> forall k :: 0 <= k < |scene| ==> !Matches(scene[k], term)
    ensures r.state.highlighted.Some? ==>
              var j := r.state.highlighted.value;
              && Matches(scene[j], term)
              && (forall k :: 0 <= k < j ==> !Matches(scene[k], term))
              && r.scene[j].material.value.colour == HighlightColour
              && r.state.originalColour == Some(Restore(scene, st)[j].material.value.colour)
    ensures forall k :: 0 <= k < |scene| && Some(k) != r.state.highlighted ==>
              r.scene[k] == Restore(scene, st)[k]
    ensures Restore(r.scene, r.state) == Restore(scene, st)
  {
    var restored := Restore(scene, st);
    FirstMatchIgnoresColour(restored, scene, term);
    match FirstMatch(restored, term)
    case None =>
      Searched(restored, NoHighlight)
    case Some(j) =>
      var saved := restored[j].material.value.colour;
      var painted := restored[j := SetColour(restored[j], HighlightColour)];
      assert painted[j := SetColour(painted[j], saved)] == restored;
      Searched(painted, SearchState(Some(j), Some(saved)))
  }

  /** Typing the same text again changes nothing. */
  lemma {:induction false} SearchInputIdempotent(scene: seq<Mesh>, st: SearchState, term: string)
    requires Valid(scene, st)
    ensures var once := SearchInput(scene, st, term);
            SearchInput(once.scene, once.state, term) == once
  {
    var once := SearchInput(scene, st, term);
    assert Restore(once.scene, once.state) == Restore(scene, st);
  }

  /** The handler on a scene tree: from the initial state, an input
      highlights the first object of `traverse` that has a material and is
      named exactly as the search text, paints it red, and highlights
      nothing when no such object exists. */
  lemma SearchOnScene(root: Object3D, term: string)
    ensures var r := SearchInput(Meshes(root), NoHighlight, term);
            var t := Traverse(root);
            && (r.state.highlighted.None? <==>
                  forall k :: 0 <= k < |t| ==> !(t[k].material.Some? && t[k].name == term))
            && (r.state.highlighted.Some? ==>
                  var j := r.state.highlighted.value;
                  && j < |t| && t[j].material.Some? && t[j].name == term
                  && (forall k :: 0 <= k < j ==> !(t[k].material.Some? && t[k].name == term))
                  && r.scene[j].material.value.colour == HighlightColour
                  && r.state.originalColour == Some(t[j].material.value.colour))
  {
  }

  /** A run of inputs starting from `st`. */
  function Run(scene: seq<Mesh>, st: SearchState, terms: seq<string>): (r: Searched)
    requires Valid(scene, st)
    ensures Valid(r.scene, r.state)
    ensures |r.scene| == |scene|
    ensures forall k :: 0 <= k < |scene| ==> r.scene[k].name == scene[k].name
    decreases |terms|
  {
    if |terms| == 0 then Searched(scene, st)
    else
      var next := SearchInput(scene, st, terms[0]);
      Run(next.scene, next.state, terms[1..])
  }

  /** However many inputs are typed, undoing the current highlight gives back
      the scene as it was before the first search: every colour change is
      temporary, and at most the one highlighted object differs. */
  lemma {:induction false} RunRestoresScene(scene: seq<Mesh>, terms: seq<string>)
    ensures var r := Run(scene, NoHighlight, terms);
            && Restore(r.scene, r.state) == scene
            && forall k :: 0 <= k < |scene| && Some(k) != r.state.highlighted ==> r.scene[k] == scene[k]
  {
    RunKeepsRestored(scene, NoHighlight, terms);
  }

  lemma {:induction false} RunKeepsRestored(scene: seq<Mesh>, st: SearchState, terms: seq<string>)
    requires Valid(scene, st)
    ensures Restore(Run(scene, st, terms).scene, Run(scene, st, terms).state) == Restore(scene, st)
    decreases |terms|
  {
    if |terms| > 0 {
      var next := SearchInput(scene, st, terms[0]);
      RunKeepsRestored(next.scene, next.state, terms[1..]);
    }
  }
}
