/** The part of a three.js scene graph the core reads: every object has a
    name, a position, an optional material and an ordered list of children.
    `Traverse` is the pre-order walk of `Object3D.traverse`, and
    `GetObjectByName` is `Object3D.getObjectByName`. */
module Scene {
  import opened Wrappers

  datatype Vec3 = Vec3(x: real, y: real, z: real)

  /** A colour as three.js stores it: three channels. */
  datatype Colour = Rgb(r: real, g: real, b: real)

  /** Only the colour of a material is used. */
  datatype Material = Material(colour: Colour)

  datatype Object3D = Object3D(
    name: string,
    position: Vec3,
    material: Option<Material>,
    children: seq<Object3D>)

  /** Every object of the tree rooted at `o`, parent before children,
      children in order. */
  function Traverse(o: Object3D): (r: seq<Object3D>)
    ensures |r| >= 1 && r[0] == o
    ensures forall c | c in o.children :: c in r
    decreases o, 1
  {
    [o] + TraverseAll(o.children)
  }

  /** The pre-order walks of a list of sibling trees, one after another. */
  function TraverseAll(cs: seq<Object3D>): (r: seq<Object3D>)
    ensures forall c | c in cs :: c in r
    decreases cs, 0
  {
    if |cs| == 0 then [] else Traverse(cs[0]) + TraverseAll(cs[1..])
  }

  /** `o.getObjectByName(n)`: checks `o` itself, then searches each child
      subtree in order; the first hit wins. */
  function GetObjectByName(o: Object3D, n: string): (r: Option<Object3D>)
    ensures r.Some? ==> r.value.name == n
    decreases o, 1
  {
    if o.name == n then Some(o) else FindInChildren(o.children, n)
  }

  function FindInChildren(cs: seq<Object3D>, n: string): (r: Option<Object3D>)
    ensures r.Some? ==> r.value.name == n
    decreases cs, 0
  {
    if |cs| == 0 then None
    else
      match GetObjectByName(cs[0], n)
      case Some(x) => Some(x)
      case None => FindInChildren(cs[1..], n)
  }

  /** Reference definition: the earliest object of a sequence bearing name `n`. */
  function FirstNamed(s: seq<Object3D>, n: string): (r: Option<Object3D>)
    ensures r.None? <==> forall i :: 0 <= i < |s| ==> s[i].name != n
    ensures r.Some? ==> exists i :: 0 <= i < |s| && s[i] == r.value && s[i].name == n
                                    && forall j :: 0 <= j < i ==> s[j].name != n
  {
    if |s| == 0 then None
    else if s[0].name == n then Some(s[0])
    else
      var r := FirstNamed(s[1..], n);
      assert forall i :: 1 <= i < |s| ==> s[i] == s[1..][i - 1];
      r
  }

  lemma {:induction false} FirstNamedAppend(a: seq<Object3D>, b: seq<Object3D>, n: string)
    ensures FirstNamed(a + b, n) == if FirstNamed(a, n).Some? then FirstNamed(a, n) else FirstNamed(b, n)
    decreases |a|
  {
    if |a| == 0 {
      assert a + b == b;
    } else {
      assert (a + b)[0] == a[0];
      assert (a + b)[1..] == a[1..] + b;
      if a[0].name != n {
        FirstNamedAppend(a[1..], b, n);
      }
    }
  }

  /** `getObjectByName` returns exactly the first object of the pre-order
      traversal that carries the name. */
  lemma {:induction false} GetObjectByNameIsFirstInTraversal(o: Object3D, n: string)
    ensures GetObjectByName(o, n) == FirstNamed(Traverse(o), n)
    decreases o, 1
  {
    var t := Traverse(o);
    assert t[0] == o;
    assert t[1..] == TraverseAll(o.children);
    if o.name != n {
      FindInChildrenIsFirstInTraversal(o.children, n);
      assert FirstNamed(t, n) == FirstNamed(t[1..], n);
    }
  }

  lemma {:induction false} FindInChildrenIsFirstInTraversal(cs: seq<Object3D>, n: string)
    ensures FindInChildren(cs, n) == FirstNamed(TraverseAll(cs), n)
    decreases cs, 0
  {
    if |cs| != 0 {
      GetObjectByNameIsFirstInTraversal(cs[0], n);
      FindInChildrenIsFirstInTraversal(cs[1..], n);
      FirstNamedAppend(Traverse(cs[0]), TraverseAll(cs[1..]), n);
    }
  }

  /** Searching children after appending one more object: the old children
      are searched first, the new one last. */
  lemma {:induction false} FindInChildrenAppend(cs: seq<Object3D>, m: Object3D, n: string)
    ensures FindInChildren(cs + [m], n)
            == if FindInChildren(cs, n).Some? then FindInChildren(cs, n) else GetObjectByName(m, n)
    decreases |cs|
  {
    if |cs| == 0 {
      assert (cs + [m])[1..] == [];
    } else {
      assert (cs + [m])[0] == cs[0];
      assert (cs + [m])[1..] == cs[1..] + [m];
      if GetObjectByName(cs[0], n).None? {
        FindInChildrenAppend(cs[1..], m, n);
      }
    }
  }
}
