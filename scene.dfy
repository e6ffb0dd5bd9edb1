/** The values shown on the map area: polygons ("rooms"), their control points and the
    selection rectangle, kept in one ordered display list. */
module Scene {
  import opened Strings
  import opened Options

  /** A position on the map area; the source keeps it as two doubles. */
  datatype Point = Point(x: real, y: real)

  /** A polygon. `id` stands for its object identity, `sides` for the side count it was
      constructed with and `corners` for the number of control points it has. */
  datatype Shape = Shape(id: nat, sides: int, corners: nat)

  /** A node of the display list. */
  datatype Node = Polygon(shape: Shape) | ControlPoint(owner: nat, index: nat) | SelectRect

  /** What a mouse event reports as its target: the map area itself or one of its nodes. */
  datatype Target = Canvas | OnNode(node: Node)

  datatype MouseEvent = MouseEvent(target: Target, pos: Point)

  predicate IsPolygon(t: Target)
  {
    t.OnNode? && t.node.Polygon?
  }

  /** The exceptions an event handler can end with. */
  datatype Exception = ClassCastException | NullPointerException

  datatype Outcome = Done | Thrown(exception: Exception)

  /** What the map area needs of the polygon class, whose code is not part of this model. */
  datatype Polygons = Polygons(
    cornersFor: int -> nat,            // control points of a new polygon with this side count
    parse: seq<string> -> (int, nat),  // side count and control points of a polygon read from its lines
    encode: Shape -> string)           // the polygon's own text form

  /** The control points of a polygon, in order. */
  function ControlPoints(s: Shape): (cps: seq<Node>)
    ensures |cps| == s.corners
    ensures forall n :: n in cps <==> n.ControlPoint? && n.owner == s.id && n.index < s.corners
  {
    PointsUpTo(s.id, s.corners)
  }

  function PointsUpTo(owner: nat, count: nat): (cps: seq<Node>)
    ensures |cps| == count
    ensures forall n :: n in cps <==> n.ControlPoint? && n.owner == owner && n.index < count
  {
    if count == 0 then [] else PointsUpTo(owner, count - 1) + [ControlPoint(owner, count - 1)]
  }

  /** A polygon followed by its control points, as the map area adds a finished polygon. */
  function Block(s: Shape): seq<Node>
  {
    [Polygon(s)] + ControlPoints(s)
  }

  /** The polygons of a display list, in display order. */
  function Shapes(nodes: seq<Node>): (shapes: seq<Shape>)
    ensures |shapes| <= |nodes|
    ensures forall s :: s in shapes <==> Polygon(s) in nodes
  {
    if nodes == [] then []
    else
      assert forall s :: Polygon(s) in nodes <==> nodes[0] == Polygon(s) || Polygon(s) in nodes[1..];
      (if nodes[0].Polygon? then [nodes[0].shape] else []) + Shapes(nodes[1..])
  }

  /** A list without polygons has no shapes. */
  lemma {:induction false} ShapesNone(nodes: seq<Node>)
    requires forall n :: n in nodes ==> !n.Polygon?
    ensures Shapes(nodes) == []
  {
    if nodes != [] {
      ShapesNone(nodes[1..]);
    }
  }

  /** Taking the polygons commutes with concatenation: display order is kept. */
  lemma {:induction false} ShapesAppend(a: seq<Node>, b: seq<Node>)
    ensures Shapes(a + b) == Shapes(a) + Shapes(b)
  {
    if a == [] {
      assert a + b == b;
    } else {
      assert (a + b)[1..] == a[1..] + b;
      ShapesAppend(a[1..], b);
    }
  }

  /** The list without any node of `gone` (a list's `removeAll`). */
  function Exclude(nodes: seq<Node>, gone: seq<Node>): (kept: seq<Node>)
    ensures forall n :: n in kept <==> n in nodes && n !in gone
  {
    if nodes == [] then []
    else
      assert nodes == [nodes[0]] + nodes[1..];
      (if nodes[0] in gone then [] else [nodes[0]]) + Exclude(nodes[1..], gone)
  }

  /** Excluding commutes with concatenation: the kept nodes stay in their relative order. */
  lemma {:induction false} ExcludeAppend(a: seq<Node>, b: seq<Node>, gone: seq<Node>)
    ensures Exclude(a + b, gone) == Exclude(a, gone) + Exclude(b, gone)
  {
    if a == [] {
      assert a + b == b;
    } else {
      assert (a + b)[1..] == a[1..] + b;
      ExcludeAppend(a[1..], b, gone);
    }
  }

  /** Excluding nodes a list does not hold leaves it as it is. */
  lemma {:induction false} ExcludeNothing(nodes: seq<Node>, gone: seq<Node>)
    requires forall n :: n in nodes ==> n !in gone
    ensures Exclude(nodes, gone) == nodes
  {
    if nodes != [] {
      ExcludeNothing(nodes[1..], gone);
    }
  }

  /** Two exclusions in a row are one exclusion of both lists. */
  lemma {:induction false} ExcludeTwice(nodes: seq<Node>, first: seq<Node>, second: seq<Node>)
    ensures Exclude(Exclude(nodes, first), second) == Exclude(nodes, first + second)
  {
    if nodes != [] {
      ExcludeTwice(nodes[1..], first, second);
      var head := if nodes[0] in first then [] else [nodes[0]];
      ExcludeAppend(head, Exclude(nodes[1..], first), second);
    }
  }

  /** The list without the first occurrence of `x` (a list's `remove(Object)`). */
  function RemoveFirst(nodes: seq<Node>, x: Node): (rest: seq<Node>)
    ensures x !in nodes ==> rest == nodes
    ensures x in nodes ==> |rest| == |nodes| - 1
    ensures forall n :: n in rest ==> n in nodes
  {
    if nodes == [] then []
    else if nodes[0] == x then nodes[1..] else [nodes[0]] + RemoveFirst(nodes[1..], x)
  }

  /** `remove` takes out one occurrence of the node and nothing else. */
  lemma {:induction false} RemoveFirstBag(nodes: seq<Node>, x: Node)
    ensures multiset(RemoveFirst(nodes, x)) == multiset(nodes) - multiset{x}
  {
    if nodes != [] {
      assert nodes == [nodes[0]] + nodes[1..];
      if nodes[0] != x {
        RemoveFirstBag(nodes[1..], x);
      }
    }
  }

  /** Removing drops exactly the first occurrence and keeps everything else in order. */
  lemma {:induction false} RemoveFirstAt(before: seq<Node>, x: Node, after: seq<Node>)
    requires x !in before
    ensures RemoveFirst(before + [x] + after, x) == before + after
  {
    var l := before + [x] + after;
    if before == [] {
      assert l == [x] + after && l[1..] == after;
    } else {
      var rest := before[1..] + after;
      assert l[0] == before[0] && l[1..] == before[1..] + [x] + after;
      RemoveFirstAt(before[1..], x, after);
      assert |before + after| == 1 + |rest|;
      assert forall i :: 0 <= i < |rest| ==> (before + after)[i + 1] == rest[i];
      assert before + after == [before[0]] + rest;
    }
  }

  /** For a node that is not the selection rectangle and occurs at most once, removing it is excluding it. */
  lemma {:induction false} RemoveFirstDistinct(nodes: seq<Node>, x: Node)
    requires Distinct(nodes) && x != SelectRect
    ensures RemoveFirst(nodes, x) == Exclude(nodes, [x])
  {
    if nodes != [] {
      if nodes[0] == x {
        assert SameObject(x, x);
        ExcludeNothing(nodes[1..], [x]);
      } else {
        RemoveFirstDistinct(nodes[1..], x);
      }
    }
  }

  /** A Select press followed by its release leaves the display list as it was, provided no
      selection rectangle was shown before the press. */
  lemma SelectRoundTrip(children: seq<Node>)
    requires SelectRect !in children
    ensures RemoveFirst(children + [SelectRect], SelectRect) == children
  {
    RemoveFirstAt(children, SelectRect, []);
    assert children + [SelectRect] + [] == children + [SelectRect];
    assert children + [] == children;
  }

  /** Every identity a node mentions was handed out before `nextId`. */
  predicate Below(n: Node, nextId: nat)
  {
    match n
    case Polygon(s) => s.id < nextId
    case ControlPoint(owner, _) => owner < nextId
    case SelectRect => true
  }

  /** Every identity a node mentions was handed out at `firstId` or later. */
  predicate Above(n: Node, firstId: nat)
  {
    match n
    case Polygon(s) => s.id >= firstId
    case ControlPoint(owner, _) => owner >= firstId
    case SelectRect => true
  }

  /** Two nodes stand for the same object: a polygon is its identity, a control point its
      owner and position; the selection rectangle may be shown more than once. */
  predicate SameObject(m: Node, n: Node)
  {
    match m
    case Polygon(s) => n.Polygon? && n.shape.id == s.id
    case ControlPoint(owner, index) => n.ControlPoint? && n.owner == owner && n.index == index
    case SelectRect => false
  }

  /** No polygon and no control point is shown twice; the selection rectangle is exempt. */
  predicate Distinct(nodes: seq<Node>)
  {
    nodes == [] || ((forall n :: n in nodes[1..] ==> !SameObject(nodes[0], n)) && Distinct(nodes[1..]))
  }

  /** Two lists without objects in common concatenate to a list without repetitions. */
  lemma {:induction false} DistinctAppend(a: seq<Node>, b: seq<Node>)
    requires Distinct(a) && Distinct(b)
    requires forall m, n :: m in a && n in b ==> !SameObject(m, n)
    ensures Distinct(a + b)
  {
    if a == [] {
      assert a + b == b;
    } else {
      assert (a + b)[1..] == a[1..] + b;
      DistinctAppend(a[1..], b);
    }
  }

  /** A list of older objects followed by a list of newer ones has no repetitions. */
  lemma DistinctSeparated(a: seq<Node>, b: seq<Node>, id: nat)
    requires Distinct(a) && Distinct(b)
    requires forall n :: n in a ==> Below(n, id)
    requires forall n :: n in b ==> Above(n, id)
    ensures Distinct(a + b)
  {
    DistinctAppend(a, b);
  }

  lemma {:induction false} DistinctExclude(nodes: seq<Node>, gone: seq<Node>)
    requires Distinct(nodes)
    ensures Distinct(Exclude(nodes, gone))
  {
    if nodes != [] {
      DistinctExclude(nodes[1..], gone);
      var rest := Exclude(nodes[1..], gone);
      if nodes[0] in gone {
        assert Exclude(nodes, gone) == rest;
      } else {
        DistinctSingle(nodes[0]);
        DistinctAppend([nodes[0]], rest);
      }
    }
  }

  lemma {:induction false} DistinctRemoveFirst(nodes: seq<Node>, x: Node)
    requires Distinct(nodes)
    ensures Distinct(RemoveFirst(nodes, x))
  {
    if nodes != [] && nodes[0] != x {
      DistinctRemoveFirst(nodes[1..], x);
      var rest := RemoveFirst(nodes[1..], x);
      DistinctSingle(nodes[0]);
      DistinctAppend([nodes[0]], rest);
    }
  }

  lemma {:induction false} DistinctPointsUpTo(owner: nat, count: nat)
    ensures Distinct(PointsUpTo(owner, count))
  {
    if count > 0 {
      DistinctPointsUpTo(owner, count - 1);
      DistinctAppend(PointsUpTo(owner, count - 1), [ControlPoint(owner, count - 1)]);
    }
  }

  lemma DistinctSingle(n: Node)
    ensures Distinct([n])
  {
    assert [n][1..] == [];
  }

  /** A block shows its polygon and each of its control points once. */
  lemma DistinctBlock(s: Shape)
    ensures Distinct(Block(s))
  {
    DistinctPointsUpTo(s.id, s.corners);
    DistinctAppend([Polygon(s)], ControlPoints(s));
  }

  /** Identity determines the polygon: two polygons of a repetition-free list with the same
      identity are the same polygon. */
  lemma {:induction false} SameId(nodes: seq<Node>, s: Shape, t: Shape)
    requires Distinct(nodes) && Polygon(s) in nodes && Polygon(t) in nodes && s.id == t.id
    ensures s == t
  {
    assert nodes == [nodes[0]] + nodes[1..];
    if nodes[0] != Polygon(s) && nodes[0] != Polygon(t) {
      SameId(nodes[1..], s, t);
    }
  }

  /** The invariant of the display list and the active polygon: identities come from the
      counter, no polygon or control point is shown twice, and the active polygon's control
      points are not shown yet. */
  ghost predicate WellFormed(children: seq<Node>, active: Option<Shape>, nextId: nat)
  {
    && (forall n :: n in children ==> Below(n, nextId))
    && Distinct(children)
    && (active.Some? ==>
          && active.value.id < nextId
          && forall n :: n in children && n.ControlPoint? ==> n.owner != active.value.id)
  }

  /** Removing the first occurrence of any node keeps the invariant: the Select release
      removes the selection rectangle with it, the Erase release the event's target. */
  lemma RemoveWellFormed(children: seq<Node>, active: Option<Shape>, nextId: nat, x: Node)
    requires WellFormed(children, active, nextId)
    ensures WellFormed(RemoveFirst(children, x), active, nextId)
  {
    DistinctRemoveFirst(children, x);
  }

  lemma ExcludeWellFormed(children: seq<Node>, active: Option<Shape>, nextId: nat, gone: seq<Node>)
    requires WellFormed(children, active, nextId)
    ensures WellFormed(Exclude(children, gone), active, nextId)
  {
    DistinctExclude(children, gone);
  }

  /** Showing the selection rectangle keeps the invariant. */
  lemma AddRectWellFormed(children: seq<Node>, active: Option<Shape>, nextId: nat)
    requires WellFormed(children, active, nextId)
    ensures WellFormed(children + [SelectRect], active, nextId)
  {
    DistinctSingle(SelectRect);
    DistinctAppend(children, [SelectRect]);
  }

  /** Adding a new polygon and making it active keeps the invariant. */
  lemma AddPolygonWellFormed(children: seq<Node>, active: Option<Shape>, s: Shape)
    requires WellFormed(children, active, s.id)
    ensures WellFormed(children + [Polygon(s)], Some(s), s.id + 1)
  {
    DistinctSingle(Polygon(s));
    DistinctSeparated(children, [Polygon(s)], s.id);
  }

  /** Showing the active polygon's control points and dropping it as active keeps the invariant. */
  lemma ReleaseWellFormed(children: seq<Node>, s: Shape, nextId: nat)
    requires WellFormed(children, Some(s), nextId)
    ensures WellFormed(children + ControlPoints(s), None, nextId)
  {
    DistinctPointsUpTo(s.id, s.corners);
    DistinctAppend(children, ControlPoints(s));
  }

  /** Erasing a polygon with `remove` and then its control points with `removeAll` takes exactly
      the polygon and its control points out, and keeps all other nodes in their order. */
  lemma EraseIsExclude(children: seq<Node>, active: Option<Shape>, nextId: nat, s: Shape)
    requires WellFormed(children, active, nextId)
    ensures Exclude(RemoveFirst(children, Polygon(s)), ControlPoints(s)) == Exclude(children, Block(s))
  {
    RemoveFirstDistinct(children, Polygon(s));
    ExcludeTwice(children, [Polygon(s)], ControlPoints(s));
  }

  /** Erasing a shown polygon removes it and its control points and nothing else: every other
      polygon stays, and so do that polygon's control points. */
  lemma EraseFrame(children: seq<Node>, active: Option<Shape>, nextId: nat, s: Shape, t: Shape, k: nat)
    requires WellFormed(children, active, nextId)
    requires Polygon(s) in children && Polygon(t) in children && t != s
    ensures Polygon(s) !in Exclude(children, Block(s))
    ensures forall j: nat :: j < s.corners ==> ControlPoint(s.id, j) !in Exclude(children, Block(s))
    ensures Polygon(t) in Exclude(children, Block(s))
    ensures ControlPoint(t.id, k) in children ==> ControlPoint(t.id, k) in Exclude(children, Block(s))
  {
    if t.id == s.id {
      SameId(children, s, t);
    }
  }

  /** The polygon built from the lines of one group, with identity `id`. */
  function Parsed(polygons: Polygons, lines: seq<string>, id: nat): Shape
  {
    Shape(id, polygons.parse(lines).0, polygons.parse(lines).1)
  }

  /** The nodes added for a list of line groups, the i-th polygon with identity `firstId + i`:
      each polygon immediately followed by its control points. */
  function Loaded(polygons: Polygons, contents: seq<seq<string>>, firstId: nat): (nodes: seq<Node>)
    ensures nodes == [] <==> contents == []
    ensures contents != [] ==> nodes[0] == Polygon(Parsed(polygons, contents[0], firstId))
  {
    if contents == [] then []
    else Block(Parsed(polygons, contents[0], firstId)) + Loaded(polygons, contents[1..], firstId + 1)
  }

  /** `order` lists every element of `keys` exactly once. */
  ghost predicate Enumerates<K(!new)>(order: seq<K>, keys: set<K>)
  {
    && (forall k :: k in order <==> k in keys)
    && (forall i, j :: 0 <= i < j < |order| ==> order[i] != order[j])
  }

  lemma EnumeratesSnoc<K(!new)>(order: seq<K>, keys: set<K>, k: K)
    requires Enumerates(order, keys) && k !in keys
    ensures Enumerates(order + [k], keys + {k})
  {
  }

  /** Loading one more group appends its block. */
  lemma {:induction false} LoadedSnoc(polygons: Polygons, contents: seq<seq<string>>, lines: seq<string>, firstId: nat)
    ensures Loaded(polygons, contents + [lines], firstId)
         == Loaded(polygons, contents, firstId) + Block(Parsed(polygons, lines, firstId + |contents|))
  {
    if contents == [] {
      assert contents + [lines] == [lines];
    } else {
      assert (contents + [lines])[1..] == contents[1..] + [lines];
      LoadedSnoc(polygons, contents[1..], lines, firstId + 1);
    }
  }

  /** Loading one more group after a prefix appends its block. */
  lemma LoadedStep(prefix: seq<Node>, polygons: Polygons, contents: seq<seq<string>>, lines: seq<string>, firstId: nat)
    ensures prefix + Loaded(polygons, contents + [lines], firstId)
         == (prefix + Loaded(polygons, contents, firstId)) + Block(Parsed(polygons, lines, firstId + |contents|))
  {
    LoadedSnoc(polygons, contents, lines, firstId);
    var a, b := Loaded(polygons, contents, firstId), Block(Parsed(polygons, lines, firstId + |contents|));
    assert prefix + (a + b) == (prefix + a) + b;
  }

  /** The loaded nodes mention exactly the identities `firstId` up to `firstId + |contents|`,
      and show no object twice. */
  lemma {:induction false} LoadedFresh(polygons: Polygons, contents: seq<seq<string>>, firstId: nat)
    ensures forall n :: n in Loaded(polygons, contents, firstId) ==>
              Above(n, firstId) && Below(n, firstId + |contents|)
    ensures Distinct(Loaded(polygons, contents, firstId))
  {
    if contents != [] {
      var s := Parsed(polygons, contents[0], firstId);
      LoadedFresh(polygons, contents[1..], firstId + 1);
      DistinctBlock(s);
      DistinctSeparated(Block(s), Loaded(polygons, contents[1..], firstId + 1), firstId + 1);
    }
  }

  /** Loading fresh polygons after a well-formed list keeps the invariant. */
  lemma LoadedWellFormed(
    polygons: Polygons, contents: seq<seq<string>>, children: seq<Node>, active: Option<Shape>, firstId: nat)
    requires WellFormed(children, active, firstId)
    ensures WellFormed(children + Loaded(polygons, contents, firstId), active, firstId + |contents|)
  {
    LoadedFresh(polygons, contents, firstId);
    DistinctSeparated(children, Loaded(polygons, contents, firstId), firstId);
  }

  /** A block holds exactly one polygon. */
  lemma BlockShapes(s: Shape)
    ensures Shapes(Block(s)) == [s]
  {
    ShapesAppend([Polygon(s)], ControlPoints(s));
    ShapesNone(ControlPoints(s));
    assert [Polygon(s)][1..] == [];
  }

  /** Loading adds one polygon per group, in order, each built from that group's lines. */
  lemma {:induction false} LoadedShapes(polygons: Polygons, contents: seq<seq<string>>, firstId: nat)
    ensures |Shapes(Loaded(polygons, contents, firstId))| == |contents|
    ensures forall i :: 0 <= i < |contents| ==>
              Shapes(Loaded(polygons, contents, firstId))[i] == Parsed(polygons, contents[i], firstId + i)
  {
    if contents != [] {
      var s := Parsed(polygons, contents[0], firstId);
      var rest := Loaded(polygons, contents[1..], firstId + 1);
      LoadedShapes(polygons, contents[1..], firstId + 1);
      ShapesAppend(Block(s), rest);
      BlockShapes(s);
      var all := Shapes(Block(s) + rest);
      assert all == [s] + Shapes(rest);
      forall i | 0 <= i < |contents|
        ensures all[i] == Parsed(polygons, contents[i], firstId + i)
      {
        if i > 0 {
          assert contents[1..][i - 1] == contents[i];
        }
      }
    }
  }

  /** The text forms of the shapes, in order. */
  function Encodings(encode: Shape -> string, shapes: seq<Shape>): seq<string>
  {
    seq(|shapes|, i requires 0 <= i < |shapes| => encode(shapes[i]))
  }

  /** The saved form of a display list: the text forms of its polygons only, in display order,
      with one separator between consecutive ones. */
  function MapText(polygons: Polygons, nodes: seq<Node>, sep: string): (text: string)
    ensures Shapes(nodes) == [] ==> text == ""
    ensures |Shapes(nodes)| == 1 ==> text == polygons.encode(Shapes(nodes)[0])
  {
    Join(Encodings(polygons.encode, Shapes(nodes)), sep)
  }

  /** A list without polygons, the empty list among them, saves as the empty text. */
  lemma MapTextNoShapes(polygons: Polygons, nodes: seq<Node>, sep: string)
    ensures (forall n :: n in nodes ==> !n.Polygon?) ==> MapText(polygons, nodes, sep) == ""
  {
    if forall n :: n in nodes ==> !n.Polygon? {
      ShapesNone(nodes);
    }
  }

  /** A node that is not a polygon does not show in the saved form. */
  lemma MapTextSkips(polygons: Polygons, before: seq<Node>, n: Node, after: seq<Node>, sep: string)
    requires !n.Polygon?
    ensures MapText(polygons, before + [n] + after, sep) == MapText(polygons, before + after, sep)
  {
    ShapesAppend(before + [n], after);
    ShapesAppend(before, [n]);
    ShapesAppend(before, after);
    ShapesNone([n]);
    assert Shapes(before + [n] + after) == Shapes(before + after);
  }

  /** The saved form of two lists that both hold polygons is the two saved forms with one separator between. */
  lemma MapTextAppend(polygons: Polygons, a: seq<Node>, b: seq<Node>, sep: string)
    requires Shapes(a) != [] && Shapes(b) != []
    ensures MapText(polygons, a + b, sep) == MapText(polygons, a, sep) + sep + MapText(polygons, b, sep)
  {
    ShapesAppend(a, b);
    var e := polygons.encode;
    assert Encodings(e, Shapes(a) + Shapes(b)) == Encodings(e, Shapes(a)) + Encodings(e, Shapes(b));
    JoinAppend(Encodings(e, Shapes(a)), Encodings(e, Shapes(b)), sep);
  }

  /** The saved form of a list with a single polygon is that polygon's own text form. */
  lemma MapTextSingle(polygons: Polygons, nodes: seq<Node>, sep: string)
    requires |Shapes(nodes)| == 1
    ensures MapText(polygons, nodes, sep) == polygons.encode(Shapes(nodes)[0])
  {
  }
}
