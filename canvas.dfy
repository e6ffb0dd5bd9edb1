/** The map area: it receives mouse press, drag and release events and edits its display
    list according to the tool currently held by the shared tool state. */
module Canvas {
  import opened Tools
  import opened Options
  import opened Scene

  class MapArea {
    /** The shared tool state, read again on every event. */
    const tools: ToolState
    /** The behaviour of the polygon class this area creates and saves. */
    const polygons: Polygons

    /** The display list, in drawing order. */
    var children: seq<Node>
    /** The polygon being built by the Room tool, if any. */
    var activeShape: Option<Shape>
    /** The last recorded mouse position (startX, startY). */
    var anchor: Point
    /** The identity the next polygon created gets; stands for object allocation. */
    var nextId: nat

    ghost predicate Valid()
      reads this
    {
      WellFormed(children, activeShape, nextId)
    }

    constructor (tools: ToolState, polygons: Polygons)
      ensures Valid()
      ensures this.tools == tools && this.polygons == polygons
      ensures children == [] && activeShape == None && anchor == Point(0.0, 0.0)
    {
      this.tools := tools;
      this.polygons := polygons;
      children := [];
      activeShape := None;
      anchor := Point(0.0, 0.0);
      nextId := 0;
    }

    method ActiveTool() returns (t: Tool)
      ensures t == tools.tool
    {
      t := tools.GetTool();
    }

    /** Mouse press: record the position, then start the gesture of the active tool. */
    method PressClick(e: MouseEvent)
      requires Valid()
      modifies this`children, this`activeShape, this`anchor, this`nextId
      ensures Valid()
      ensures anchor == e.pos
      ensures tools.tool in {Door, Move, Path, Erase} ==>
                children == old(children) && activeShape == old(activeShape) && nextId == old(nextId)
      ensures tools.tool == Select ==>
                children == old(children) + [SelectRect] && activeShape == old(activeShape) && nextId == old(nextId)
      ensures tools.tool == Room ==>
                var s := Shape(old(nextId), tools.option, polygons.cornersFor(tools.option));
                && Polygon(s) !in old(children)
                && children == old(children) + [Polygon(s)]
                && activeShape == Some(s)
                && nextId == old(nextId) + 1
    {
      anchor := e.pos;
      var t := ActiveTool();
      match t {
        case Door =>
        case Move =>
        case Path =>
        case Select =>
          AddRectWellFormed(children, activeShape, nextId);
          children := children + [SelectRect];
        case Erase =>
        case Room =>
          var option := tools.GetOption();
          var s := Shape(nextId, option, polygons.cornersFor(option));
          AddPolygonWellFormed(children, activeShape, s);
          nextId := nextId + 1;
          activeShape := Some(s);
          children := children + [Polygon(s)];
      }
    }

    /** Mouse drag: Move casts the target to a polygon, translates it and records the position;
        Room redraws the active polygon. Neither changes the display list. */
    method DragClick(e: MouseEvent) returns (outcome: Outcome)
      requires Valid()
      requires e.target.OnNode? ==> forall n :: n in children && SameObject(n, e.target.node) ==> n == e.target.node
      modifies this`anchor
      ensures Valid()
      ensures outcome == match tools.tool
                case Move => if IsPolygon(e.target) then Done else Thrown(ClassCastException)
                case Room => if activeShape.Some? then Done else Thrown(NullPointerException)
                case _ => Done
      ensures anchor == if tools.tool == Move && IsPolygon(e.target) then e.pos else old(anchor)
    {
      var t := ActiveTool();
      match t {
        case Door => outcome := Done;
        case Path => outcome := Done;
        case Erase => outcome := Done;
        case Select => outcome := Done;
        case Move =>
          if IsPolygon(e.target) {
            anchor := e.pos;
            outcome := Done;
          } else {
            outcome := Thrown(ClassCastException);
          }
        case Room =>
          outcome := if activeShape.Some? then Done else Thrown(NullPointerException);
      }
    }

    /** Mouse release: finish the gesture of the active tool; when nothing is thrown the
        active polygon is dropped. A node target need not be shown any more (a gesture keeps
        the node pressed first as its target), but it agrees with whatever the list shows
        under its identity. */
    method ReleaseClick(e: MouseEvent) returns (outcome: Outcome)
      requires Valid()
      requires e.target.OnNode? ==> forall n :: n in children && SameObject(n, e.target.node) ==> n == e.target.node
      modifies this`children, this`activeShape
      ensures Valid()
      ensures outcome == match tools.tool
                case Erase => if IsPolygon(e.target) then Done else Thrown(ClassCastException)
                case Room => if old(activeShape).Some? then Done else Thrown(NullPointerException)
                case _ => Done
      ensures activeShape == if outcome == Done then None else old(activeShape)
      ensures tools.tool in {Door, Move, Path} ==> children == old(children)
      ensures tools.tool == Select ==> children == RemoveFirst(old(children), SelectRect)
      ensures tools.tool == Erase ==>
                children == match e.target
                  case Canvas => old(children)
                  case OnNode(Polygon(s)) => Exclude(old(children), Block(s))
                  case OnNode(n) => RemoveFirst(old(children), n)
      ensures tools.tool == Room ==>
                children == old(children) + if old(activeShape).Some? then ControlPoints(old(activeShape).value) else []
    {
      var t := ActiveTool();
      match t {
        case Door => outcome := Done;
        case Move => outcome := Done;
        case Path => outcome := Done;
        case Select =>
          RemoveSelection();
          outcome := Done;
        case Erase =>
          outcome := EraseTarget(e.target);
        case Room =>
          outcome := FinishActive();
      }
      if outcome == Done {
        activeShape := None;
      }
    }

    /** The Select release: the selection rectangle leaves the display list. */
    method RemoveSelection()
      requires Valid()
      modifies this`children
      ensures Valid()
      ensures children == RemoveFirst(old(children), SelectRect)
    {
      RemoveWellFormed(children, activeShape, nextId, SelectRect);
      children := RemoveFirst(children, SelectRect);
    }

    /** The Erase release: remove the target, then cast it to a polygon and remove its control points. */
    method EraseTarget(target: Target) returns (outcome: Outcome)
      requires Valid()
      requires target.OnNode? ==> forall n :: n in children && SameObject(n, target.node) ==> n == target.node
      modifies this`children
      ensures Valid()
      ensures outcome == if IsPolygon(target) then Done else Thrown(ClassCastException)
      ensures children == match target
                case Canvas => old(children)
                case OnNode(Polygon(s)) => Exclude(old(children), Block(s))
                case OnNode(n) => RemoveFirst(old(children), n)
    {
      if target.OnNode? {
        RemoveWellFormed(children, activeShape, nextId, target.node);
        children := RemoveFirst(children, target.node);
      }
      if IsPolygon(target) {
        var s := target.node.shape;
        ExcludeWellFormed(children, activeShape, nextId, ControlPoints(s));
        EraseIsExclude(old(children), activeShape, nextId, s);
        children := Exclude(children, ControlPoints(s));
        outcome := Done;
      } else {
        outcome := Thrown(ClassCastException);
      }
    }

    /** The Room release: show the control points of the active polygon. */
    method FinishActive() returns (outcome: Outcome)
      requires Valid()
      modifies this`children
      ensures outcome == if activeShape.Some? then Done else Thrown(NullPointerException)
      ensures children == old(children) + if activeShape.Some? then ControlPoints(activeShape.value) else []
      ensures activeShape.Some? ==> WellFormed(children, None, nextId)
      ensures activeShape.None? ==> Valid()
    {
      if activeShape.None? {
        outcome := Thrown(NullPointerException);
      } else {
        ReleaseWellFormed(children, activeShape.value, nextId);
        children := children + ControlPoints(activeShape.value);
        outcome := Done;
      }
    }

    /** The saved form of the map: the polygons' text forms in display order, one separator
        between consecutive ones. */
    function ConvertToString(sep: string): (text: string)
      reads this
      ensures (forall n :: n in children ==> !n.Polygon?) ==> text == ""
      ensures |Shapes(children)| == 1 ==> text == polygons.encode(Shapes(children)[0])
    {
      MapTextNoShapes(polygons, children, sep);
      MapText(polygons, children, sep)
    }

    /** Adds, for every key of `groups`, one polygon built from its lines, immediately followed
        by its control points. The keys are visited in the order the key set hands them out,
        which the map does not specify: `order` is that order and `contents` the groups' lines
        in that order. */
    method ConvertFromString<K(==,!new)>(groups: map<K, seq<string>>)
      returns (order: seq<K>, contents: seq<seq<string>>)
      requires Valid()
      modifies this`children, this`nextId
      ensures Valid()
      ensures Enumerates(order, groups.Keys) && |order| == |groups|
      ensures |contents| == |order|
      ensures forall i :: 0 <= i < |order| ==> order[i] in groups && contents[i] == groups[order[i]]
      ensures children == old(children) + Loaded(polygons, contents, old(nextId))
      ensures nextId == old(nextId) + |order|
    {
      order := KeyOrder(groups);
      contents := seq(|order|, i requires 0 <= i < |order| => groups[order[i]]);
      AddLoaded(contents);
      LoadedWellFormed(polygons, contents, old(children), activeShape, old(nextId));
    }

    /** The loop over the groups: one polygon with its control points per group, in order. */
    method AddLoaded(contents: seq<seq<string>>)
      modifies this`children, this`nextId
      ensures children == old(children) + Loaded(polygons, contents, old(nextId))
      ensures nextId == old(nextId) + |contents|
    {
      for i := 0 to |contents|
        invariant nextId == old(nextId) + i
        invariant children == old(children) + Loaded(polygons, contents[..i], old(nextId))
      {
        LoadedStep(old(children), polygons, contents[..i], contents[i], old(nextId));
        assert contents[..i + 1] == contents[..i] + [contents[i]];
        AddParsed(contents[i]);
      }
      assert contents[..|contents|] == contents;
    }

    /** The order in which the key set of `groups` hands out its keys: each key once, in an
        order the map does not specify. */
    static method KeyOrder<K(==,!new)>(groups: map<K, seq<string>>) returns (order: seq<K>)
      ensures Enumerates(order, groups.Keys) && |order| == |groups|
    {
      var remaining := groups.Keys;
      order := [];
      while remaining != {}
        invariant remaining <= groups.Keys
        invariant Enumerates(order, groups.Keys - remaining)
        invariant |order| + |remaining| == |groups|
        decreases |remaining|
      {
        var k :| k in remaining;
        EnumeratesSnoc(order, groups.Keys - remaining, k);
        assert groups.Keys - (remaining - {k}) == (groups.Keys - remaining) + {k};
        remaining := remaining - {k};
        order := order + [k];
      }
    }

    /** One step of loading: create the polygon for one group's lines and show it with its control points. */
    method AddParsed(lines: seq<string>)
      modifies this`children, this`nextId
      ensures children == old(children) + Block(Parsed(polygons, lines, old(nextId)))
      ensures nextId == old(nextId) + 1
    {
      var s := Parsed(polygons, lines, nextId);
      nextId := nextId + 1;
      children := children + [Polygon(s)];
      children := children + ControlPoints(s);
      assert children == old(children) + Block(s);
    }

    method ClearMap()
      requires Valid()
      modifies this`children
      ensures Valid()
      ensures children == []
      ensures forall sep :: ConvertToString(sep) == ""
    {
      children := [];
    }
  }
}
