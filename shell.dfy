/** The application window's behaviour: the toolbar buttons and the Room submenu, which set
    the shared tool state and the status texts, the Clear menu item, and loading a saved map. */
module Shell {
  import opened Tools
  import opened Scene
  import opened Canvas
  import opened Lines
  import opened Inputs

  /** The items of the Room submenu. */
  datatype RoomItem = Line | Triangle | Rectangle | Pentagon | Hexagon

  /** The option an item sets: the polygon's side count. */
  function Sides(item: RoomItem): (n: int)
    ensures 2 <= n <= 6
  {
    match item
    case Line => 2
    case Triangle => 3
    case Rectangle => 4
    case Pentagon => 5
    case Hexagon => 6
  }

  /** Different items set different side counts. */
  lemma SidesInjective(a: RoomItem, b: RoomItem)
    requires Sides(a) == Sides(b)
    ensures a == b
  {
  }

  class MapMaker {
    /** The one tool state of the application, the same object the map area reads. */
    const tools: ToolState
    const area: MapArea
    /** The texts of the two status labels. */
    var statusText: string
    var optionText: string

    ghost predicate Valid()
      reads this, area
    {
      area.tools == tools && area.Valid()
    }

    constructor (polygons: Polygons)
      ensures Valid() && fresh(tools) && fresh(area)
      ensures tools.Current() == INITIAL
      ensures area.children == [] && area.polygons == polygons
      ensures statusText == "Tool: Room" && optionText == "Option: {}"
    {
      var state := new ToolState();
      var mapArea := new MapArea(state, polygons);
      var t := mapArea.ActiveTool();
      var shownOption := OptionText(state);
      tools := state;
      area := mapArea;
      statusText := "Tool: " + ToolName(t);
      optionText := shownOption;
    }

    /** The option label's text, from `getOption` on the current option. */
    static method OptionText(state: ToolState) returns (text: string)
      ensures text == "Option: " + OptionLabel(state.option)
      ensures text == "Option: {}"
    {
      var option := state.GetOption();
      text := "Option: " + OptionLabel(option);
    }

    /** A toolbar button: Select, Move, Path, Erase or Door. It chooses the tool, which resets
        the option, and shows the tool and the option label. */
    method ClickToolButton(t: Tool)
      requires Valid() && t != Room
      modifies tools, this`statusText, this`optionText
      ensures Valid()
      ensures tools.Current() == Setting(t, 0)
      ensures statusText == "Tool: " + ToolName(t) && optionText == "Option: {}"
    {
      tools.SetTool(t);
      var shown := area.ActiveTool();
      statusText := "Tool: " + ToolName(shown);
      optionText := OptionText(tools);
    }

    /** A Room submenu item: the Room tool with the item's side count as option. The option
        label is left as it was. */
    method ChooseRoomShape(item: RoomItem)
      requires Valid()
      modifies tools, this`statusText
      ensures Valid()
      ensures tools.Current() == Setting(Room, Sides(item))
      ensures statusText == "Tool: Room"
    {
      tools.SetTool(Room);
      tools.SetOption(Sides(item));
      var shown := area.ActiveTool();
      statusText := "Tool: " + ToolName(shown);
    }

    /** The Clear menu item. */
    method ClearItem()
      requires Valid()
      modifies area`children
      ensures Valid()
      ensures area.children == []
    {
      area.ClearMap();
    }

    /** Loading a saved map: the file's lines grouped by five, one polygon per group. `order`
        is the order in which the keys were visited and `contents` the groups in that order. */
    method LoadMap(lines: seq<string>) returns (order: seq<nat>, contents: seq<seq<string>>)
      requires Valid()
      modifies area`children, area`nextId
      ensures Valid()
      ensures |order| == |contents| == GroupCount(|lines|)
      ensures forall k: nat :: k in order <==> k < GroupCount(|lines|)
      ensures forall i, j :: 0 <= i < j < |order| ==> order[i] != order[j]
      ensures forall i :: 0 <= i < |order| ==> order[i] < GroupCount(|lines|) && contents[i] == Chunk(lines, order[i])
      ensures area.children == old(area.children) + Loaded(area.polygons, contents, old(area.nextId))
      ensures |Shapes(area.children)| == |Shapes(old(area.children))| + GroupCount(|lines|)
    {
      var groups := GroupLines(lines);
      GroupingSize(lines);
      order, contents := area.ConvertFromString(groups);
      LoadedShapes(area.polygons, contents, old(area.nextId));
      ShapesAppend(old(area.children), Loaded(area.polygons, contents, old(area.nextId)));
    }
  }
}
