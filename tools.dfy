/** The tool palette's state: which tool is active and its numeric option. */
module Tools {

  datatype Tool = Door | Move | Path | Select | Erase | Room

  /** The enum constant's name, as `name()` and string concatenation print it. */
  function ToolName(t: Tool): string
  {
    match t
    case Door => "Door"
    case Move => "Move"
    case Path => "Path"
    case Select => "Select"
    case Erase => "Erase"
    case Room => "Room"
  }

  /** The pair of values the state object holds. */
  datatype Setting = Setting(tool: Tool, option: int)

  /** The default state: the Room tool with option 0. */
  const INITIAL: Setting := Setting(Room, 0)

  /** The effect of `setTool(t)` on a state. */
  function WithTool(s: Setting, t: Tool): (r: Setting)
    ensures r.tool == t && r.option == 0
  {
    Setting(t, 0)
  }

  /** The effect of `setOption(n)` on a state: no bounds check, tool kept. */
  function WithOption(s: Setting, n: int): (r: Setting)
    ensures r.tool == s.tool && r.option == n
  {
    s.(option := n)
  }

  /** Choosing a tool and then an option keeps both. */
  lemma ToolThenOption(s: Setting, t: Tool, n: int)
    ensures WithOption(WithTool(s, t), n) == Setting(t, n)
  {
  }

  /** Choosing an option and then a tool loses the option. */
  lemma OptionThenTool(s: Setting, t: Tool, n: int)
    ensures WithTool(WithOption(s, n), t) == Setting(t, 0)
  {
  }

  /** Choosing the same tool twice is the same as choosing it once. */
  lemma WithToolIdempotent(s: Setting, t: Tool)
    ensures WithTool(WithTool(s, t), t) == WithTool(s, t)
  {
  }

  /** The single tool-state object shared by the shell and the map area. */
  class ToolState {
    var tool: Tool
    var option: int

    function Current(): Setting
      reads this
    {
      Setting(tool, option)
    }

    constructor ()
      ensures Current() == INITIAL
    {
      tool := Room;
      option := 0;
    }

    method SetTool(t: Tool)
      modifies this
      ensures Current() == WithTool(old(Current()), t)
    {
      tool := t;
      option := 0;
    }

    method GetTool() returns (t: Tool)
      ensures t == tool
    {
      t := tool;
    }

    method SetOption(n: int)
      modifies this`option
      ensures Current() == WithOption(old(Current()), n)
    {
      option := n;
    }

    method GetOption() returns (n: int)
      ensures n == option
    {
      n := option;
    }
  }
}
