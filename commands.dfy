/**
 * Commands and responses of the line protocol, ID assignment, and the
 * payloads the wrapper methods of yeelight.go build.
 */
module Commands {
  import opened Base

  /** One element of a command's params array: a number or a string. */
  datatype Param = Number(n: int) | Text(s: string)

  /** A Command as a value: what SendCommand receives by copy and what the JSON encoder sees. */
  datatype Request = Request(id: int32, methodName: string, params: seq<Param>)

  /**
   * A Response: the echoed ID, the result list (None when the reply has no
   * "result"), and the "error" object, kept as its raw text.
   */
  datatype Response = Response(id: int32, result: Option<seq<string>>, error: Option<string>)

  /** The zero Response every failed call returns. */
  const EmptyResponse := Response(0, None, None)

  predicate HasFirstResult(r: Response)
  {
    r.result.Some? && |r.result.value| > 0
  }

  function FirstResult(r: Response): string
    requires HasFirstResult(r)
  {
    r.result.value[0]
  }

  /**
   * The IDs GenerateID may leave: a non-zero ID stays; a zero ID becomes what
   * rand.Int31 draws, any value in [0, 2^31), zero included.
   */
  predicate IdAssigned(before: int32, after: int32)
  {
    if before != 0 then after == before else 0 <= after <= 0x7FFF_FFFF
  }

  /** A Command whose ID is filled in place by GenerateID. */
  class Command {
    var id: int32
    const methodName: string
    const params: seq<Param>

    constructor (r: Request)
      ensures Value() == r
    {
      id := r.id;
      methodName := r.methodName;
      params := r.params;
    }

    function Value(): Request
      reads this
    {
      Request(id, methodName, params)
    }

    /** Command.GenerateID: draws an ID only while the ID is zero. */
    method GenerateID()
      modifies this`id
      ensures old(id) != 0 ==> id == old(id)
      ensures old(id) == 0 ==> 0 <= id <= 0x7FFF_FFFF
    {
      if id == 0 {
        var draw: int32 :| 0 <= draw <= 0x7FFF_FFFF;
        id := draw;
      }
    }
  }

  /** Once GenerateID has left a non-zero ID, every later call leaves it as it is. */
  lemma {:induction false} IdAssignedStable(ids: seq<int32>)
    requires |ids| >= 2 && ids[1] != 0
    requires forall k :: 0 <= k < |ids| - 1 ==> IdAssigned(ids[k], ids[k + 1])
    ensures forall k :: 1 <= k < |ids| ==> ids[k] == ids[1]
  {
    if |ids| > 2 {
      IdAssignedStable(ids[..|ids| - 1]);
      assert IdAssigned(ids[|ids| - 2], ids[|ids| - 1]);
    }
  }

  /** The "smooth" transition and its duration, the tail of every transition command. */
  function SmoothSuffix(smooth: int): seq<Param>
  {
    [Text("smooth"), Number(smooth)]
  }

  /** SetHexColor's payload once the colour is parsed. */
  function SetRgbCommand(rgb: nat, smooth: int): Request
  {
    Request(0, "set_rgb", [Number(rgb)] + SmoothSuffix(smooth))
  }

  function SetBrightCommand(bright: int8, smooth: int): Request
  {
    Request(0, "set_bright", [Number(bright as int)] + SmoothSuffix(smooth))
  }

  /** SetOn's payload with state "on", SetOff's with "off". */
  function SetPowerCommand(state: string, smooth: int): Request
  {
    Request(0, "set_power", [Text(state)] + SmoothSuffix(smooth))
  }

  function ToggleCommand(): Request
  {
    Request(0, "toggle", [])
  }

  function GetPropertyCommand(name: string): Request
  {
    Request(0, "get_prop", [Text(name)])
  }

  /** GetProperties' payload: the names themselves are the params. */
  function GetPropertiesCommand(names: seq<string>): Request
  {
    Request(0, "get_prop", Texts(names))
  }

  function Texts(names: seq<string>): seq<Param>
  {
    if names == [] then [] else [Text(names[0])] + Texts(names[1..])
  }

  /** The property names a params list carries, if it is all strings. */
  function PropertyNames(params: seq<Param>): Option<seq<string>>
  {
    if params == [] then Some([])
    else
      match (params[0], PropertyNames(params[1..]))
      case (Text(s), Some(rest)) => Some([s] + rest)
      case _ => None
  }

  /** GetProperties sends exactly the names it is given, in order, with nothing added. */
  lemma {:induction false} GetPropertiesNames(names: seq<string>)
    ensures |GetPropertiesCommand(names).params| == |names|
    ensures PropertyNames(GetPropertiesCommand(names).params) == Some(names)
  {
    if names != [] {
      GetPropertiesNames(names[1..]);
      assert ([Text(names[0])] + Texts(names[1..]))[1..] == Texts(names[1..]);
      assert [names[0]] + names[1..] == names;
    }
  }

  /** GetProperty(name) sends the same payload as GetProperties([name]). */
  lemma GetPropertyIsSingleName(name: string)
    ensures GetPropertyCommand(name) == GetPropertiesCommand([name])
  {
    assert Texts([name]) == [Text(name)] + Texts([]);
  }

  /** A transition command: one value, then "smooth" and the duration. */
  predicate IsTransition(r: Request, value: Param, smooth: int)
  {
    r.params == [value, Text("smooth"), Number(smooth)]
  }

  /**
   * Every wrapper payload leaves the ID zero, so SendCommand draws one; the
   * three transition commands end in "smooth" and the handle's duration;
   * toggle carries no params.
   */
  lemma WrapperPayloads(rgb: nat, bright: int8, name: string, smooth: int)
    ensures IsTransition(SetRgbCommand(rgb, smooth), Number(rgb), smooth)
    ensures IsTransition(SetBrightCommand(bright, smooth), Number(bright as int), smooth)
    ensures IsTransition(SetPowerCommand("on", smooth), Text("on"), smooth)
    ensures IsTransition(SetPowerCommand("off", smooth), Text("off"), smooth)
    ensures ToggleCommand().params == []
    ensures GetPropertyCommand(name).params == [Text(name)]
    ensures SetRgbCommand(rgb, smooth).id == SetBrightCommand(bright, smooth).id == 0
    ensures SetPowerCommand("on", smooth).id == ToggleCommand().id == GetPropertyCommand(name).id == 0
  {
  }
}
