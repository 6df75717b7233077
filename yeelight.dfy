/**
 * The Yeelight handle of yeelight.go: Connect, SendCommand, Disconnect and
 * the wrapper methods built on them.
 *
 * encoding/json stands outside the model: a handle is given the two
 * conversions it uses, Marshal of a command and the Response Unmarshal
 * leaves behind for a reply line.
 */
module Client {
  import opened Base
  import opened Strconv
  import opened Colors
  import opened Wire
  import opened Commands

  /**
   * json.Marshal of a Command (None when a parameter has no JSON form) and
   * the Response json.Unmarshal fills in from a reply line (the decode error
   * itself is never looked at, so it is not part of the model).
   */
  datatype JsonCodec = JsonCodec(marshal: Request -> Option<seq<byte>>, unmarshal: seq<byte> -> Response)

  /** The error a call returns. */
  datatype Error = Io(io: IoError) | MarshalFailed | Parse(num: NumError)

  function ParseError(e: Option<NumError>): Option<Error>
  {
    match e
    case None => None
    case Some(n) => Some(Parse(n))
  }

  /** The state a dialled socket is left in. */
  datatype SocketState = SocketState(open: bool, written: seq<byte>)

  /** Everything one SendCommand produces: the socket it leaves behind (None if the dial failed) and its two results. */
  datatype Outcome = Outcome(socket: Option<SocketState>, response: Response, err: Option<Error>)

  /**
   * What SendCommand does once the ID is assigned, given the outcome of its
   * dial: the dialled socket is closed on every way out exactly when the
   * handle is not persistent; every failure returns the zero Response; the
   * frame written is the encoded command and "\r\n"; a reply line that
   * arrives is decoded and returned with no error, whatever it holds.
   */
  function Exchange(dial: DialOutcome, persistent: bool, json: JsonCodec, c: Request): (o: Outcome)
    ensures o.socket.None? <==> dial.Refuse?
    ensures dial.Refuse? ==> o.err == Some(Io(Refused))
    ensures o.socket.Some? ==> o.socket.value.open == persistent
    ensures o.err.Some? ==> o.response == EmptyResponse
    ensures json.marshal(c).None? && o.socket.Some? ==> o.socket.value.written == [] && o.err == Some(MarshalFailed)
    ensures json.marshal(c).Some? && o.socket.Some? ==> o.socket.value.written <= Frame(json.marshal(c).value)
    ensures o.err.None? <==>
              && dial.Accept? && json.marshal(c).Some?
              && Delivered(dial.peer, Frame(json.marshal(c).value)) == Frame(json.marshal(c).value)
              && ReadSlice(dial.peer.reply, dial.peer.end).Ok?
    ensures o.err.None? ==>
              && o.socket.value.written == Frame(json.marshal(c).value)
              && o.response == json.unmarshal(ReadSlice(dial.peer.reply, dial.peer.end).value)
    ensures dial.Accept? && json.marshal(c).Some?
            && Delivered(dial.peer, Frame(json.marshal(c).value)) != Frame(json.marshal(c).value) ==>
              o.err == Some(Io(WriteFailed))
    ensures dial.Accept? && json.marshal(c).Some?
            && Delivered(dial.peer, Frame(json.marshal(c).value)) == Frame(json.marshal(c).value)
            && ReadSlice(dial.peer.reply, dial.peer.end).Err? ==>
              o.err == Some(Io(ReadSlice(dial.peer.reply, dial.peer.end).error))
  {
    match dial
    case Refuse => Outcome(None, EmptyResponse, Some(Io(Refused)))
    case Accept(peer) =>
      match json.marshal(c)
      case None => Outcome(Some(SocketState(persistent, [])), EmptyResponse, Some(MarshalFailed))
      case Some(body) =>
        var sent := Delivered(peer, Frame(body));
        if sent != Frame(body) then
          Outcome(Some(SocketState(persistent, sent)), EmptyResponse, Some(Io(WriteFailed)))
        else
          match ReadSlice(peer.reply, peer.end)
          case Err(e) => Outcome(Some(SocketState(persistent, sent)), EmptyResponse, Some(Io(e)))
          case Ok(line) => Outcome(Some(SocketState(persistent, sent)), json.unmarshal(line), None)
  }

  /**
   * Persistence decides only whether the socket is closed afterwards: the
   * bytes written, the Response and the error are the same either way.
   */
  lemma PersistenceOnlyDecidesClose(dial: DialOutcome, json: JsonCodec, c: Request)
    ensures var (p, n) := (Exchange(dial, true, json, c), Exchange(dial, false, json, c));
            && p.response == n.response && p.err == n.err
            && p.socket.Some? == n.socket.Some?
            && (p.socket.Some? ==> p.socket.value.written == n.socket.value.written
                                   && p.socket.value.open && !n.socket.value.open)
  {
  }

  /** A device handle: where to dial, whether to keep the socket open, the transition duration, and the current socket. */
  class Yeelight {
    const address: string
    const persistent: bool
    const smooth: int
    var conn: Socket?
    const net: Network
    const json: JsonCodec

    constructor (address: string, persistent: bool, smooth: int, net: Network, json: JsonCodec)
      ensures this.address == address && this.persistent == persistent && this.smooth == smooth
      ensures this.net == net && this.json == json && conn == null
    {
      this.address := address;
      this.persistent := persistent;
      this.smooth := smooth;
      this.net := net;
      this.json := json;
      conn := null;
    }

    /**
     * Yeelight.Connect: dials the address and stores the result in conn,
     * null when the dial fails. A socket already in conn is dropped without
     * being closed.
     */
    method Connect() returns (err: Option<IoError>)
      modifies this`conn, net
      ensures net.dialed == old(net.dialed) + [address]
      ensures net.script == RestOf(old(net.script))
      ensures NextDial(old(net.script)).Refuse? ==> conn == null && err == Some(Refused)
      ensures NextDial(old(net.script)).Accept? ==>
                && conn != null && fresh(conn) && err == None
                && conn.peer == NextDial(old(net.script)).peer && conn.open && conn.written == []
    {
      conn, err := net.Dial(address);
    }

    /**
     * The effect of one SendCommand of c between the old and the current
     * state: exactly one more dial, to this handle's address; the ID sent is
     * the one GenerateID leaves; the results and the new socket are those of
     * Exchange.
     */
    twostate predicate Sent(new c: Request, new sentId: int32, new r: Response, new err: Option<Error>)
      reads this, net, conn
    {
      var o := Exchange(NextDial(old(net.script)), persistent, json, c.(id := sentId));
      && net.dialed == old(net.dialed) + [address]
      && net.script == RestOf(old(net.script))
      && IdAssigned(c.id, sentId)
      && r == o.response && err == o.err
      && (conn == null <==> o.socket.None?)
      && (conn != null ==>
            && fresh(conn) && conn.peer == NextDial(old(net.script)).peer
            && conn.open == o.socket.value.open && conn.written == o.socket.value.written)
    }

    /**
     * Yeelight.SendCommand: assign the copy's ID, dial (on every call, even
     * for a persistent handle), register the Close of a non-persistent
     * socket, encode, write the frame, read one line, decode it. The socket
     * the handle held before is left exactly as it was.
     */
    method SendCommand(c: Request) returns (r: Response, err: Option<Error>, ghost sentId: int32)
      modifies this, net
      ensures Sent(c, sentId, r, err)
      ensures old(conn) != null ==> old(conn).open == old(conn.open) && old(conn).written == old(conn.written)
    {
      var cmd := new Command(c);
      cmd.GenerateID();
      sentId := cmd.id;
      r, err := EmptyResponse, None;
      var dialErr := Connect();
      if dialErr.Some? {
        err := Some(Io(dialErr.value));
        return;
      }
      var sock := conn;
      match json.marshal(cmd.Value()) {
        case None =>
          err := Some(MarshalFailed);
        case Some(body) =>
          var writeErr := sock.Write(Frame(body));
          if writeErr.Some? {
            err := Some(Io(writeErr.value));
          } else {
            match sock.ReadLine() {
              case Err(e) =>
                err := Some(Io(e));
              case Ok(line) =>
                r := json.unmarshal(line);
            }
          }
      }
      // The deferred conn.Close of a non-persistent handle, on every way out after a successful dial.
      if !persistent {
        sock.Close();
      }
    }

    /** Yeelight.Disconnect: closes the current socket; with no socket the Go code panics, so one is required. */
    method Disconnect()
      requires conn != null
      modifies conn
      ensures !conn.open && conn.written == old(conn.written)
    {
      conn.Close();
    }

    method GetProperties(names: seq<string>) returns (r: Response, err: Option<Error>, ghost sentId: int32)
      modifies this, net
      ensures Sent(GetPropertiesCommand(names), sentId, r, err)
    {
      r, err, sentId := SendCommand(GetPropertiesCommand(names));
    }

    method GetProperty(name: string) returns (r: Response, err: Option<Error>, ghost sentId: int32)
      modifies this, net
      ensures Sent(GetPropertyCommand(name), sentId, r, err)
    {
      r, err, sentId := SendCommand(GetPropertyCommand(name));
    }

    /**
     * Yeelight.SetHexColor: a colour that does not parse is reported before
     * anything is dialled; otherwise set_rgb is sent and its error returned.
     */
    method SetHexColor(color: string) returns (err: Option<Error>, ghost reply: Response, ghost sentId: int32)
      modifies this, net
      ensures ParseHexColor(color).Err? ==>
                && err == Some(Parse(ParseHexColor(color).error))
                && conn == old(conn) && net.dialed == old(net.dialed) && net.script == old(net.script)
      ensures ParseHexColor(color).Ok? ==> Sent(SetRgbCommand(ParseHexColor(color).value, smooth), sentId, reply, err)
    {
      match ParseHexColor(color)
      case Err(e) =>
        err, reply, sentId := Some(Parse(e)), EmptyResponse, 0;
      case Ok(n) =>
        reply, err, sentId := SendCommand(SetRgbCommand(n, smooth));
    }

    method SetBright(value: int8) returns (err: Option<Error>, ghost reply: Response, ghost sentId: int32)
      modifies this, net
      ensures Sent(SetBrightCommand(value, smooth), sentId, reply, err)
    {
      reply, err, sentId := SendCommand(SetBrightCommand(value, smooth));
    }

    method SetOn() returns (err: Option<Error>, ghost reply: Response, ghost sentId: int32)
      modifies this, net
      ensures Sent(SetPowerCommand("on", smooth), sentId, reply, err)
    {
      reply, err, sentId := SendCommand(SetPowerCommand("on", smooth));
    }

    method SetOff() returns (err: Option<Error>, ghost reply: Response, ghost sentId: int32)
      modifies this, net
      ensures Sent(SetPowerCommand("off", smooth), sentId, reply, err)
    {
      reply, err, sentId := SendCommand(SetPowerCommand("off", smooth));
    }

    method Toggle() returns (err: Option<Error>, ghost reply: Response, ghost sentId: int32)
      modifies this, net
      ensures Sent(ToggleCommand(), sentId, reply, err)
    {
      reply, err, sentId := SendCommand(ToggleCommand());
    }

    /**
     * The getters index the first result string without a check, which
     * panics in Go when a reply line decodes to a Response without one; they
     * require that the next dial, if it succeeds, brings a line that does
     * decode to one.
     */
    ghost predicate AnswersWithResult()
      reads this, net
    {
      match NextDial(net.script)
      case Refuse => true
      case Accept(peer) =>
        ReadSlice(peer.reply, peer.end).Ok? ==> HasFirstResult(json.unmarshal(ReadSlice(peer.reply, peer.end).value))
    }

    /** Yeelight.GetHexColor: reads "rgb", then reports the decimal value as six-digit hex text. */
    method GetHexColor() returns (h: string, err: Option<Error>, ghost reply: Response, ghost sendErr: Option<Error>, ghost sentId: int32)
      requires AnswersWithResult()
      modifies this, net
      ensures Sent(GetPropertyCommand("rgb"), sentId, reply, sendErr)
      ensures sendErr.Some? ==> h == "" && err == sendErr
      ensures sendErr.None? ==>
                && HasFirstResult(reply)
                && h == HexColorOf(FirstResult(reply)).0 && err == ParseError(HexColorOf(FirstResult(reply)).1)
    {
      var r, e;
      r, e, sentId := GetProperty("rgb");
      reply, sendErr := r, e;
      if e.Some? {
        return "", e, reply, sendErr, sentId;
      }
      var (text, numErr) := HexColorOf(FirstResult(r));
      h, err := text, ParseError(numErr);
    }

    /** Yeelight.GetBright: reads "bright" as an int8. */
    method GetBright() returns (value: int8, err: Option<Error>, ghost reply: Response, ghost sendErr: Option<Error>, ghost sentId: int32)
      requires AnswersWithResult()
      modifies this, net
      ensures Sent(GetPropertyCommand("bright"), sentId, reply, sendErr)
      ensures sendErr.Some? ==> value == 0 && err == sendErr
      ensures sendErr.None? ==>
                && HasFirstResult(reply)
                && value == BrightOf(FirstResult(reply)).0 && err == ParseError(BrightOf(FirstResult(reply)).1)
    {
      var r, e;
      r, e, sentId := GetProperty("bright");
      reply, sendErr := r, e;
      if e.Some? {
        return 0, e, reply, sendErr, sentId;
      }
      var (v, numErr) := BrightOf(FirstResult(r));
      value, err := v, ParseError(numErr);
    }

    /** Yeelight.IsOn: true exactly when the first result of "power" is "on". */
    method IsOn() returns (b: bool, err: Option<Error>, ghost reply: Response, ghost sentId: int32)
      requires AnswersWithResult()
      modifies this, net
      ensures Sent(GetPropertyCommand("power"), sentId, reply, err)
      ensures err.Some? ==> !b
      ensures err.None? ==> HasFirstResult(reply) && (b <==> FirstResult(reply) == "on")
    {
      var r;
      r, err, sentId := GetProperty("power");
      reply := r;
      if err.Some? {
        return false, err, reply, sentId;
      }
      b := FirstResult(r) == "on";
    }
  }

  /**
   * Two commands on one persistent handle: both dial, the second socket
   * replaces the first in conn, and the first is left open, not reused.
   */
  method PersistentHandleRedials(json: JsonCodec, first: Peer, second: Peer, c: Request)
    returns (dials: nat, firstStillOpen: bool, replaced: bool)
    ensures dials == 2 && firstStillOpen && replaced
  {
    var net := new Network([Accept(first), Accept(second)]);
    var yl := new Yeelight("device:55443", true, 0, net, json);
    var r, err;
    ghost var id;
    r, err, id := yl.SendCommand(c);
    var s1 := yl.conn;
    r, err, id := yl.SendCommand(c);
    dials := |net.dialed|;
    firstStillOpen := s1.open;
    replaced := yl.conn != s1;
  }
}
