/**
 * The transport under SendCommand. net.Dial is replaced by a scripted
 * network whose dials succeed or fail in a given order; each connection is a
 * socket object that records whether it is open and every byte written to
 * it; the device's answer is a fixed byte stream read with bufio's
 * ReadSlice.
 */
module Wire {
  import opened Base

  const CR: byte := 13
  const LF: byte := 10

  /** The buffer size of a reader made by bufio.NewReader. */
  const ReadBufferSize: nat := 4096

  /** The I/O failures the transport can report. */
  datatype IoError =
    | Refused      // the dial failed: nothing listens, or the route is down
    | Closed       // use of a closed connection
    | WriteFailed  // the peer stopped taking bytes part way
    | Eof          // the peer closed its side
    | Reset        // the connection was reset
    | BufferFull   // bufio.ErrBufferFull: no '\n' within the reader's buffer

  /**
   * What the device at the far end of one connection does: how many bytes
   * of a write it takes (None: all of them), the bytes it sends back, and
   * the error its side of the stream ends with once those are read.
   */
  datatype Peer = Peer(writeLimit: Option<nat>, reply: seq<byte>, end: IoError)

  /** The result of one dial, in the order the network hands them out. */
  datatype DialOutcome = Refuse | Accept(peer: Peer)

  /** The outcome of the next dial: once the script is used up, nothing answers. */
  function NextDial(script: seq<DialOutcome>): DialOutcome
  {
    if script == [] then Refuse else script[0]
  }

  function RestOf(script: seq<DialOutcome>): seq<DialOutcome>
  {
    if script == [] then [] else script[1..]
  }

  /** The line SendCommand writes: the encoded command followed by "\r\n". */
  function Frame(body: seq<byte>): (f: seq<byte>)
    ensures |f| == |body| + 2
    ensures f[..|body|] == body && f[|body|..] == [CR, LF]
  {
    body + [CR, LF]
  }

  /** The part of data a peer takes: all of it, or its first writeLimit bytes. */
  function Delivered(peer: Peer, data: seq<byte>): (d: seq<byte>)
    ensures d <= data
    ensures d == data <==> peer.writeLimit.None? || |data| <= peer.writeLimit.value
  {
    match peer.writeLimit
    case None => data
    case Some(k) => if |data| <= k then data else data[..k]
  }

  /** The position of the first b in s. */
  function IndexOf(s: seq<byte>, b: byte): (r: Option<nat>)
    ensures r.Some? ==> r.value < |s| && s[r.value] == b && b !in s[..r.value]
    ensures r.None? ==> b !in s
  {
    if s == [] then None
    else if s[0] == b then Some(0)
    else
      match IndexOf(s[1..], b)
      case None => None
      case Some(i) =>
        assert s[..i + 1] == [s[0]] + s[1..][..i];
        Some(i + 1)
  }

  /**
   * ReadSlice('\n') on a fresh bufio reader over a stream: the bytes up to
   * and including the first '\n' when one comes within the first
   * ReadBufferSize bytes; ErrBufferFull when the buffer fills first;
   * otherwise the error that ends the stream (the bytes read are dropped).
   */
  function ReadSlice(stream: seq<byte>, end: IoError): (r: Result<seq<byte>, IoError>)
    ensures r.Ok? <==> LF in stream[..Min(|stream|, ReadBufferSize)]
    ensures r.Ok? ==> 0 < |r.value| <= ReadBufferSize && r.value <= stream
    ensures r.Ok? ==> r.value[|r.value| - 1] == LF && LF !in r.value[..|r.value| - 1]
    ensures r.Err? ==> r.error == if |stream| >= ReadBufferSize then BufferFull else end
  {
    var window := stream[..Min(|stream|, ReadBufferSize)];
    match IndexOf(window, LF)
    case Some(i) =>
      assert stream[..i + 1][..i] == window[..i];
      Ok(stream[..i + 1])
    case None => Err(if |stream| >= ReadBufferSize then BufferFull else end)
  }

  /**
   * A frame is one protocol line: a reader at the other end that gets it
   * whole takes exactly the frame back, provided the encoded command holds
   * no '\n' of its own and fits the reader's buffer.
   */
  lemma FrameIsOneLine(body: seq<byte>, end: IoError)
    requires LF !in body && |body| + 2 <= ReadBufferSize
    ensures ReadSlice(Frame(body), end) == Ok(Frame(body))
  {
    var f := Frame(body);
    assert f[|f| - 1] == LF;
    var r := ReadSlice(f, end);
    assert r.Ok?;
    assert |r.value| == |f| && r.value == f[..|f|] == f;
  }

  function Min(a: nat, b: nat): nat
  {
    if a < b then a else b
  }

  /** One TCP connection, seen from the client. */
  class Socket {
    const peer: Peer
    var open: bool
    var written: seq<byte>

    constructor (peer: Peer)
      ensures this.peer == peer && open && written == []
    {
      this.peer := peer;
      open := true;
      written := [];
    }

    /** conn.Write: a closed socket takes nothing; an open one takes what its peer accepts and fails if that is not all. */
    method Write(data: seq<byte>) returns (err: Option<IoError>)
      modifies this`written
      ensures !open ==> written == old(written) && err == Some(Closed)
      ensures open ==> written == old(written) + Delivered(peer, data)
      ensures open ==> err == if Delivered(peer, data) == data then None else Some(WriteFailed)
    {
      if !open {
        return Some(Closed);
      }
      var taken := Delivered(peer, data);
      written := written + taken;
      err := if taken == data then None else Some(WriteFailed);
    }

    /** conn.Close. Closing twice leaves it closed; the second call's error is ignored by every caller. */
    method Close()
      modifies this`open
      ensures !open
    {
      open := false;
    }

    /** ReadSlice('\n') on a fresh bufio reader wrapped around this connection. */
    function ReadLine(): (r: Result<seq<byte>, IoError>)
      reads this
      ensures !open ==> r == Err(Closed)
      ensures open ==> r == ReadSlice(peer.reply, peer.end)
    {
      if open then ReadSlice(peer.reply, peer.end) else Err(Closed)
    }
  }

  /** net.Dial as the model sees it: each dial takes the next scripted outcome and is logged with its address. */
  class Network {
    var script: seq<DialOutcome>
    var dialed: seq<string>

    constructor (script: seq<DialOutcome>)
      ensures this.script == script && dialed == []
    {
      this.script := script;
      dialed := [];
    }

    method Dial(address: string) returns (conn: Socket?, err: Option<IoError>)
      modifies this
      ensures dialed == old(dialed) + [address]
      ensures script == RestOf(old(script))
      ensures NextDial(old(script)).Refuse? ==> conn == null && err == Some(Refused)
      ensures NextDial(old(script)).Accept? ==>
                && conn != null && fresh(conn) && err == None
                && conn.peer == NextDial(old(script)).peer && conn.open && conn.written == []
    {
      var outcome := NextDial(script);
      dialed := dialed + [address];
      script := RestOf(script);
      match outcome
      case Refuse =>
        conn, err := null, Some(Refused);
      case Accept(peer) =>
        conn := new Socket(peer);
        err := None;
    }
  }
}
