# yeelight.go in Dafny

A model of the Go client for Yeelight smart bulbs in `yeelight.go`. The client
dials the TCP address the caller puts in the handle's `Address`. It sends one
JSON command per line, ended by `\r\n`, and reads one JSON reply line back. The
model covers:

- the `Yeelight` handle (`Connect`, `SendCommand`, `Disconnect`) as a Dafny class
  whose `conn` field is replaced on every send, just as the Go code overwrites
  `yl.Conn`;
- command IDs: `Command.GenerateID` fills in the ID of a class instance in place;
- the wrapper methods. These build `set_rgb`, `set_bright`, `set_power`, `toggle`
  and `get_prop` payloads and read the first result string of a reply;
- the text conversions the wrappers use:
  - `RGB.ToHex` (`fmt`'s `%06x`);
  - the `#`-stripping hex parse of `SetHexColor` (`strconv.ParseUint(_, 16, 64)`);
  - `strconv.Atoi` in `GetHexColor`;
  - `strconv.ParseInt(_, 10, 8)` in `GetBright`.

Files:

| file | module | contents |
|---|---|---|
| `base.dfy` | `Base` | `Option`, `Result`, Go's `int8`/`int32`, bytes, powers |
| `strconv.dfy` | `Strconv` | numerals in a base, `ParseUint`, `ParseInt`, `Atoi`, `Itoa` |
| `colors.dfy` | `Colors` | `ToHex`, the hex-colour parse, the readings of `rgb` and `bright` |
| `wire.dfy` | `Wire` | the scripted network: `Network.Dial`, `Socket` (write, close), `bufio`'s `ReadSlice` |
| `commands.dfy` | `Commands` | `Request`/`Response`, the `Command` class with `GenerateID`, the wrapper payloads |
| `yeelight.dfy` | `Client` | `Exchange` (one send as a function), the `Yeelight` class and its wrappers |

The network is a `Network` object with a script of dial outcomes. A dial either
fails (`Refuse`) or connects to a `Peer`. The peer describes three things:

- how many bytes of a write it accepts;
- the byte stream it answers with;
- the error the stream ends with.

`encoding/json` is given to a handle as a `JsonCodec`. It holds the marshal function
for a command and the `Response` that unmarshalling a reply line produces.

`SendCommand`'s contract is the two-state predicate `Yeelight.Sent`. It states:

- exactly one more dial, to the handle's address;
- the ID sent, as `GenerateID` leaves it;
- results equal to the function `Exchange` applied to that dial's outcome;
- a fresh socket in `conn`, whose open flag and written bytes `Exchange` determines.

`SendCommand` also ensures that the socket held before is untouched, and every
wrapper's `modifies this, net` frame implies the same.

Every wrapper's contract is `Sent` for its own payload, plus the reading of the
result where it has one.

Behaviour of the code worth knowing, all of it kept in the model:

- A persistent handle does not reuse its connection. `SendCommand` dials on every
  call, and the socket held before is dropped without being closed, so it stays
  open (`Client.PersistentHandleRedials`).
- A failed dial leaves `Conn` nil, not the previous socket.
- There is no connect timeout and no reply timeout. A bulb that stays silent
  without closing the stream would block the read forever; see "Left out".
- `GenerateID` draws from `[0, 2^31)`, so the drawn ID can itself be 0. A command
  whose ID is non-zero keeps it.
- The reply is read with `ReadSlice('\n')` on a fresh 4096-byte reader. The result
  is one of:
  - the line, if a `\n` comes within 4096 bytes;
  - `ErrBufferFull`, if 4096 bytes come without one;
  - the error that ends the stream.
- The error from decoding the reply is discarded. A reply line that is not valid
  JSON yields a nil error and whatever the decoder filled in.
- `SetHexColor` removes every `#`, wherever it stands. It accepts any 64-bit hex
  value, including ones above `0xFFFFFF`, and sends the parsed number as-is.
- `ToHex` pads to six digits but does not truncate. A value above `0xFFFFFF` gives
  more digits, and a negative value gives `-` and five padded digits.
- The struct tags `default0:"…"` have no effect: `Smooth` is whatever the caller
  sets (Go's zero value, 0, by default).

## Model

| member | source | states |
|---|---|---|
| Strconv.Numeral | yeelight.go:37-39 | the digits printed for n form a non-empty lower-case numeral whose value is n; it starts with '0' only when n is 0 |
| Strconv.NumeralBound | yeelight.go:37-39 | a numeral of k digits is worth less than base^k |
| Strconv.NumeralLength | yeelight.go:37-39 | a value below base^k is printed in at most k digits |
| Colors.PadZerosNumeral | yeelight.go:38 | zero padding keeps the text a lower-case numeral with the same value, Max(width, length) long |
| Colors.LeadingZeros | yeelight.go:38 | leading zeros change neither digit validity nor value |
| Colors.ToHex | yeelight.go:37-39 | at least six characters; for v >= 0 a lower-case hex numeral of value v, with no superfluous leading zero; for v < 0 a '-' then the same for -v |
| Colors.ToHexSixDigits | yeelight.go:37-39 | for v >= 0, ToHex gives exactly six characters iff v <= 0xFFFFFF, and then all six are 0-9a-f |
| Colors.RemoveHashes | yeelight.go:120 | no '#' is left, and every other character occurs as often as before |
| Colors.RemoveHashesAppend | yeelight.go:120 | removing '#' distributes over concatenation |
| Colors.RemoveHashesNone | yeelight.go:120 | text without '#' is left unchanged |
| Colors.RemoveHashesDropsHash | yeelight.go:120 | a '#' inserted anywhere is removed |
| Strconv.ScanDigits | yeelight.go:121 | success iff every character is a digit of the base and the value is at most maxVal, returning that value; a numeral above maxVal is ErrRange |
| Strconv.ParseUint | yeelight.go:121 | success iff the text is a non-empty numeral below 2^bitSize, returning its value; "" is ErrSyntax; a numeral at or above 2^bitSize is ErrRange |
| Colors.ParseHexColor | yeelight.go:120-124 | success iff the text with all '#' removed is a non-empty hex numeral below 2^64, returning its value; empty gives ErrSyntax, too large gives ErrRange |
| Colors.HashAnywhere | yeelight.go:120-121 | a '#' anywhere in the colour text does not change the parse |
| Colors.HexRoundTrip | yeelight.go:119-124 | the hex text ToHex writes for any uint64 parses back to the same value, with or without a leading '#' |
| Strconv.ParseInt | yeelight.go:174 | for bitSize 2..64: success iff the text is an optionally signed numeral within [-2^(bitSize-1), 2^(bitSize-1)), returning its signed value; a well-formed numeral outside that range is ErrRange |
| Strconv.ItoaIsSignedNumeral | yeelight.go:145 | decimal text of v is a signed numeral whose value is v |
| Strconv.Atoi | yeelight.go:145 | success iff the text is an optionally signed decimal within [-2^63, 2^63), returning its signed value; "" is ErrSyntax; a well-formed decimal outside that range is ErrRange |
| Strconv.ParseIntItoa | yeelight.go:174 | for bitSize 2..64, decimal text of any in-range value parses back to that value |
| Strconv.ParseIntItoaOutOfRange | yeelight.go:174 | for bitSize 2..64, decimal text of an out-of-range value is ErrRange |
| Colors.HexColorOf | yeelight.go:145-152 | no error iff the text is a signed decimal within int64, then the hex text of its value; "" with the error otherwise |
| Colors.HexColorOfDecimal | yeelight.go:145-151 | the decimal text of a colour reads as its six-digit hex text with no error |
| Colors.HexColorOfNonDecimal | yeelight.go:145-150 | text that is not a signed decimal yields "" and an error |
| Colors.ColorRoundTrip | yeelight.go:139-153 | the hex text GetHexColor reports for a colour is parsed by SetHexColor back to the same colour |
| Colors.BrightOf | yeelight.go:174-179 | no error iff the text is a signed decimal in [-128, 127], then that value as int8; 0 with the error otherwise |
| Colors.BrightRoundTrip | yeelight.go:174-181 | every int8 written in decimal reads back as itself |
| Colors.BrightOutOfRange | yeelight.go:174-177 | a decimal outside [-128, 127] gives ErrRange and 0, never a wrapped value |
| Commands.Command.constructor | yeelight.go:21-25 | a Command object holds exactly the given ID, method and params |
| Commands.Command.GenerateID | yeelight.go:41-46 | a non-zero ID is kept; a zero ID is replaced by a value in [0, 2^31) |
| Commands.IdAssignedStable | yeelight.go:41-46 | once an ID is non-zero, every later GenerateID keeps it |
| Commands.GetPropertiesNames | yeelight.go:99-106 | get_prop carries exactly the given names, in order, as its params |
| Commands.GetPropertyIsSingleName | yeelight.go:108-115 | GetProperty(name) sends the same payload as GetProperties([name]) |
| Commands.WrapperPayloads | yeelight.go:117-224 | set_rgb, set_bright and set_power carry value, "smooth", duration; toggle has no params; get_prop one name; every payload's ID is 0 |
| Wire.Frame | yeelight.go:85 | the line written is the encoded command followed by exactly CR LF |
| Wire.Delivered | yeelight.go:85 | the bytes a peer takes are a prefix of the data, all of it iff its limit allows |
| Wire.FrameIsOneLine | yeelight.go:85 | a frame of a body without '\n' that fits the reader's buffer reads back as exactly one line |
| Wire.ReadSlice | yeelight.go:89-93 | success iff a '\n' occurs in the first min(length, 4096) bytes, returning the prefix through the first '\n'; otherwise ErrBufferFull for a stream of 4096 bytes or more, else the stream's end error |
| Wire.Socket.constructor | yeelight.go:62 | a new connection is open with nothing written |
| Wire.Socket.Write | yeelight.go:85-87 | a closed socket takes nothing and reports Closed; an open one appends what the peer accepts and reports WriteFailed iff that is not all |
| Wire.Socket.Close | yeelight.go:77 | the socket is closed afterwards |
| Wire.Socket.ReadLine | yeelight.go:89-90 | an open socket yields ReadSlice of the peer's reply; a closed one Closed |
| Wire.Network.Dial | yeelight.go:62 | one dial is logged and consumes one script entry; a refused dial gives nil and Refused; an accepted one gives a fresh open socket to that peer with nothing written |
| Client.Exchange | yeelight.go:70-97 | no socket iff the dial failed; the socket is left open iff the handle is persistent; every error comes with the zero Response; no error iff the dial succeeded, the command encoded, the whole frame was written and a line was read, and then the Response is the decoded line, even a malformed one |
| Client.PersistenceOnlyDecidesClose | yeelight.go:76-78 | persistent and non-persistent handles write the same bytes and return the same results; only the socket's open state differs |
| Client.Yeelight.constructor | yeelight.go:14-19 | a handle starts with the given address, persistence and duration and no connection |
| Client.Yeelight.Connect | yeelight.go:61-68 | one dial of the handle's address; conn becomes the fresh socket, or nil with the dial error |
| Client.Yeelight.SendCommand | yeelight.go:70-97 | one new dial whose socket replaces conn; the ID sent is the command's own if non-zero; results and socket state are those of Exchange; the previous socket is untouched |
| Client.Yeelight.Disconnect | yeelight.go:237-239 | the current socket is closed and nothing more is written |
| Client.Yeelight.GetProperties | yeelight.go:99-106 | SendCommand of get_prop with the given names |
| Client.Yeelight.GetProperty | yeelight.go:108-115 | SendCommand of get_prop with the one name |
| Client.Yeelight.SetHexColor | yeelight.go:119-137 | an unparseable colour returns its parse error with no dial and no state change; otherwise SendCommand of set_rgb with the parsed value and the handle's duration, returning its error |
| Client.Yeelight.GetHexColor | yeelight.go:139-153 | a send error is returned with ""; otherwise the first "rgb" result read by HexColorOf |
| Client.Yeelight.SetBright | yeelight.go:155-167 | SendCommand of set_bright with the value and the duration, returning its error |
| Client.Yeelight.GetBright | yeelight.go:169-182 | a send error is returned with 0; otherwise the first "bright" result read by BrightOf |
| Client.Yeelight.SetOn | yeelight.go:184-196 | SendCommand of set_power "on" with the duration |
| Client.Yeelight.SetOff | yeelight.go:198-210 | SendCommand of set_power "off" with the duration |
| Client.Yeelight.Toggle | yeelight.go:212-224 | SendCommand of toggle with no params |
| Client.Yeelight.IsOn | yeelight.go:226-235 | a send error gives false; otherwise true iff the first "power" result is "on" |
| Client.PersistentHandleRedials | yeelight.go:61-78 | two sends on one persistent handle dial twice, the second socket replaces the first, and the first is left open |

## Left out

- `net.Dial`, TCP and `bufio` are replaced by a scripted network. Each peer's reply is a fixed byte stream that always ends with an error. How the stream is split across TCP reads does not change what `ReadSlice` returns, so the split is not modelled.
- A bulb that never sends `\n` and never closes the stream would block `ReadSlice` forever. The scripted stream always ends, so the model has no blocking read.
- `encoding/json` (`Command.ToJson`, `Response.FromJson`, `yeelight.go:48-59`) is supplied as a codec. The JSON text, the difference between a nil and an empty names slice (`null` against `[]`), and decoding `null` are all left to it.
- `Response.Result` is modelled as an optional list of strings. A result of any other shape panics at the type assertions in `yeelight.go:145`, `174` and `232`, and those shapes are not represented.
- Client.Yeelight.GetHexColor: the panic on a reply without a first result becomes the precondition `AnswersWithResult`. It also covers sends that fail before reading, where Go would not panic, so it demands slightly more of the caller than the code does.
- Client.Yeelight.GetBright: the same precondition `AnswersWithResult`, with the same slight excess.
- Client.Yeelight.IsOn: the same precondition `AnswersWithResult`, with the same slight excess.
- Client.Yeelight.Disconnect: with no connection the Go code panics on a nil `Conn`; the model requires a connection instead. The error `Close` returns is ignored by every caller and is not modelled.
- The time-seeded `rand` source of `GenerateID` is an unconstrained choice in `[0, 2^31)`.
- Concurrent use of one handle, which races on `Conn`, is not modelled.
- `strconv`'s base prefix detection and underscores apply only with base 0, which the code never passes. They are not modelled.
- Strconv.ParseInt: modelled for bitSize 2..64, which covers the 8 and 64 the code passes. At bitSize 1, a negative value out of range falls through to -1 with no error in Go; that case is not modelled.
- `strconv.Atoi` is modelled for a platform whose `int` is 64 bits.
- A failing write is modelled by a peer's byte limit. Timeouts and resets on write all appear as `WriteFailed`.
