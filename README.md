# RetroArch NCI client — a Dafny model

`retroarch_nci.py` is a small client for RetroArch's Network Control
Interface (NCI). RetroArch listens for plain-text UDP datagrams of the form
`NAME arg1 arg2 ...`. The client has four parts:

- an enumeration of the 67 opcode names;
- `cmd` and `send_nci_command`, which turn an opcode (or a raw name) and its
  arguments into one command line and send it;
- `read_core_memory`, which sends `READ_CORE_MEMORY <address hex> <size>`. It
  decodes the reply `READ_CORE_MEMORY <address> <b0> <b1> ...` into the
  little-endian integer `b0 | b1 << 8 | ...`, or into None;
- `write_core_memory`, which sends
  `WRITE_CORE_MEMORY <address hex> <b0> <b1> ...` with two-digit bytes.

The transport `_send` opens one socket per call and sends the message as
ASCII. It returns the reply decoded as ASCII with replacement and stripped,
or None when the send fails or no reply arrives. Creating the socket and
setting its timeout happen before the `try`, so errors there propagate to the
caller.

The model has eight modules:

| module | models |
|---|---|
| `Wrappers` | `Option` |
| `Bits` | bitwise OR and left shift on non-negative integers (`BitOr`, `ShiftLeft`); the little-endian reading of a byte list, and the OR loop's fold |
| `Numerals` | `{n:X}`, `{b:02X}`, `str(n)`; `int(t, 16)` on plain digit strings |
| `Tokens` | `" ".join` and `str.split()` |
| `Commands` | the opcode enumeration and each member's `name` |
| `Messages` | the lines `cmd`, `send_nci_command`, `read_core_memory`, `write_core_memory` and `show_mesg` build; the decoding of a READ_CORE_MEMORY reply, with the assembly loop as a method |
| `Transport` | what `_send` does to a received datagram: the 4096-byte buffer, ASCII decoding with U+FFFD, `strip()` |
| `Client` | the `RetroArchNCI` class. What the socket does on each call is a parameter of type `Delivery`: `sendto` raised, the message went out and no reply came (a timeout or a failing `recvfrom`), or the message went out and a datagram arrived. A ghost log `sent` records every line `_send` put on the wire. |

Some behaviour is modelled as written:

- A write with an empty byte list sends `WRITE_CORE_MEMORY <addr> ` with a
  trailing space, which still splits into two tokens.
- A read reply's echoed address and its number of bytes are not checked
  against the request.
- A message that is not ASCII is never sent and yields None, because
  `encode("ascii")` raises inside the `try`.

## Model

| member | source | states |
|---|---|---|
| Commands.Value | retroarch_nci.py:6-73 | `auto()` gives every member a value between 1 and 67 |
| Commands.Name | retroarch_nci.py:129 | definition of `command.name`, looked up from the member's value; see NameIsOpcodeName and NameIsToken |
| Commands.NameIsOpcodeName | retroarch_nci.py:6-73 | every member's name is non-empty and made of uppercase letters and `_` |
| Commands.NameIsToken | retroarch_nci.py:6-73 | every member's name is a single whitespace-free ASCII token, so it survives `encode("ascii")` and `split()` |
| Numerals.HexUpper | retroarch_nci.py:191 | definition of `{n:X}`; see Digits and HexUpperRoundTrip |
| Numerals.HexByte | retroarch_nci.py:223 | definition of `{b:02X}`; see HexByteDigits and HexByteRoundTrip |
| Numerals.DecimalText | retroarch_nci.py:191 | definition of `str(n)` for an integer, with a `-` sign for negative n; see DecimalRoundTrip |
| Numerals.Digits | retroarch_nci.py:191 | `{n:X}` and `str(n)` give a non-empty string of uppercase digits of the base; it starts with `0` only for n = 0, so there is no prefix and no leading zero |
| Numerals.DigitsRoundTrip | retroarch_nci.py:191 | reading the numeral back in its base gives n |
| Numerals.ParseHexToken | retroarch_nci.py:211 | `int(t, 16)` yields a value exactly when t is a non-empty string of hexadecimal digits of either case |
| Numerals.HexUpperRoundTrip | retroarch_nci.py:191 | `int(f"{n:X}", 16) == n` |
| Numerals.HexByteDigits | retroarch_nci.py:223 | `{b:02X}` of a byte is exactly two uppercase digits: the high nibble, then the low nibble |
| Numerals.HexByteRoundTrip | retroarch_nci.py:223 | `int(f"{b:02X}", 16) == b` for every byte |
| Numerals.DecimalRoundTrip | retroarch_nci.py:191 | `str(size)` reads back as size, negative sizes included |
| Tokens.JoinSpaces | retroarch_nci.py:132 | definition of `" ".join(parts)`; see SplitJoin, JoinSpacesLength and JoinSpacesAscii |
| Tokens.SplitWhitespace | retroarch_nci.py:196 | every piece `split()` returns is a non-empty run without whitespace |
| Tokens.SplitJoin | retroarch_nci.py:132 | splitting the single-space join of tokens gives the tokens back, in order |
| Tokens.JoinSpacesLength | retroarch_nci.py:132 | a join of n parts adds exactly n - 1 separator characters |
| Tokens.SplitTwoTokensTrailingSpace | retroarch_nci.py:223-224 | a trailing space after two tokens adds no token |
| Tokens.JoinSpacesAscii | retroarch_nci.py:132 | joining ASCII parts gives ASCII text |
| Bits.BitOr | retroarch_nci.py:211 | the bitwise OR of a and b is at least each operand and at most their sum |
| Bits.BitOrDisjoint | retroarch_nci.py:211 | OR-ing a value below 2^k with something shifted left by k is addition |
| Bits.LittleEndianSnoc | retroarch_nci.py:207-211 | appending a byte adds it at bit position 8 times the old length |
| Bits.LittleEndianBound | retroarch_nci.py:185 | n bytes read little-endian give a number below 256^n |
| Bits.OrAssembleIsLittleEndian | retroarch_nci.py:207-211 | the OR loop over bytes computes the sum of b_i * 256^i, which is below 2^(8n) |
| Messages.BuildMessage | retroarch_nci.py:131-135 | definition of the `cmd` line for a name and rendered arguments; see BuildMessageIsJoin and CommandMessageTokens |
| Messages.CommandMessage | retroarch_nci.py:129-135 | definition of the line `cmd` builds for a member; see CommandMessageTokens and CommandMessageAscii |
| Messages.BuildMessageIsJoin | retroarch_nci.py:128-135 | with no arguments the line is exactly the name, with no trailing space; in every case it is the single-space join of the name and the arguments |
| Messages.CommandMessageTokens | retroarch_nci.py:123-137 | with single-token arguments the line splits back into the name followed by the arguments, and it is one character per argument longer than they are together |
| Messages.CommandMessageAscii | retroarch_nci.py:123-137 | a line built from ASCII arguments is ASCII, so `_send` sends it |
| Messages.ShowMesgExample | retroarch_nci.py:127 | the documented `cmd(NCICommand.SHOW_MESG, "Hello", 2000)` sends `SHOW_MESG Hello 2000` |
| Messages.TargetMessage | retroarch_nci.py:146-153 | definition of the line `send_nci_command` builds for a member or a raw name; see KnownAndRawAgree |
| Messages.KnownAndRawAgree | retroarch_nci.py:139-155 | a member and its name given as a raw string send the same line: the single-space join of the name and the arguments |
| Messages.ShowMessageLine | retroarch_nci.py:233-237 | definition of the line `show_mesg` builds; see ShowMessageLineText, ShowMessageLineShape and ShowMessageLineAscii |
| Messages.ShowMessageLineText | retroarch_nci.py:233-237 | for every message, spaces included, `show_mesg` sends `SHOW_MESG `, the message verbatim, and a space and the decimal duration only when one is given |
| Messages.ShowMessageLineShape | retroarch_nci.py:233-237 | for a one-word message the line splits into SHOW_MESG, the message and, only when given, the duration, which reads back |
| Messages.ShowMessageLineAscii | retroarch_nci.py:233-237 | the `show_mesg` line of an ASCII message is ASCII |
| Messages.ReadRequest | retroarch_nci.py:191 | definition of the READ_CORE_MEMORY request line; see ReadRequestShape |
| Messages.ReadRequestShape | retroarch_nci.py:191 | the read request is READ_CORE_MEMORY followed by the address in uppercase hex (no prefix, no leading zeros) and the size in decimal; both read back, and the line is ASCII |
| Messages.HexBytes | retroarch_nci.py:223 | definition of the two-digit texts of the bytes, in order; see HexBytesAreTokens |
| Messages.WriteRequest | retroarch_nci.py:223-224 | definition of the WRITE_CORE_MEMORY request line; see WriteRequestShape and WriteExample |
| Messages.WriteRequestShape | retroarch_nci.py:223-224 | the write request splits into WRITE_CORE_MEMORY, the hex address and one two-digit token per byte in order, each reading back as its byte. With bytes it is the `cmd` line of the same arguments; with none it ends in a space. It is ASCII. |
| Messages.HexBytesAreTokens | retroarch_nci.py:223 | every byte's two-digit text is one ASCII token |
| Messages.HexByteExamples | retroarch_nci.py:223 | `{1:02X}` is `01` and `{255:02X}` is `FF` |
| Messages.WriteExample | retroarch_nci.py:217-224 | `write_core_memory(0x10, [1, 255])` sends `WRITE_CORE_MEMORY 10 01 FF` |
| Messages.ParseHexTokens | retroarch_nci.py:209-215 | parsing the byte tokens fails exactly when some token is not hexadecimal; otherwise it yields one value per token, in order |
| Messages.AssembleValue | retroarch_nci.py:207-215 | definition of the value the `try` block yields for the byte tokens; see AssembleLittleEndian and DecodeTokensLittleEndian |
| Messages.AssembleLittleEndian | retroarch_nci.py:207-215 | the loop that ORs `int(b, 16) << (8 * i)` into `val` returns the OR-fold of the parsed tokens, or None at the first token that is not hexadecimal |
| Messages.DecodeReadResponse | retroarch_nci.py:192-215 | definition of what `read_core_memory` returns for the reply `_send` gave; see DecodeRejects and DecodeLittleEndian |
| Messages.DecodeTokens | retroarch_nci.py:196-215 | definition of the decoding of the reply's tokens; see DecodeRejects, DecodeTokensLittleEndian and DecodeIgnoresHeader |
| Messages.DecodeRejects | retroarch_nci.py:192-215 | decoding gives None exactly when there is no reply, fewer than three tokens, a sole `-1` byte token, or a non-hexadecimal byte token |
| Messages.DecodeTokensLittleEndian | retroarch_nci.py:196-212 | reply tokens whose byte tokens read as bytes decode to their little-endian value |
| Messages.DecodeLittleEndian | retroarch_nci.py:179-215 | a reply whose byte tokens read as bytes b_i decodes to the sum of b_i * 256^i, which is below 256^n |
| Messages.DecodeIgnoresHeader | retroarch_nci.py:201 | the command-name and address tokens of a reply do not affect the result |
| Messages.ReadReplyRoundTrip | retroarch_nci.py:186-212 | a reply of any two header tokens and two-digit hex bytes decodes to the bytes' little-endian value |
| Messages.DecodeThreeBytesExample | retroarch_nci.py:186-212 | `READ_CORE_MEMORY 100 01 02 03` decodes to 0x030201 |
| Messages.DecodeFailureReplyExample | retroarch_nci.py:204-205 | the failure reply `READ_CORE_MEMORY 100 -1` decodes to None |
| Messages.DecodeShortReplyExample | retroarch_nci.py:198-199 | a reply that is only `READ_CORE_MEMORY` decodes to None |
| Messages.DecodeNonHexExample | retroarch_nci.py:214-215 | a reply with the byte token `zz` decodes to None |
| Transport.Truncate | retroarch_nci.py:108 | definition of the bytes `recvfrom(4096)` returns of a datagram; see ReceivedTextShape |
| Transport.DecodeAscii | retroarch_nci.py:109 | definition of `decode("ascii", errors="replace")`; see DecodeEncode and ReceivedTextShape |
| Transport.Strip | retroarch_nci.py:109 | definition of `strip()`; see StripSlice, StripEnds, StripIdempotent and SplitStrip |
| Transport.ReceivedText | retroarch_nci.py:108-109 | definition of the text `_send` returns for a received datagram; see ReceivedTextShape |
| Transport.EncodeAscii | retroarch_nci.py:103 | the ASCII encoding of text is a list of bytes |
| Transport.DecodeEncode | retroarch_nci.py:103-109 | decoding the ASCII encoding of ASCII text gives the text back unchanged |
| Transport.StripEnds | retroarch_nci.py:109 | stripped text neither starts nor ends with whitespace |
| Transport.StripIdempotent | retroarch_nci.py:109 | stripping twice is stripping once |
| Transport.SplitTrailingWhitespace | retroarch_nci.py:109 | trailing whitespace adds no token to a split |
| Transport.StripSlice | retroarch_nci.py:109 | `strip()` removes only whitespace at the two ends: the result is a slice of the text, kept verbatim with its inner whitespace, with only whitespace before and after it |
| Transport.SplitStrip | retroarch_nci.py:109 | `strip()` removes no token: the stripped reply splits as the raw one does |
| Transport.ReceivedTextShape | retroarch_nci.py:108-109 | a reply has at most 4096 characters, each ASCII or U+FFFD; it has no whitespace at either end and the tokens of the decoded datagram |
| Client.Logged | retroarch_nci.py:103 | definition of the lines on the wire after one `_send`; see RetroArchNCI.Send |
| Client.Received | retroarch_nci.py:108-115 | definition of the text received on one call; see ReceivedTextShape and ReplyOutcome |
| Client.Outcome | retroarch_nci.py:102-115 | definition of what `_send` returns; see ReplyOutcome and RetroArchNCI.Send |
| Client.ReplyOutcome | retroarch_nci.py:103-109 | an ASCII message answered by an ASCII text that fits the receive buffer makes `_send` return exactly that text, stripped |
| Client.DecodeReceived | retroarch_nci.py:109 | the reply's surrounding whitespace never changes how a READ_CORE_MEMORY reply decodes |
| Client.ReadReplyDatagram | retroarch_nci.py:179-215 | a reply datagram that fits the buffer and carries two-digit hex bytes after two header tokens decodes to the bytes' little-endian value |
| Client.RetroArchNCI.constructor | retroarch_nci.py:82-90 | the host, port and timeout are the ones given (defaulting to 127.0.0.1, 55355 and 1.0), and nothing has been sent; the timeout must be non-negative, as `settimeout` demands |
| Client.RetroArchNCI.Send | retroarch_nci.py:95-118 | with `expect_response` defaulting to true: a non-ASCII message, or one whose `sendto` raises, is not sent and yields None. Otherwise it is appended to the sent log, and the reply is None when not expected or not received, else the received text. |
| Client.RetroArchNCI.Cmd | retroarch_nci.py:123-137 | with `expect_response` defaulting to true, sends the `cmd` line, always when the arguments are ASCII and `sendto` succeeds, and returns `_send`'s outcome for it |
| Client.RetroArchNCI.SendNciCommand | retroarch_nci.py:139-155 | with `expect_response` defaulting to true, sends the line of a member or a raw name with the arguments, and returns `_send`'s outcome |
| Client.RetroArchNCI.ReadCoreMemory | retroarch_nci.py:179-215 | with `size` defaulting to 1, sends the READ_CORE_MEMORY request unless `sendto` raises, and returns the decoding of the received text (None when nothing was received) |
| Client.RetroArchNCI.WriteCoreMemory | retroarch_nci.py:217-225 | sends the WRITE_CORE_MEMORY request unless `sendto` raises, and returns the received text (None when nothing was received) |
| Client.RetroArchNCI.ShowMessage | retroarch_nci.py:233-237 | sends SHOW_MESG with the message and the duration, which defaults to None and is sent only when given; the line goes out for every ASCII message whose `sendto` succeeds |

## Left out

- Errors from creating the socket and from `settimeout` (lines 100-101) are raised outside the `try` and propagate to the caller. The model has no exceptions: it excludes a negative timeout at construction, and it does not model a failure to create the socket.
- The socket is not modelled: its creation, `settimeout`, `sendto`, `recvfrom` and `close`. What it does on each call is a `Client.Delivery` parameter: `SendFailed` for a `sendto` that raises, `NoReply` for a timeout or a `recvfrom` that raises, `Reply` for the datagram that arrives. When `sendto` raises (an unresolvable host, or a line over the 65,507-byte UDP payload limit, such as a write of 22,000 bytes) is not derived from the message; the model only promises that such a call sends nothing and returns None.
- Transport.Truncate: models `recvfrom(4096)` as on Linux and macOS, which cut a longer datagram to 4096 bytes. On Windows `recvfrom` raises for such a datagram and `_send` returns None; there the caller passes `NoReply`, and the truncation lemmas describe nothing.
- `wait_for_ready` (lines 160-174) polls with the wall clock and `time.sleep`; clocks and sleeping are outside the model.
- The fixed-argument wrappers at lines 230-231 and 239-312 are left out. Each is a single `cmd` call with a fixed member, which `Client.RetroArchNCI.Cmd` already covers.
- The command-line front end `retroarch_nci_cli.py` is not part of this model.
- Numerals.ParseHexToken: accepts only non-empty strings of hexadecimal digits. `int(t, 16)` also accepts a sign, a `0x` prefix, underscores and surrounding whitespace. The model therefore rejects a reply such as `READ_CORE_MEMORY 100 01 -1`, for which Python ORs in `-1 << 8` and returns a negative number.
- Bits.BitOr: defined for non-negative integers only, which is all `int(t, 16)` yields under the restriction above.
- Client.RetroArchNCI.ReadCoreMemory: the address is a natural number. `{address:X}` of a negative address (`-A`) is not modelled.
- Client.RetroArchNCI.WriteCoreMemory: requires every value to be a byte (0-255). `{b:02X}` of a larger or negative integer would give more digits or a sign.
- Messages.CommandMessage: arguments arrive as already-rendered strings. `map(str, args)` over arbitrary Python objects is modelled only for integers, via `Numerals.DecimalText`.
- Tokens.SplitWhitespace: only the ASCII whitespace characters separate tokens. `str.split()` also splits on other Unicode whitespace, which cannot occur in a line that is sent (it is not ASCII) or in a received reply (non-ASCII bytes decode to U+FFFD).
- Commands.Value: the enumeration's values are used only to look up names. Looking members up by name or by value is not modelled.
