/**
 * The wire format of the NCI client: the command line built by `cmd` and
 * `send_nci_command`, the READ_CORE_MEMORY request and reply, and the
 * WRITE_CORE_MEMORY request.
 */
module Messages {
  import opened Wrappers
  import opened Bits
  import opened Numerals
  import opened Tokens
  import opened Commands

  // ---------------------------------------------------------------------------
  // Command lines
  // ---------------------------------------------------------------------------

  /**
   * A command line: the name alone when there are no arguments, otherwise the
   * name, one space and the arguments joined by single spaces. Either way it
   * is the single-space join of the name followed by the arguments.
   */
  function BuildMessage(name: string, args: seq<string>): string
  {
    if args == [] then name else name + " " + JoinSpaces(args)
  }

  /**
   * Without arguments the line is exactly the name (no trailing space); in
   * every case it is `" ".join([name] + args)`.
   */
  lemma BuildMessageIsJoin(name: string, args: seq<string>)
    ensures args == [] ==> BuildMessage(name, args) == name
    ensures BuildMessage(name, args) == JoinSpaces([name] + args)
  {
    var parts := [name] + args;
    if args != [] {
      JoinSpacesCons(parts);
      assert parts[1..] == args;
    }
  }

  /** The line `cmd(command, *args)` sends; arguments arrive already rendered as text. */
  function CommandMessage(command: NciCommand, args: seq<string>): string
  {
    BuildMessage(Name(command), args)
  }

  /**
   * With arguments that are single tokens, the line splits back into the
   * opcode name followed by the arguments, and it is exactly one character per
   * argument longer than the name and arguments together: one space between
   * adjacent tokens and none before or after.
   */
  lemma CommandMessageTokens(command: NciCommand, args: seq<string>)
    requires AllTokens(args)
    ensures SplitWhitespace(CommandMessage(command, args)) == [Name(command)] + args
    ensures |CommandMessage(command, args)| == |Name(command)| + TotalLength(args) + |args|
  {
    NameIsToken(command);
    var parts := [Name(command)] + args;
    BuildMessageIsJoin(Name(command), args);
    assert AllTokens(parts);
    SplitJoin(parts);
    JoinSpacesLength(parts);
    assert parts[1..] == args;
  }

  /** The docstring example `cmd(NCICommand.SHOW_MESG, "Hello", 2000)`. */
  lemma ShowMesgExample()
    ensures DecimalText(2000) == "2000"
    ensures CommandMessage(ShowMesg, ["Hello", DecimalText(2000)]) == "SHOW_MESG Hello 2000"
  {
    assert Digits(2000, 10) == Digits(200, 10) + [DigitChar(0)];
    assert Digits(200, 10) == Digits(20, 10) + [DigitChar(0)];
    assert Digits(20, 10) == Digits(2, 10) + [DigitChar(0)];
    BuildTwoArgs("SHOW_MESG", "Hello", "2000");
  }

  lemma BuildTwoArgs(name: string, x: string, y: string)
    ensures BuildMessage(name, [x, y]) == name + " " + x + " " + y
  {
    assert JoinSpaces([x, y]) == x + " " + JoinSpaces([y]);
  }

  /** The line `show_mesg(message, duration_ms)` sends: the duration only when one is given. */
  function ShowMessageLine(message: string, durationMs: Option<int>): string
  {
    match durationMs
    case Some(d) => CommandMessage(ShowMesg, [message, DecimalText(d)])
    case None => CommandMessage(ShowMesg, [message])
  }

  lemma ShowName()
    ensures Name(ShowMesg) == "SHOW_MESG"
  {
  }

  /**
   * A one-token message gives the line SHOW_MESG, the message and, when
   * given, the duration, which reads back as the duration; an ASCII message
   * gives an ASCII line.
   */
  lemma ShowMessageLineShape(message: string, durationMs: Option<int>)
    requires IsToken(message)
    ensures durationMs.None? ==> SplitWhitespace(ShowMessageLine(message, durationMs)) == ["SHOW_MESG", message]
    ensures durationMs.Some? ==> SplitWhitespace(ShowMessageLine(message, durationMs)) == ["SHOW_MESG", message, DecimalText(durationMs.value)]
    ensures durationMs.Some? ==> ParseDecimal(DecimalText(durationMs.value)) == Some(durationMs.value)
  {
    ShowName();
    match durationMs
    case None =>
      assert AllTokens([message]);
      CommandMessageTokens(ShowMesg, [message]);
    case Some(d) =>
      NumeralTokens(0, d);
      assert AllTokens([message, DecimalText(d)]);
      CommandMessageTokens(ShowMesg, [message, DecimalText(d)]);
      DecimalRoundTrip(d);
  }

  /**
   * For every message, spaces included, the line is SHOW_MESG, a space and
   * the message, followed by a space and the duration only when one is given.
   */
  lemma ShowMessageLineText(message: string, durationMs: Option<int>)
    ensures ShowMessageLine(message, durationMs) ==
      "SHOW_MESG " + message + (if durationMs.Some? then " " + DecimalText(durationMs.value) else "")
  {
    ShowName();
    if durationMs.Some? {
      BuildTwoArgs("SHOW_MESG", message, DecimalText(durationMs.value));
    }
  }

  /** A line of an ASCII message is ASCII. */
  lemma ShowMessageLineAscii(message: string, durationMs: Option<int>)
    requires IsAscii(message)
    ensures IsAscii(ShowMessageLine(message, durationMs))
  {
    match durationMs
    case None =>
      CommandMessageAscii(ShowMesg, [message]);
    case Some(d) =>
      NumeralTokens(0, d);
      CommandMessageAscii(ShowMesg, [message, DecimalText(d)]);
  }

  /** What `send_nci_command` accepts: an enumeration member or a raw command name. */
  datatype CommandTarget = Known(command: NciCommand) | Raw(name: string)

  /**
   * The line `send_nci_command(target, *args)` sends. A member goes through
   * `cmd`; a raw name is taken as is and gets " " and the joined arguments
   * appended only when there are arguments.
   */
  function TargetMessage(target: CommandTarget, args: seq<string>): string
  {
    match target
    case Known(command) => CommandMessage(command, args)
    case Raw(name) =>
      var msg := name;
      if args != [] then msg + " " + JoinSpaces(args) else msg
  }

  /**
   * A member and its name given as a raw string produce the same line: the
   * single-space join of the name and the arguments.
   */
  lemma KnownAndRawAgree(command: NciCommand, args: seq<string>)
    ensures TargetMessage(Known(command), args) == TargetMessage(Raw(Name(command)), args)
    ensures TargetMessage(Raw(Name(command)), args) == JoinSpaces([Name(command)] + args)
  {
    BuildMessageIsJoin(Name(command), args);
  }

  // ---------------------------------------------------------------------------
  // READ_CORE_MEMORY request
  // ---------------------------------------------------------------------------

  /** `f"READ_CORE_MEMORY {address:X} {size}"`. */
  function ReadRequest(address: nat, size: int): string
  {
    "READ_CORE_MEMORY " + HexUpper(address) + " " + DecimalText(size)
  }

  lemma NumeralTokens(address: nat, size: int)
    ensures IsToken(HexUpper(address)) && IsAscii(HexUpper(address))
    ensures IsToken(DecimalText(size)) && IsAscii(DecimalText(size))
  {
    var d := Digits(if size < 0 then -size else size, 10);
    assert forall i :: 0 <= i < |d| ==> IsUpperHexDigit(d[i]);
    if size < 0 {
      assert DecimalText(size) == "-" + d;
    }
  }

  /** A command line built from ASCII arguments is ASCII. */
  lemma CommandMessageAscii(command: NciCommand, args: seq<string>)
    requires forall k :: 0 <= k < |args| ==> IsAscii(args[k])
    ensures IsAscii(CommandMessage(command, args))
  {
    NameIsToken(command);
    BuildMessageIsJoin(Name(command), args);
    var parts := [Name(command)] + args;
    assert forall k :: 1 <= k < |parts| ==> parts[k] == args[k - 1];
    JoinSpacesAscii(parts);
  }

  lemma ReadRequestIsCommand(address: nat, size: int)
    ensures ReadRequest(address, size) == CommandMessage(ReadCoreMemory, [HexUpper(address), DecimalText(size)])
  {
    BuildTwoArgs("READ_CORE_MEMORY", HexUpper(address), DecimalText(size));
    assert "READ_CORE_MEMORY " == "READ_CORE_MEMORY" + " ";
  }

  /** A command line with two single-token ASCII arguments splits back into three tokens. */
  lemma CommandTwoArgs(command: NciCommand, x: string, y: string)
    requires IsToken(x) && IsToken(y) && IsAscii(x) && IsAscii(y)
    ensures SplitWhitespace(CommandMessage(command, [x, y])) == [Name(command), x, y]
    ensures IsAscii(CommandMessage(command, [x, y]))
  {
    var args := [x, y];
    assert AllTokens(args);
    CommandMessageTokens(command, args);
    CommandMessageAscii(command, args);
    assert [Name(command)] + args == [Name(command), x, y];
  }

  lemma ReadName()
    ensures Name(ReadCoreMemory) == "READ_CORE_MEMORY"
  {
  }

  lemma ReadRequestTokens(address: nat, size: int)
    ensures SplitWhitespace(ReadRequest(address, size)) == ["READ_CORE_MEMORY", HexUpper(address), DecimalText(size)]
    ensures IsAscii(ReadRequest(address, size))
  {
    NumeralTokens(address, size);
    ReadRequestIsCommand(address, size);
    CommandTwoArgs(ReadCoreMemory, HexUpper(address), DecimalText(size));
    ReadName();
  }

  /**
   * The read request is the READ_CORE_MEMORY command line with two arguments:
   * the address in uppercase hexadecimal without prefix or leading zeros, and
   * the size in decimal. Both read back as what was written.
   */
  lemma ReadRequestShape(address: nat, size: int)
    ensures ReadRequest(address, size) == CommandMessage(ReadCoreMemory, [HexUpper(address), DecimalText(size)])
    ensures SplitWhitespace(ReadRequest(address, size)) == ["READ_CORE_MEMORY", HexUpper(address), DecimalText(size)]
    ensures forall i :: 0 <= i < |HexUpper(address)| ==> IsUpperHexDigit(HexUpper(address)[i])
    ensures HexUpper(address)[0] == '0' ==> address == 0
    ensures ParseHexToken(HexUpper(address)) == Some(address)
    ensures ParseDecimal(DecimalText(size)) == Some(size)
    ensures IsAscii(ReadRequest(address, size))
  {
    ReadRequestIsCommand(address, size);
    ReadRequestTokens(address, size);
    HexUpperRoundTrip(address);
    DecimalRoundTrip(size);
  }

  // ---------------------------------------------------------------------------
  // WRITE_CORE_MEMORY request
  // ---------------------------------------------------------------------------

  /** `f"{b:02X}"` for each byte, in order. */
  function HexBytes(bytes: seq<nat>): seq<string>
    requires AllBytes(bytes)
  {
    seq(|bytes|, i requires 0 <= i < |bytes| => HexByte(bytes[i]))
  }

  /** `f"WRITE_CORE_MEMORY {address:X} {hex_bytes}"`, hex_bytes being the space-joined bytes. */
  function WriteRequest(address: nat, bytes: seq<nat>): string
    requires AllBytes(bytes)
  {
    "WRITE_CORE_MEMORY " + HexUpper(address) + " " + JoinSpaces(HexBytes(bytes))
  }

  lemma HexByteIsToken(b: nat)
    requires b < 256
    ensures |HexByte(b)| == 2 && IsToken(HexByte(b)) && IsAscii(HexByte(b))
  {
    HexByteDigits(b);
  }

  lemma HexBytesAreTokens(bytes: seq<nat>)
    requires AllBytes(bytes)
    ensures AllTokens(HexBytes(bytes))
    ensures forall k :: 0 <= k < |bytes| ==> IsAscii(HexBytes(bytes)[k])
  {
    forall k | 0 <= k < |bytes|
      ensures IsToken(HexBytes(bytes)[k]) && IsAscii(HexBytes(bytes)[k])
    {
      HexByteIsToken(bytes[k]);
    }
  }

  lemma BuildWithHead(name: string, x: string, rest: seq<string>)
    requires rest != []
    ensures BuildMessage(name, [x] + rest) == name + " " + x + " " + JoinSpaces(rest)
  {
    var args := [x] + rest;
    JoinSpacesCons(args);
    assert args[1..] == rest;
  }

  lemma WriteRequestUnfold(address: nat, bytes: seq<nat>)
    requires AllBytes(bytes)
    ensures WriteRequest(address, bytes) == "WRITE_CORE_MEMORY" + " " + HexUpper(address) + " " + JoinSpaces(HexBytes(bytes))
  {
    assert "WRITE_CORE_MEMORY " == "WRITE_CORE_MEMORY" + " ";
  }

  lemma WriteCommandUnfold(x: string, rest: seq<string>)
    requires rest != []
    ensures CommandMessage(WriteCoreMemory, [x] + rest) == "WRITE_CORE_MEMORY" + " " + x + " " + JoinSpaces(rest)
  {
    assert Name(WriteCoreMemory) == "WRITE_CORE_MEMORY";
    BuildWithHead("WRITE_CORE_MEMORY", x, rest);
  }

  lemma WriteRequestIsCommand(address: nat, bytes: seq<nat>)
    requires AllBytes(bytes) && bytes != []
    ensures WriteRequest(address, bytes) == CommandMessage(WriteCoreMemory, [HexUpper(address)] + HexBytes(bytes))
  {
    WriteRequestUnfold(address, bytes);
    WriteCommandUnfold(HexUpper(address), HexBytes(bytes));
  }

  lemma WriteRequestEmpty(address: nat)
    ensures WriteRequest(address, []) == "WRITE_CORE_MEMORY " + HexUpper(address) + " "
    ensures WriteRequest(address, []) == "WRITE_CORE_MEMORY" + " " + HexUpper(address) + " "
  {
    assert HexBytes([]) == [];
    assert "WRITE_CORE_MEMORY " == "WRITE_CORE_MEMORY" + " ";
  }

  lemma WriteNameIsToken()
    ensures IsToken("WRITE_CORE_MEMORY") && IsAscii("WRITE_CORE_MEMORY")
  {
    NameIsToken(WriteCoreMemory);
    assert Name(WriteCoreMemory) == "WRITE_CORE_MEMORY";
  }

  lemma WriteRequestTokensEmpty(address: nat)
    ensures SplitWhitespace(WriteRequest(address, [])) == ["WRITE_CORE_MEMORY", HexUpper(address)]
  {
    WriteRequestEmpty(address);
    NumeralTokens(address, 0);
    WriteNameIsToken();
    SplitTwoTokensTrailingSpace("WRITE_CORE_MEMORY", HexUpper(address));
  }

  lemma WriteHeadTokens(x: string, hs: seq<string>)
    ensures [Name(WriteCoreMemory)] + ([x] + hs) == ["WRITE_CORE_MEMORY", x] + hs
  {
    assert Name(WriteCoreMemory) == "WRITE_CORE_MEMORY";
  }

  lemma ConsTokens(x: string, hs: seq<string>)
    requires IsToken(x) && AllTokens(hs)
    ensures AllTokens([x] + hs)
  {
  }

  lemma SplitWriteCommand(x: string, hs: seq<string>)
    requires IsToken(x) && AllTokens(hs)
    ensures SplitWhitespace(CommandMessage(WriteCoreMemory, [x] + hs)) == ["WRITE_CORE_MEMORY", x] + hs
  {
    ConsTokens(x, hs);
    CommandMessageTokens(WriteCoreMemory, [x] + hs);
    WriteHeadTokens(x, hs);
  }

  lemma WriteRequestTokensNonEmpty(address: nat, bytes: seq<nat>)
    requires AllBytes(bytes) && bytes != []
    ensures SplitWhitespace(WriteRequest(address, bytes)) == ["WRITE_CORE_MEMORY", HexUpper(address)] + HexBytes(bytes)
  {
    NumeralTokens(address, 0);
    HexBytesAreTokens(bytes);
    WriteRequestIsCommand(address, bytes);
    SplitWriteCommand(HexUpper(address), HexBytes(bytes));
  }

  lemma ConcatAscii(x: string, y: string)
    requires IsAscii(x) && IsAscii(y)
    ensures IsAscii(x + y)
  {
    assert forall i :: |x| <= i < |x + y| ==> (x + y)[i] == y[i - |x|];
  }

  lemma ConsAscii(x: string, hs: seq<string>)
    requires IsAscii(x) && forall k :: 0 <= k < |hs| ==> IsAscii(hs[k])
    ensures forall k :: 0 <= k < |[x] + hs| ==> IsAscii(([x] + hs)[k])
  {
  }

  lemma WriteRequestAscii(address: nat, bytes: seq<nat>)
    requires AllBytes(bytes)
    ensures IsAscii(WriteRequest(address, bytes))
  {
    NumeralTokens(address, 0);
    if bytes == [] {
      WriteRequestEmpty(address);
      WriteNameIsToken();
      ConcatAscii("WRITE_CORE_MEMORY", " ");
      ConcatAscii("WRITE_CORE_MEMORY" + " ", HexUpper(address));
      ConcatAscii("WRITE_CORE_MEMORY" + " " + HexUpper(address), " ");
    } else {
      HexBytesAreTokens(bytes);
      ConsAscii(HexUpper(address), HexBytes(bytes));
      WriteRequestIsCommand(address, bytes);
      CommandMessageAscii(WriteCoreMemory, [HexUpper(address)] + HexBytes(bytes));
    }
  }

  /**
   * The write request: with at least one byte it is the WRITE_CORE_MEMORY
   * command line whose arguments are the address and one two-digit uppercase
   * token per byte, in input order, each reading back as its byte. With no
   * bytes the line still ends in the space that precedes the (empty) byte list.
   */
  lemma WriteRequestShape(address: nat, bytes: seq<nat>)
    requires AllBytes(bytes)
    ensures bytes != [] ==> WriteRequest(address, bytes) == CommandMessage(WriteCoreMemory, [HexUpper(address)] + HexBytes(bytes))
    ensures bytes == [] ==> WriteRequest(address, bytes) == "WRITE_CORE_MEMORY " + HexUpper(address) + " "
    ensures SplitWhitespace(WriteRequest(address, bytes)) == ["WRITE_CORE_MEMORY", HexUpper(address)] + HexBytes(bytes)
    ensures forall k :: 0 <= k < |bytes| ==> |HexBytes(bytes)[k]| == 2 && ParseHexToken(HexBytes(bytes)[k]) == Some(bytes[k])
    ensures IsAscii(WriteRequest(address, bytes))
  {
    if bytes == [] {
      WriteRequestEmpty(address);
      WriteRequestTokensEmpty(address);
      assert HexBytes(bytes) == [];
    } else {
      WriteRequestIsCommand(address, bytes);
      WriteRequestTokensNonEmpty(address, bytes);
    }
    WriteRequestAscii(address, bytes);
    forall k | 0 <= k < |bytes|
      ensures |HexBytes(bytes)[k]| == 2 && ParseHexToken(HexBytes(bytes)[k]) == Some(bytes[k])
    {
      HexByteIsToken(bytes[k]);
      HexByteRoundTrip(bytes[k]);
    }
  }

  lemma HexUpperSixteen()
    ensures HexUpper(0x10) == "10"
  {
    assert Digits(16, 16) == Digits(1, 16) + [DigitChar(0)];
  }

  lemma HexByteExamples()
    ensures HexByte(1) == "01"
    ensures HexByte(255) == "FF"
  {
    HexByteDigits(1);
    HexByteDigits(255);
    assert DigitChar(0) == '0' && DigitChar(1) == '1' && DigitChar(15) == 'F';
  }

  lemma HexBytesExample()
    ensures HexBytes([1, 255]) == ["01", "FF"]
  {
    HexByteExamples();
  }

  lemma JoinTwo(a: string, b: string)
    ensures JoinSpaces([a, b]) == a + " " + b
  {
  }

  /** The example `write_core_memory(0x10, [1, 255])`. */
  lemma WriteExample()
    ensures WriteRequest(0x10, [1, 255]) == "WRITE_CORE_MEMORY 10 01 FF"
  {
    HexUpperSixteen();
    HexBytesExample();
    JoinTwo("01", "FF");
  }

  // ---------------------------------------------------------------------------
  // READ_CORE_MEMORY reply
  // ---------------------------------------------------------------------------

  /**
   * Every token read as hexadecimal, or None as soon as one of them is not
   * hexadecimal.
   */
  function ParseHexTokens(tokens: seq<string>): (r: Option<seq<nat>>)
    ensures r.None? <==> exists j :: 0 <= j < |tokens| && ParseHexToken(tokens[j]).None?
    ensures r.Some? ==> |r.value| == |tokens|
    ensures r.Some? ==> forall j :: 0 <= j < |tokens| ==> ParseHexToken(tokens[j]) == Some(r.value[j])
  {
    if tokens == [] then Some([])
    else
      var init := tokens[..|tokens| - 1];
      assert forall j :: 0 <= j < |init| ==> init[j] == tokens[j];
      match ParseHexTokens(init)
      case None => None
      case Some(vals) =>
        match ParseHexToken(tokens[|tokens| - 1])
        case None => None
        case Some(v) => Some(vals + [v])
  }

  /** The reply's sole byte token is the failure marker "-1". */
  predicate IsFailureMarker(byteTokens: seq<string>)
  {
    |byteTokens| == 1 && byteTokens[0] == "-1"
  }

  /** The value the assembly loop yields: each byte OR-ed in at bit 8*i, or None on a parse error. */
  function AssembleValue(byteTokens: seq<string>): Option<nat>
  {
    match ParseHexTokens(byteTokens)
    case None => None
    case Some(vals) => Some(OrAssemble(vals))
  }

  /**
   * The assembly loop of `read_core_memory`: `val |= int(b, 16) << (8 * i)`
   * for each byte token in order, leaving with None at the first token that
   * is not hexadecimal.
   */
  method AssembleLittleEndian(byteTokens: seq<string>) returns (r: Option<nat>)
    ensures r == AssembleValue(byteTokens)
  {
    var val := 0;
    ghost var vals: seq<nat> := [];
    var i := 0;
    while i < |byteTokens|
      invariant 0 <= i <= |byteTokens|
      invariant |vals| == i
      invariant forall j :: 0 <= j < i ==> ParseHexToken(byteTokens[j]) == Some(vals[j])
      invariant val == OrAssemble(vals)
    {
      var b := ParseHexToken(byteTokens[i]);
      if b.None? {
        return None;
      }
      assert (vals + [b.value])[..i] == vals;
      val := BitOr(val, ShiftLeft(b.value, 8 * i));
      vals := vals + [b.value];
      i := i + 1;
    }
    assert ParseHexTokens(byteTokens).value == vals;
    r := Some(val);
  }

  /**
   * The decoding of a READ_CORE_MEMORY reply. The reply is split on
   * whitespace; the first token (the command name) and the second (the echoed
   * address) are not looked at, and the number of byte tokens is not compared
   * with the size requested.
   */
  function DecodeReadResponse(resp: Option<string>): Option<nat>
  {
    match resp
    case None => None
    case Some(text) => DecodeTokens(SplitWhitespace(text))
  }

  /** The checks and the assembly loop applied to the tokens of a reply. */
  function DecodeTokens(parts: seq<string>): Option<nat>
  {
    if |parts| < 3 then None
    else if IsFailureMarker(parts[2..]) then None
    else AssembleValue(parts[2..])
  }

  /**
   * Decoding yields no value exactly when there was no reply, the reply has
   * fewer than three tokens, its only byte token is "-1", or some byte token
   * is not hexadecimal.
   */
  lemma DecodeRejects(resp: Option<string>)
    ensures DecodeReadResponse(resp).None? <==>
      || resp.None?
      || |SplitWhitespace(resp.value)| < 3
      || IsFailureMarker(SplitWhitespace(resp.value)[2..])
      || exists j :: 2 <= j < |SplitWhitespace(resp.value)| && ParseHexToken(SplitWhitespace(resp.value)[j]).None?
  {
    if resp.Some? {
      var parts := SplitWhitespace(resp.value);
      if |parts| >= 3 {
        var bs := parts[2..];
        assert forall j :: 2 <= j < |parts| ==> parts[j] == bs[j - 2];
        if ParseHexTokens(bs).None? {
          var j :| 0 <= j < |bs| && ParseHexToken(bs[j]).None?;
          assert ParseHexToken(parts[j + 2]).None?;
        }
      }
    }
  }

  /** Byte tokens that read as bytes assemble to their little-endian value. */
  lemma AssembleBytes(byteTokens: seq<string>, bytes: seq<nat>)
    requires AllBytes(bytes) && |byteTokens| == |bytes|
    requires forall j :: 0 <= j < |bytes| ==> ParseHexToken(byteTokens[j]) == Some(bytes[j])
    ensures AssembleValue(byteTokens) == Some(LittleEndian(bytes))
    ensures LittleEndian(bytes) < Pow2(8 * |bytes|)
  {
    var vals := ParseHexTokens(byteTokens).value;
    assert vals == bytes;
    OrAssembleIsLittleEndian(bytes);
  }

  lemma FailureMarkerIsNotHex()
    ensures ParseHexToken("-1").None?
  {
    assert !IsHexDigit("-1"[0]);
  }

  /** Reply tokens whose byte tokens read as bytes decode to their little-endian value. */
  lemma DecodeTokensLittleEndian(parts: seq<string>, bytes: seq<nat>)
    requires bytes != [] && AllBytes(bytes)
    requires |parts| == |bytes| + 2
    requires forall j :: 0 <= j < |bytes| ==> ParseHexToken(parts[j + 2]) == Some(bytes[j])
    ensures DecodeTokens(parts) == Some(LittleEndian(bytes))
  {
    var bs := parts[2..];
    assert forall j :: 0 <= j < |bytes| ==> bs[j] == parts[j + 2];
    FailureMarkerIsNotHex();
    assert ParseHexToken(bs[0]) == Some(bytes[0]);
    AssembleBytes(bs, bytes);
  }

  /**
   * A reply whose byte tokens read as bytes b0, b1, ... decodes to the
   * little-endian number b0 + 256*b1 + ..., which is below 256^n for n bytes.
   */
  lemma DecodeLittleEndian(text: string, bytes: seq<nat>)
    requires bytes != [] && AllBytes(bytes)
    requires |SplitWhitespace(text)| == |bytes| + 2
    requires forall j :: 0 <= j < |bytes| ==> ParseHexToken(SplitWhitespace(text)[j + 2]) == Some(bytes[j])
    ensures DecodeReadResponse(Some(text)) == Some(LittleEndian(bytes))
    ensures LittleEndian(bytes) < Pow2(8 * |bytes|)
  {
    DecodeTokensLittleEndian(SplitWhitespace(text), bytes);
    LittleEndianBound(bytes);
  }

  /** Only the byte tokens matter: the name and address tokens of a reply are ignored. */
  lemma DecodeIgnoresHeader(text1: string, text2: string)
    requires |SplitWhitespace(text1)| >= 3 && |SplitWhitespace(text2)| >= 3
    requires SplitWhitespace(text1)[2..] == SplitWhitespace(text2)[2..]
    ensures DecodeReadResponse(Some(text1)) == DecodeReadResponse(Some(text2))
  {
  }

  /**
   * A well-formed reply carrying bytes written as two-digit hexadecimal
   * decodes to their little-endian value, whatever the header tokens are.
   */
  lemma ReadReplyRoundTrip(name: string, address: string, bytes: seq<nat>)
    requires IsToken(name) && IsToken(address)
    requires bytes != [] && AllBytes(bytes)
    ensures DecodeReadResponse(Some(JoinSpaces([name, address] + HexBytes(bytes)))) == Some(LittleEndian(bytes))
  {
    var parts := [name, address] + HexBytes(bytes);
    HexBytesAreTokens(bytes);
    assert AllTokens(parts);
    SplitJoin(parts);
    forall j | 0 <= j < |bytes|
      ensures ParseHexToken(parts[j + 2]) == Some(bytes[j])
    {
      HexByteRoundTrip(bytes[j]);
    }
    DecodeTokensLittleEndian(parts, bytes);
  }

  lemma ReadNameIsToken()
    ensures IsToken("READ_CORE_MEMORY") && IsAscii("READ_CORE_MEMORY")
  {
    NameIsToken(ReadCoreMemory);
    ReadName();
  }

  lemma JoinThree(a: string, b: string, c: string)
    ensures JoinSpaces([a, b, c]) == a + " " + b + " " + c
  {
    assert JoinSpaces([a, b, c]) == a + " " + JoinSpaces([b, c]);
    assert JoinSpaces([b, c]) == b + " " + c;
  }

  lemma JoinFive(a: string, b: string, c: string, d: string, e: string)
    ensures JoinSpaces([a, b, c, d, e]) == a + " " + b + " " + c + " " + d + " " + e
  {
    assert JoinSpaces([a, b, c, d, e]) == a + " " + JoinSpaces([b, c, d, e]);
    assert JoinSpaces([b, c, d, e]) == b + " " + JoinSpaces([c, d, e]);
    assert JoinSpaces([c, d, e]) == c + " " + JoinSpaces([d, e]);
    assert JoinSpaces([d, e]) == d + " " + e;
  }

  /** Three tokens joined by single spaces split back into the three tokens. */
  lemma SplitThreeTokens(a: string, b: string, c: string)
    requires IsToken(a) && IsToken(b) && IsToken(c)
    ensures SplitWhitespace(a + " " + b + " " + c) == [a, b, c]
  {
    var parts := [a, b, c];
    assert AllTokens(parts);
    SplitJoin(parts);
    JoinThree(a, b, c);
  }

  /** Five tokens joined by single spaces split back into the five tokens. */
  lemma SplitFiveTokens(a: string, b: string, c: string, d: string, e: string)
    requires IsToken(a) && IsToken(b) && IsToken(c) && IsToken(d) && IsToken(e)
    ensures SplitWhitespace(a + " " + b + " " + c + " " + d + " " + e) == [a, b, c, d, e]
  {
    var parts := [a, b, c, d, e];
    assert AllTokens(parts);
    SplitJoin(parts);
    JoinFive(a, b, c, d, e);
  }

  lemma SampleReplyText()
    ensures "READ_CORE_MEMORY 100 01 02 03" == "READ_CORE_MEMORY" + " " + "100" + " " + "01" + " " + "02" + " " + "03"
  {
  }

  lemma ShortTokens()
    ensures IsToken("100") && IsToken("01") && IsToken("02") && IsToken("03")
    ensures IsToken("-1") && IsToken("zz")
  {
  }

  lemma SampleReplyTokens()
    ensures SplitWhitespace("READ_CORE_MEMORY 100 01 02 03") == ["READ_CORE_MEMORY", "100", "01", "02", "03"]
  {
    ReadNameIsToken();
    ShortTokens();
    SplitFiveTokens("READ_CORE_MEMORY", "100", "01", "02", "03");
    SampleReplyText();
  }

  lemma SampleBytes()
    ensures ParseHexToken("01") == Some(1)
    ensures ParseHexToken("02") == Some(2)
    ensures ParseHexToken("03") == Some(3)
  {
    HexByteDigits(1);
    HexByteDigits(2);
    HexByteDigits(3);
    assert DigitChar(0) == '0' && DigitChar(1) == '1' && DigitChar(2) == '2' && DigitChar(3) == '3';
    HexByteRoundTrip(1);
    HexByteRoundTrip(2);
    HexByteRoundTrip(3);
  }

  lemma SampleValue()
    ensures LittleEndian([1, 2, 3]) == 0x030201
  {
    assert [1, 2, 3][1..] == [2, 3];
    assert [2, 3][1..] == [3];
    assert [3][1..] == [];
  }

  lemma SampleDecode()
    ensures DecodeTokens(["READ_CORE_MEMORY", "100", "01", "02", "03"]) == Some(0x030201)
  {
    var parts := ["READ_CORE_MEMORY", "100", "01", "02", "03"];
    var bytes := [1, 2, 3];
    SampleBytes();
    assert forall j :: 0 <= j < |bytes| ==> ParseHexToken(parts[j + 2]) == Some(bytes[j]);
    DecodeTokensLittleEndian(parts, bytes);
    SampleValue();
  }

  /** The sample reply "READ_CORE_MEMORY 100 01 02 03" decodes to 0x030201. */
  lemma DecodeThreeBytesExample()
    ensures DecodeReadResponse(Some("READ_CORE_MEMORY 100 01 02 03")) == Some(0x030201)
  {
    SampleReplyTokens();
    SampleDecode();
  }

  /** A reply whose only byte token is "-1" decodes to nothing. */
  lemma DecodeFailureTokens(a: string, b: string)
    ensures DecodeTokens([a, b, "-1"]) == None
  {
    assert [a, b, "-1"][2..] == ["-1"];
  }

  /** A reply whose single byte token is not hexadecimal decodes to nothing. */
  lemma DecodeNonHexTokens(a: string, b: string, c: string)
    requires ParseHexToken(c).None?
    ensures DecodeTokens([a, b, c]) == None
  {
    assert [a, b, c][2..] == [c];
  }

  lemma FailureReplyTokens()
    ensures SplitWhitespace("READ_CORE_MEMORY 100 -1") == ["READ_CORE_MEMORY", "100", "-1"]
  {
    ReadNameIsToken();
    ShortTokens();
    SplitThreeTokens("READ_CORE_MEMORY", "100", "-1");
    assert "READ_CORE_MEMORY 100 -1" == "READ_CORE_MEMORY" + " " + "100" + " " + "-1";
  }

  lemma NonHexReplyTokens()
    ensures SplitWhitespace("READ_CORE_MEMORY 100 zz") == ["READ_CORE_MEMORY", "100", "zz"]
  {
    ReadNameIsToken();
    ShortTokens();
    SplitThreeTokens("READ_CORE_MEMORY", "100", "zz");
    assert "READ_CORE_MEMORY 100 zz" == "READ_CORE_MEMORY" + " " + "100" + " " + "zz";
  }

  /** The failure reply "READ_CORE_MEMORY 100 -1" gives no value. */
  lemma DecodeFailureReplyExample()
    ensures DecodeReadResponse(Some("READ_CORE_MEMORY 100 -1")) == None
  {
    FailureReplyTokens();
    DecodeFailureTokens("READ_CORE_MEMORY", "100");
  }

  /** A reply that is only the command name gives no value. */
  lemma DecodeShortReplyExample()
    ensures DecodeReadResponse(Some("READ_CORE_MEMORY")) == None
  {
    ReadNameIsToken();
    SplitSingleToken("READ_CORE_MEMORY");
  }

  /** A reply with a byte token that is not hexadecimal gives no value. */
  lemma DecodeNonHexExample()
    ensures DecodeReadResponse(Some("READ_CORE_MEMORY 100 zz")) == None
  {
    NonHexReplyTokens();
    assert !IsHexDigit("zz"[0]);
    DecodeNonHexTokens("READ_CORE_MEMORY", "100", "zz");
  }
}
