/**
 * The `RetroArchNCI` client object: where it sends to, which datagrams it
 * has put on the wire, and what each public helper returns.
 *
 * `_send` opens a UDP socket per call. Only its observable effect is kept
 * here: the message is sent when it encodes as ASCII and `sendto` succeeds,
 * and the reply is the received datagram turned into text, or None. What the
 * socket does (a failed send, no reply, or the datagram that arrives) is a
 * parameter of each call.
 */
module Client {
  import opened Wrappers
  import opened Bits
  import opened Numerals
  import opened Tokens
  import opened Commands
  import opened Messages
  import opened Transport

  /**
   * What the socket does during one `_send` of an ASCII message. `sendto`
   * can raise (an unresolvable host, a datagram over the UDP payload limit),
   * and then nothing goes on the wire. Otherwise the message is sent, and
   * either nothing comes back (a timeout, or `recvfrom` raising) or one
   * datagram arrives.
   */
  datatype Delivery = SendFailed | NoReply | Reply(data: seq<nat>)

  /** A received datagram is made of bytes. */
  predicate WellFormed(delivery: Delivery)
  {
    delivery.Reply? ==> AllBytes(delivery.data)
  }

  /**
   * The lines on the wire after `_send(msg)`: msg goes out only when it
   * encodes as ASCII and `sendto` succeeds.
   */
  function Logged(log: seq<string>, msg: string, delivery: Delivery): seq<string>
  {
    if IsAscii(msg) && !delivery.SendFailed? then log + [msg] else log
  }

  /** The received text, when a datagram arrived. */
  function Received(delivery: Delivery): Option<string>
    requires WellFormed(delivery)
  {
    match delivery
    case Reply(data) => ReceivedText(Some(data))
    case _ => None
  }

  /**
   * What `_send(msg, expect_response)` returns: None when msg does not encode
   * as ASCII, when `sendto` fails, when no reply is expected or when none
   * arrives; otherwise the received text.
   */
  function Outcome(msg: string, expectResponse: bool, delivery: Delivery): Option<string>
    requires WellFormed(delivery)
  {
    if !IsAscii(msg) || !expectResponse then None else Received(delivery)
  }

  /**
   * When the peer answers an ASCII message with an ASCII text that fits the
   * receive buffer, `_send` returns exactly that text with its surrounding
   * whitespace stripped.
   */
  lemma ReplyOutcome(msg: string, text: string)
    requires IsAscii(msg) && IsAscii(text) && |text| <= RecvBufferSize
    ensures Outcome(msg, true, Reply(EncodeAscii(text))) == Some(Strip(text))
  {
    DecodeEncode(text);
    TruncateShort(EncodeAscii(text));
  }

  /** The reply text's surrounding whitespace never changes how a READ_CORE_MEMORY reply decodes. */
  lemma DecodeReceived(data: seq<nat>)
    requires AllBytes(data)
    ensures DecodeReadResponse(ReceivedText(Some(data))) == DecodeTokens(SplitWhitespace(DecodeAscii(Truncate(data))))
  {
    ReceivedTextShape(data);
  }

  /**
   * A reply datagram carrying the bytes as two-digit hexadecimal tokens after
   * any two header tokens, short enough for the receive buffer, makes
   * `read_core_memory` return the bytes' little-endian value.
   */
  lemma ReadReplyDatagram(name: string, address: string, bytes: seq<nat>)
    requires IsToken(name) && IsAscii(name) && IsToken(address) && IsAscii(address)
    requires bytes != [] && AllBytes(bytes)
    requires |JoinSpaces([name, address] + HexBytes(bytes))| <= RecvBufferSize
    ensures IsAscii(JoinSpaces([name, address] + HexBytes(bytes)))
    ensures DecodeReadResponse(ReceivedText(Some(EncodeAscii(JoinSpaces([name, address] + HexBytes(bytes)))))) == Some(LittleEndian(bytes))
  {
    var parts := [name, address] + HexBytes(bytes);
    HexBytesAreTokens(bytes);
    assert forall k :: 0 <= k < |parts| ==> IsAscii(parts[k]);
    JoinSpacesAscii(parts);
    var line := JoinSpaces(parts);
    var data := EncodeAscii(line);
    DecodeEncode(line);
    TruncateShort(data);
    DecodeReceived(data);
    ReadReplyRoundTrip(name, address, bytes);
  }

  class RetroArchNCI {
    /** Address, port and receive timeout of the NCI UDP server, fixed at construction. */
    const host: string
    const port: int
    const timeout: real

    /** Every line `_send` has put on the wire so far, oldest first. */
    ghost var sent: seq<string>

    /**
     * `RetroArchNCI(host, port, timeout)`, with the same defaults. `settimeout`
     * raises for a negative timeout, so one is required to be non-negative.
     */
    constructor (host: string := "127.0.0.1", port: int := 55355, timeout: real := 1.0)
      requires timeout >= 0.0
      ensures this.host == host && this.port == port && this.timeout == timeout
      ensures sent == []
    {
      this.host := host;
      this.port := port;
      this.timeout := timeout;
      sent := [];
    }

    /**
     * `_send`: a message that does not encode as ASCII, or whose `sendto`
     * raises, is not sent and yields None; otherwise the message is sent, and
     * the reply is None when none is expected or none arrived, else the
     * received text.
     */
    method Send(msg: string, delivery: Delivery, expectResponse: bool := true) returns (reply: Option<string>)
      requires WellFormed(delivery)
      modifies this
      ensures sent == Logged(old(sent), msg, delivery)
      ensures reply == Outcome(msg, expectResponse, delivery)
      ensures reply.Some? ==> sent == old(sent) + [msg] && expectResponse && delivery.Reply?
    {
      if !IsAscii(msg) {
        return None;
      }
      if delivery.SendFailed? {
        return None;
      }
      sent := sent + [msg];
      if !expectResponse {
        return None;
      }
      reply := Received(delivery);
    }

    /**
     * `cmd(command, *args)`: sends the command line of the member's name and
     * the arguments; with ASCII arguments that line is sent unless `sendto` fails.
     */
    method Cmd(command: NciCommand, args: seq<string>, delivery: Delivery, expectResponse: bool := true)
      returns (reply: Option<string>)
      requires WellFormed(delivery)
      modifies this
      ensures sent == Logged(old(sent), CommandMessage(command, args), delivery)
      ensures reply == Outcome(CommandMessage(command, args), expectResponse, delivery)
      ensures (forall k :: 0 <= k < |args| ==> IsAscii(args[k])) && !delivery.SendFailed? ==> sent == old(sent) + [CommandMessage(command, args)]
    {
      var full := BuildMessage(Name(command), args);
      if forall k :: 0 <= k < |args| ==> IsAscii(args[k]) {
        CommandMessageAscii(command, args);
      }
      reply := Send(full, delivery, expectResponse);
    }

    /**
     * `send_nci_command(target, *args)`: a member goes through `cmd`, a raw
     * name is sent with the arguments appended; both send the same line for
     * the same name.
     */
    method SendNciCommand(target: CommandTarget, args: seq<string>, delivery: Delivery, expectResponse: bool := true)
      returns (reply: Option<string>)
      requires WellFormed(delivery)
      modifies this
      ensures sent == Logged(old(sent), TargetMessage(target, args), delivery)
      ensures reply == Outcome(TargetMessage(target, args), expectResponse, delivery)
    {
      match target
      case Known(command) =>
        reply := Cmd(command, args, delivery, expectResponse);
      case Raw(name) =>
        var msg := name;
        if args != [] {
          msg := msg + " " + JoinSpaces(args);
        }
        reply := Send(msg, delivery, expectResponse);
    }

    /**
     * `read_core_memory(address, size)`: sends the READ_CORE_MEMORY request
     * unless `sendto` fails, and returns the decoding of the reply.
     */
    method ReadCoreMemory(address: nat, delivery: Delivery, size: int := 1) returns (val: Option<nat>)
      requires WellFormed(delivery)
      modifies this
      ensures sent == Logged(old(sent), ReadRequest(address, size), delivery)
      ensures !delivery.SendFailed? ==> sent == old(sent) + [ReadRequest(address, size)]
      ensures val == DecodeReadResponse(Received(delivery))
    {
      var request := ReadRequest(address, size);
      ReadRequestShape(address, size);
      var resp := Send(request, delivery);
      if resp.None? {
        return None;
      }
      var parts := SplitWhitespace(resp.value);
      if |parts| < 3 {
        return None;
      }
      var byteParts := parts[2..];
      if |byteParts| == 1 && byteParts[0] == "-1" {
        return None;
      }
      val := AssembleLittleEndian(byteParts);
    }

    /**
     * `write_core_memory(address, bytes_list)`: sends the WRITE_CORE_MEMORY
     * request unless `sendto` fails, and returns the received text.
     */
    method WriteCoreMemory(address: nat, bytes: seq<nat>, delivery: Delivery) returns (reply: Option<string>)
      requires AllBytes(bytes)
      requires WellFormed(delivery)
      modifies this
      ensures sent == Logged(old(sent), WriteRequest(address, bytes), delivery)
      ensures !delivery.SendFailed? ==> sent == old(sent) + [WriteRequest(address, bytes)]
      ensures reply == Received(delivery)
    {
      var request := WriteRequest(address, bytes);
      WriteRequestShape(address, bytes);
      reply := Send(request, delivery);
    }

    /**
     * `show_mesg(message, duration_ms)`: SHOW_MESG with the message, followed
     * by the duration in decimal when one is given.
     */
    method ShowMessage(message: string, delivery: Delivery, durationMs: Option<int> := None) returns (reply: Option<string>)
      requires WellFormed(delivery)
      modifies this
      ensures sent == Logged(old(sent), ShowMessageLine(message, durationMs), delivery)
      ensures reply == Outcome(ShowMessageLine(message, durationMs), true, delivery)
      ensures IsAscii(message) && !delivery.SendFailed? ==> sent == old(sent) + [ShowMessageLine(message, durationMs)]
    {
      if IsAscii(message) {
        ShowMessageLineAscii(message, durationMs);
      }
      if durationMs.Some? {
        reply := Cmd(ShowMesg, [message, DecimalText(durationMs.value)], delivery);
      } else {
        reply := Cmd(ShowMesg, [message], delivery);
      }
    }
  }
}
