/** The serial link to the mini smart controller (`MiniSmartController`):
    framing of outbound commands, the byte-at-a-time response reader, and
    the builders and parsers of each command's text. */
module Wire {
  import opened PyBuiltins
  import opened Registry

  const CR: char := 13 as char
  const BELL: char := 7 as char

  /** The acknowledgement text. */
  const Ack: string := "OK"

  /** Field widths of the cartridge-write payload. */
  const MaxConsoleLen: nat := 16
  const MaxGameLen: nat := 96

  /** The state of the serial link: characters received and not yet read,
      everything written so far, and the chunks the device will send, one
      after each write (its reply, possibly empty). */
  datatype Link = Link(input: seq<char>, output: seq<char>, replies: seq<seq<char>>)

  /** The chunk the device sends after the next write. */
  function NextChunk(replies: seq<seq<char>>): seq<char> {
    if |replies| == 0 then [] else replies[0]
  }

  function LaterChunks(replies: seq<seq<char>>): seq<seq<char>> {
    if |replies| == 0 then [] else replies[1..]
  }

  /** The serial port (`serial.Serial`): the receive buffer, the log of what
      was written, and the device's pending replies. */
  class SerialPort {
    var input: seq<char>
    var output: seq<char>
    var replies: seq<seq<char>>

    constructor (replies: seq<seq<char>>)
      ensures State() == Link([], [], replies)
    {
      input := [];
      output := [];
      this.replies := replies;
    }

    function State(): Link
      reads this
    {
      Link(input, output, replies)
    }

    /** `inWaiting()`: the number of characters received and not yet read. */
    method InWaiting() returns (n: nat)
      ensures n == |input|
    {
      n := |input|;
    }

    /** `read(size)`: up to `size` characters, fewer once the buffer runs dry
        (the read timing out). */
    method Read(size: nat) returns (data: seq<char>)
      modifies this
      ensures data == old(input)[..Min(size, |old(input)|)]
      ensures input == old(input)[|data|..]
      ensures output == old(output) && replies == old(replies)
    {
      data := input[..Min(size, |input|)];
      input := input[|data|..];
    }

    /** `flushInput()`: discards the receive buffer. */
    method FlushInput()
      modifies this
      ensures State() == old(State()).(input := [])
    {
      input := [];
    }

    /** `write(data)`, followed by the arrival of the device's reply. */
    method Write(data: seq<char>)
      modifies this
      ensures output == old(output) + data
      ensures input == old(input) + NextChunk(old(replies))
      ensures replies == LaterChunks(old(replies))
    {
      output := output + data;
      input := input + NextChunk(replies);
      replies := LaterChunks(replies);
    }

    /** Characters the device sends on its own (a button press, a reset). */
    method Receive(data: seq<char>)
      modifies this
      ensures State() == old(State()).(input := old(input) + data)
    {
      input := input + data;
    }
  }

  /** How a response read ended: at CR, at BELL, or on a failed read. */
  datatype Ending = Terminated | Aborted | ReadFailed

  /** A response as `read_response` sees it: the text, how many input
      characters it consumed, and how it ended. */
  datatype Frame = Frame(response: string, consumed: nat, ending: Ending)

  predicate NoTerminator(s: string) {
    CR !in s && BELL !in s
  }

  /** The response `read_response` collects from `input`: every character
      before the first CR or BELL, that character consumed but not kept; a
      read past the end fails and yields what was collected. */
  function ReadFrame(input: seq<char>): (f: Frame)
    ensures |f.response| <= f.consumed <= |input|
  {
    if |input| == 0 then Frame([], 0, ReadFailed)
    else if input[0] == CR then Frame([], 1, Terminated)
    else if input[0] == BELL then Frame([], 1, Aborted)
    else
      var f := ReadFrame(input[1..]);
      Frame([input[0]] + f.response, f.consumed + 1, f.ending)
  }

  /** The frame is the input up to its first terminator: it holds no CR or
      BELL, it ends at the first one (consumed, not kept), and it fails
      exactly when the input holds neither. */
  lemma {:induction false} ReadFrameShape(input: seq<char>)
    ensures var f := ReadFrame(input);
      && f.response == input[..|f.response|]
      && NoTerminator(f.response)
      && (f.ending == ReadFailed <==> NoTerminator(input))
      && (f.ending == ReadFailed ==> f.response == input && f.consumed == |input|)
      && (f.ending == Terminated ==> f.consumed == |f.response| + 1 && input[|f.response|] == CR)
      && (f.ending == Aborted ==> f.consumed == |f.response| + 1 && input[|f.response|] == BELL)
  {
    if |input| > 0 && input[0] != CR && input[0] != BELL {
      ReadFrameShape(input[1..]);
      assert input == [input[0]] + input[1..];
    }
  }

  /** The frame read from `rest` once `collected` has been gathered. */
  function ReadFrameFrom(collected: string, rest: seq<char>): Frame {
    var f := ReadFrame(rest);
    Frame(collected + f.response, |collected| + f.consumed, f.ending)
  }

  /** One character read: a terminator ends the frame, anything else is collected. */
  lemma ReadFrameStep(collected: string, rest: seq<char>)
    requires |rest| > 0 && NoTerminator(collected)
    ensures rest[0] == CR || rest[0] == BELL ==>
      ReadFrameFrom(collected, rest).response == collected &&
      ReadFrameFrom(collected, rest).consumed == |collected| + 1
    ensures rest[0] != CR && rest[0] != BELL ==>
      ReadFrameFrom(collected, rest) == ReadFrameFrom(collected + [rest[0]], rest[1..]) &&
      NoTerminator(collected + [rest[0]])
  {
  }

  /** A failed read ends the frame with what was collected. */
  lemma ReadFrameEnd(collected: string, rest: seq<char>)
    requires |rest| == 0
    ensures ReadFrameFrom(collected, rest).response == collected
    ensures ReadFrameFrom(collected, rest).consumed == |collected|
  {
  }

  /** The input left once the frame at its head has been read. */
  function AfterFrame(input: seq<char>): seq<char> {
    input[ReadFrame(input).consumed..]
  }

  /** A response and the link after the exchange that produced it. */
  datatype Reply = Reply(link: Link, response: string)

  /** `transmit`: discard the receive buffer, write the command and CR; the
      device's reply arrives and stays unread. */
  function Send(l: Link, cmd: string): Link {
    Link(NextChunk(l.replies), l.output + cmd + [CR], LaterChunks(l.replies))
  }

  /** `transmit_get_response`: as `Send`, then one response read from the reply. */
  function Exchange(l: Link, cmd: string): Reply {
    var arrived := NextChunk(l.replies);
    Reply(Link(AfterFrame(arrived), l.output + cmd + [CR], LaterChunks(l.replies)), ReadFrame(arrived).response)
  }

  /** An exchange writes exactly the command and CR, answers with the device's
      reply up to its first terminator, consumes one reply, and does not
      depend on what was waiting in the receive buffer. */
  lemma ExchangeShape(l: Link, stale: seq<char>, cmd: string)
    ensures Exchange(l, cmd) == Exchange(l.(input := stale), cmd)
    ensures Exchange(l, cmd).link.output == l.output + cmd + [CR]
    ensures |l.replies| > 0 ==> Exchange(l, cmd).link.replies == l.replies[1..]
    ensures |l.replies| > 0 ==> Exchange(l, cmd).response == l.replies[0][..|Exchange(l, cmd).response|]
    ensures NoTerminator(Exchange(l, cmd).response)
    ensures |l.replies| == 0 ==> Exchange(l, cmd).response == [] && Exchange(l, cmd).link.input == []
  {
    ReadFrameShape(NextChunk(l.replies));
  }

  /** A reply that is a response followed by CR yields exactly that response
      and leaves what follows it in the buffer. */
  lemma ExchangeTerminated(l: Link, cmd: string, response: string, after: seq<char>)
    requires NoTerminator(response)
    requires |l.replies| > 0 && l.replies[0] == response + [CR] + after
    ensures Exchange(l, cmd).response == response
    ensures Exchange(l, cmd).link.input == after
  {
    var chunk := response + [CR] + after;
    ReadFrameShape(chunk);
    assert chunk[|response| + 1..] == after;
  }

  /** `x.ljust(16) + ',' + y.ljust(96)`, the cartridge-write payload. */
  function CartPayload(console: string, game: string): (p: string)
    ensures |p| == Max(|console|, MaxConsoleLen) + 1 + Max(|game|, MaxGameLen)
    ensures p[..|console|] == console
    ensures forall i :: |console| <= i < MaxConsoleLen ==> p[i] == ' '
    ensures p[Max(|console|, MaxConsoleLen)] == ','
    ensures p[Max(|console|, MaxConsoleLen) + 1..][..|game|] == game
    ensures forall i :: Max(|console|, MaxConsoleLen) + 1 + |game| <= i < |p| ==> p[i] == ' '
  {
    var c := LJust(console, MaxConsoleLen);
    var g := LJust(game, MaxGameLen);
    assert [c, g][1..] == [g];
    assert Join(',', [g]) == g;
    var p := Join(',', [c, g]);
    assert p == c + [','] + g;
    assert p[Max(|console|, MaxConsoleLen) + 1..] == g;
    p
  }

  /** The payload is 113 characters when both names fit their fields. */
  lemma CartPayloadLength(console: string, game: string)
    requires |console| <= MaxConsoleLen && |game| <= MaxGameLen
    ensures |CartPayload(console, game)| == 113
  {
  }

  /** The cartridge-write command: id, sub-command 'w', payload. */
  function CartWriteCommand(console: string, game: string): string {
    [Cartridge.id, Cartridge.subcommands[1]] + CartPayload(console, game)
  }

  /** The console and game names read from a cartridge. */
  datatype CartNames = CartNames(console: string, game: string)

  /** `read_cart`'s parse of a response: drop the two status characters,
      right-strip, split on commas, right-strip the first two fields. The
      response is never compared with its length (`result != 2` compares a
      string with an int and always holds), so a response with no comma
      after the status raises `IndexError` instead of giving two empty names. */
  function ParseCartResponse(result: string): (r: Result<CartNames>)
    ensures r.Err? <==> ',' !in Drop(result, 2)
    ensures r.Err? ==> r.error == IndexError
    ensures r.Ok? ==> ',' !in r.value.console && ',' !in r.value.game
    ensures r.Ok? ==> NoTrailingSpace(r.value.console) && NoTrailingSpace(r.value.game)
  {
    var body := Drop(result, 2);
    var stripped := RStrip(body);
    var fields := Split(stripped, ',');
    assert ',' in body <==> ',' in stripped by {
      if ',' in body {
        var i :| 0 <= i < |body| && body[i] == ',';
        assert !IsSpace(body[i]);
        assert i < |stripped|;
        assert stripped[i] == ',';
      }
    }
    if |fields| < 2 then Err(IndexError)
    else Ok(CartNames(RStrip(fields[0]), RStrip(fields[1])))
  }

  /** The payload is the two padded fields around one comma. */
  lemma CartPayloadFields(console: string, game: string)
    ensures CartPayload(console, game) == LJust(console, MaxConsoleLen) + [','] + LJust(game, MaxGameLen)
  {
    var c := LJust(console, MaxConsoleLen);
    var g := LJust(game, MaxGameLen);
    assert [c, g][1..] == [g];
    assert Join(',', [g]) == g;
  }

  /** `rstrip` of the payload trims only the game field's padding. */
  lemma CartPayloadRStrip(console: string, game: string)
    requires NoTrailingSpace(game)
    ensures RStrip(CartPayload(console, game)) == LJust(console, MaxConsoleLen) + [','] + game
  {
    CartPayloadFields(console, game);
    var w := LJust(console, MaxConsoleLen) + [','] + game;
    assert NoTrailingSpace(w) by {
      if |game| == 0 {
        assert w[|w| - 1] == ',';
      } else {
        assert w[|w| - 1] == game[|game| - 1];
      }
    }
    if |game| < MaxGameLen {
      assert CartPayload(console, game) == w + Spaces(MaxGameLen - |game|);
      RStripPadded(w, MaxGameLen - |game|);
    }
  }

  lemma LJustNoComma(s: string, width: int)
    requires ',' !in s
    ensures ',' !in LJust(s, width)
  {
  }

  /** Round trip: a cartridge written with names that hold no comma and end in
      no whitespace reads back as those names, whatever the two status characters. */
  lemma CartRoundTrip(status: string, console: string, game: string)
    requires |status| == 2
    requires ',' !in console && ',' !in game
    requires NoTrailingSpace(console) && NoTrailingSpace(game)
    ensures ParseCartResponse(status + CartPayload(console, game)) == Ok(CartNames(console, game))
  {
    var c := LJust(console, MaxConsoleLen);
    var payload := CartPayload(console, game);
    assert Split(RStrip(Drop(status + payload, 2)), ',') == [c, game] by {
      assert (status + payload)[2..] == payload;
      CartPayloadRStrip(console, game);
      LJustNoComma(console, MaxConsoleLen);
      SplitField(c, game, ',');
      SplitPlain(game, ',');
    }
    ParseCartFields(status + payload);
    LJustRStrip(console, MaxConsoleLen);
  }

  /** A response whose body splits into two or more fields parses as the
      first two, right-stripped; any further fields are ignored. */
  lemma ParseCartFields(result: string)
    requires |Split(RStrip(Drop(result, 2)), ',')| >= 2
    ensures var f := Split(RStrip(Drop(result, 2)), ',');
      ParseCartResponse(result) == Ok(CartNames(RStrip(f[0]), RStrip(f[1])))
  {
  }

  /** The notify command: sub-command '1' for success, '0' otherwise. */
  function NotifyCommand(success: bool): (cmd: string)
    ensures |cmd| == 2 && cmd[0] == Notify.id
    ensures cmd[1] == (if success then '1' else '0')
  {
    [Notify.id, if success then Notify.subcommands[1] else Notify.subcommands[0]]
  }

  /** The temperature command: id 'T' and the reading in decimal. */
  function TemperatureCommand(temperature: int): string {
    [Temperature.id] + IntToStr(temperature)
  }

  /** The temperature command carries the reading so that `int()` recovers it. */
  lemma TemperatureCommandRoundTrip(temperature: int)
    ensures |TemperatureCommand(temperature)| >= 2
    ensures TemperatureCommand(temperature)[0] == 'T'
    ensures ParseInt(TemperatureCommand(temperature)[1..]) == Ok(temperature)
  {
    assert TemperatureCommand(temperature)[1..] == IntToStr(temperature);
    IntToStrRoundTrip(temperature);
  }

  /** `s` written `n` times in a row. */
  function Repeat(s: string, n: nat): (r: string)
    ensures |r| == n * |s|
  {
    if n == 0 then [] else Repeat(s, n - 1) + s
  }

  /** The init hand-shake from link state `l`: the responses read, whether the
      last one was the acknowledgement, and the link afterwards. The source
      retries forever; here `fuel` bounds the number of attempts. */
  datatype InitRun = InitRun(responses: seq<string>, acked: bool, link: Link)

  function InitRounds(l: Link, fuel: nat): (r: InitRun)
    ensures |r.responses| <= fuel
    decreases fuel
  {
    if fuel == 0 then InitRun([], false, l)
    else
      var x := Exchange(l, [Init.id]);
      if x.response == Ack then InitRun([Ack], true, x.link)
      else
        var t := InitRounds(x.link, fuel - 1);
        InitRun([x.response] + t.responses, t.acked, t.link)
  }

  /** The hand-shake stops at the first acknowledgement and only there: every
      earlier response differs from it, and without one all attempts are used. */
  lemma {:induction false} InitRoundsShape(l: Link, fuel: nat)
    decreases fuel
    ensures var r := InitRounds(l, fuel);
      && (r.acked <==> |r.responses| > 0 && r.responses[|r.responses| - 1] == Ack)
      && (forall i :: 0 <= i < |r.responses| - 1 ==> r.responses[i] != Ack)
      && (!r.acked ==> |r.responses| == fuel)
  {
    if fuel > 0 {
      var x := Exchange(l, [Init.id]);
      if x.response != Ack {
        InitRoundsShape(x.link, fuel - 1);
        var t := InitRounds(x.link, fuel - 1);
        assert InitRounds(l, fuel).responses == [x.response] + t.responses;
        NoEarlierAck(x.response, t.responses);
      }
    }
  }

  /** One "I" and CR is written per response of the hand-shake. */
  lemma {:induction false} InitRoundsOutput(l: Link, fuel: nat)
    decreases fuel
    ensures var r := InitRounds(l, fuel);
      r.link.output == l.output + Repeat([Init.id, CR], |r.responses|)
  {
    if fuel > 0 {
      var x := Exchange(l, [Init.id]);
      if x.response != Ack {
        InitRoundsOutput(x.link, fuel - 1);
        RepeatPrepend([Init.id, CR], |InitRounds(x.link, fuel - 1).responses|);
      } else {
        assert Repeat([Init.id, CR], 1) == [Init.id, CR];
      }
    }
  }

  /** A response other than the acknowledgement, put in front, keeps the
      acknowledgement out of all but the last place. */
  lemma NoEarlierAck(first: string, rest: seq<string>)
    requires first != Ack
    requires forall i :: 0 <= i < |rest| - 1 ==> rest[i] != Ack
    ensures forall i :: 0 <= i < |[first] + rest| - 1 ==> ([first] + rest)[i] != Ack
  {
    forall i | 0 <= i < |[first] + rest| - 1
      ensures ([first] + rest)[i] != Ack
    {
      if i > 0 {
        assert ([first] + rest)[i] == rest[i - 1];
      }
    }
  }

  lemma {:induction false} RepeatPrepend(s: string, n: nat)
    ensures s + Repeat(s, n) == Repeat(s, n + 1)
  {
    if n > 0 {
      RepeatPrepend(s, n - 1);
    }
  }

  /** A device that acknowledges at once ends the hand-shake after one attempt. */
  lemma InitAckedAtOnce(l: Link, fuel: nat, after: seq<char>)
    requires fuel > 0 && |l.replies| > 0 && l.replies[0] == Ack + [CR] + after
    ensures InitRounds(l, fuel).acked && InitRounds(l, fuel).responses == [Ack]
  {
    ExchangeTerminated(l, [Init.id], Ack, after);
  }

  /** The hand-shake from `l` after the responses `sent`. */
  function InitFrom(sent: seq<string>, l: Link, fuel: nat): InitRun {
    var t := InitRounds(l, fuel);
    InitRun(sent + t.responses, t.acked, t.link)
  }

  /** One attempt: an acknowledgement ends the hand-shake, anything else is recorded. */
  lemma InitRoundsStep(sent: seq<string>, l: Link, fuel: nat)
    requires fuel > 0
    ensures Exchange(l, [Init.id]).response == Ack ==>
      InitFrom(sent, l, fuel) == InitRun(sent + [Ack], true, Exchange(l, [Init.id]).link)
    ensures Exchange(l, [Init.id]).response != Ack ==>
      InitFrom(sent, l, fuel) ==
      InitFrom(sent + [Exchange(l, [Init.id]).response], Exchange(l, [Init.id]).link, fuel - 1)
  {
    var x := Exchange(l, [Init.id]);
    if x.response != Ack {
      var t := InitRounds(x.link, fuel - 1);
      assert sent + ([x.response] + t.responses) == (sent + [x.response]) + t.responses;
    }
  }

  /** `MiniSmartController`: the serial port it owns once connected, and the
      version strings the connect hand-shake reads. */
  class Controller {
    var port: SerialPort?
    var temperature: int
    var fwVersion: string
    var hwVersion: string

    constructor ()
      ensures port == null && temperature == 0 && fwVersion == "" && hwVersion == ""
    {
      port := null;
      temperature := 0;
      fwVersion := "";
      hwVersion := "";
    }

    /** `read_response`: collects characters until CR or BELL; a failed read
        ends it with what was collected. `timeout` is never used. */
    method ReadResponse(timeout: real) returns (response: string)
      requires port != null
      modifies port
      ensures response == ReadFrame(old(port.input)).response
      ensures port.input == AfterFrame(old(port.input))
      ensures port.output == old(port.output) && port.replies == old(port.replies)
    {
      var p := port;
      ghost var start := p.input;
      response := "";
      while true
        invariant ReadFrame(start) == ReadFrameFrom(response, p.input)
        invariant |response| <= |start| && p.input == start[|response|..]
        invariant NoTerminator(response)
        invariant p.output == old(p.output) && p.replies == old(p.replies)
        decreases |p.input|
      {
        ghost var before := p.input;
        var b := p.Read(1);
        if |b| == 0 {
          // indexing the empty read raises, and the handler returns the partial response
          ReadFrameEnd(response, before);
          return;
        }
        assert b == [before[0]] && before == start[|response|..];
        ReadFrameStep(response, before);
        assert p.input == start[|response| + 1..];
        if b[0] == CR || b[0] == BELL {
          return;
        }
        response := response + b;
      }
    }

    /** `transmit`: the command followed by CR; nothing is read. */
    method Transmit(cmd: string)
      requires port != null
      modifies port
      ensures port.State() == Send(old(port.State()), cmd)
    {
      port.FlushInput();
      port.Write(cmd + [CR]);
    }

    /** `transmit_get_response`: the command followed by CR, then one response. */
    method TransmitGetResponse(cmd: string) returns (response: string)
      requires port != null
      modifies port
      ensures Reply(port.State(), response) == Exchange(old(port.State()), cmd)
    {
      port.FlushInput();
      port.Write(cmd + [CR]);
      assert port.input == NextChunk(old(port.replies));
      response := ReadResponse(0.5);
    }

    /** `connect`, once the port is open: the firmware and hardware versions
        are the two responses without their leading tag character. */
    method Connect(p: SerialPort)
      modifies this, p
      ensures port == p
      ensures var fw := Exchange(old(p.State()), [FirmwareVersion.id]);
        var hw := Exchange(fw.link, [HardwareVersion.id]);
        && p.State() == hw.link
        && fwVersion == Drop(fw.response, 1)
        && hwVersion == Drop(hw.response, 1)
      ensures temperature == old(temperature)
    {
      port := p;
      p.FlushInput();
      var fw := TransmitGetResponse([FirmwareVersion.id]);
      fwVersion := Drop(fw, 1);
      var hw := TransmitGetResponse([HardwareVersion.id]);
      hwVersion := Drop(hw, 1);
    }

    /** `flush`: waits for the output to drain and discards the receive buffer. */
    method Flush()
      requires port != null
      modifies port
      ensures port.State() == old(port.State()).(input := [])
    {
      port.FlushInput();
    }

    /** `ack`: sends the acknowledgement and reads nothing. */
    method SendAck()
      requires port != null
      modifies port
      ensures port.State() == Send(old(port.State()), Ack)
    {
      Transmit(Ack);
    }

    /** `get_all_commands`: the id of every table entry. */
    method GetAllCommands() returns (ids: seq<char>)
      ensures ids == Ids(MscCmds)
    {
      ids := [];
      for i := 0 to |MscCmds|
        invariant |ids| == i
        invariant forall j :: 0 <= j < i ==> ids[j] == MscCmds[j].id
      {
        ids := ids + [MscCmds[i].id];
      }
    }

    /** `get_subcommands`: the sub-commands of the first entry with that id. */
    method GetSubcommands(id: char) returns (subcommands: seq<char>)
      ensures subcommands == Subcommands(id)
    {
      for i := 0 to |MscCmds|
        invariant Find(MscCmds, id) == Find(MscCmds[i..], id)
      {
        assert MscCmds[i..][0] == MscCmds[i] && MscCmds[i..][1..] == MscCmds[i + 1..];
        if MscCmds[i].id == id {
          return MscCmds[i].subcommands;
        }
      }
      return [];
    }

    /** `init_msc`: sends "I" until a response is exactly the acknowledgement
        (at most `maxAttempts` times). */
    method InitMsc(maxAttempts: nat) returns (acked: bool)
      requires port != null
      modifies port
      ensures acked == InitRounds(old(port.State()), maxAttempts).acked
      ensures port.State() == InitRounds(old(port.State()), maxAttempts).link
    {
      var p := port;
      ghost var start := p.State();
      ghost var sent: seq<string> := [];
      var k := 0;
      while k < maxAttempts
        invariant k <= maxAttempts && |sent| == k
        invariant InitRounds(start, maxAttempts) == InitFrom(sent, p.State(), maxAttempts - k)
      {
        InitRoundsStep(sent, p.State(), maxAttempts - k);
        var response := TransmitGetResponse([Init.id]);
        k := k + 1;
        sent := sent + [response];
        if response == Ack {
          return true;
        }
      }
      return false;
    }

    /** `write_cpu_temperature`: sends the reading and discards the response. */
    method WriteCpuTemperature(temperature: int)
      requires port != null
      modifies port
      ensures port.State() == Exchange(old(port.State()), TemperatureCommand(temperature)).link
    {
      var _ := TransmitGetResponse(TemperatureCommand(temperature));
    }

    /** `read_cart`: asks for the cartridge and parses the response. */
    method ReadCart() returns (r: Result<CartNames>)
      requires port != null
      modifies port
      ensures var x := Exchange(old(port.State()), [Cartridge.id, Cartridge.subcommands[0]]);
        port.State() == x.link && r == ParseCartResponse(x.response)
    {
      var result := TransmitGetResponse([Cartridge.id, Cartridge.subcommands[0]]);
      r := ParseCartResponse(result);
    }

    /** `write_cart`: sends the padded payload; the status is `int()` of the
        response after its first two characters. */
    method WriteCart(emulator: string, game: string) returns (status: Result<int>)
      requires port != null
      modifies port
      ensures var x := Exchange(old(port.State()), CartWriteCommand(emulator, game));
        port.State() == x.link && status == ParseInt(Drop(x.response, 2))
    {
      var result := TransmitGetResponse(CartWriteCommand(emulator, game));
      status := ParseInt(Drop(result, 2));
    }

    /** `erase_cart`. */
    method EraseCart() returns (status: Result<int>)
      requires port != null
      modifies port
      ensures var x := Exchange(old(port.State()), [Cartridge.id, Cartridge.subcommands[2]]);
        port.State() == x.link && status == ParseInt(Drop(x.response, 2))
    {
      var result := TransmitGetResponse([Cartridge.id, Cartridge.subcommands[2]]);
      status := ParseInt(Drop(result, 2));
    }

    /** `get_cart_status`. */
    method GetCartStatus() returns (status: Result<int>)
      requires port != null
      modifies port
      ensures var x := Exchange(old(port.State()), [Cartridge.id, Cartridge.subcommands[3]]);
        port.State() == x.link && status == ParseInt(Drop(x.response, 2))
    {
      var result := TransmitGetResponse([Cartridge.id, Cartridge.subcommands[3]]);
      status := ParseInt(Drop(result, 2));
    }

    /** `notifyLED`: "L1" for success, "L0" otherwise; the response is discarded. */
    method NotifyLed(success: bool)
      requires port != null
      modifies port
      ensures port.State() == Exchange(old(port.State()), NotifyCommand(success)).link
    {
      var command := [Notify.id];
      if success {
        command := command + [Notify.subcommands[1]];
      } else {
        command := command + [Notify.subcommands[0]];
      }
      var _ := TransmitGetResponse(command);
    }
  }
}
