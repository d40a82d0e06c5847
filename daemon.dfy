/** The host daemon's session: the module globals of `py_msc` as the fields of
    one object, and each routine as a method that updates them in place,
    talks to the controller and appends to the effect log. Every method is
    proved to do what the matching function of `DaemonSpec` describes. */
module Daemon {
  import opened PyBuiltins
  import opened Registry
  import opened Retropie
  import opened Wire
  import opened DaemonSpec

  class Session {
    /** `msc`, the controller, connected before the session starts. */
    const msc: Controller

    var validCartridge: bool
    var gameRunning: bool
    var emulatorPath: string
    var romPath: string
    var currentConsole: string
    var currentGame: string
    var temperatureTicks: int
    var nfcScanTicks: int

    /** The effects issued so far, oldest first. */
    var events: seq<Event>

    ghost predicate Valid()
      reads this, msc
    {
      msc.port != null
    }

    function Globals(): Globals
      reads this
    {
      DaemonSpec.Globals(validCartridge, gameRunning, emulatorPath, romPath,
                         currentConsole, currentGame, temperatureTicks, nfcScanTicks)
    }

    function World(): World
      requires Valid()
      reads this, msc, msc.port
    {
      DaemonSpec.World(Globals(), msc.port.State(), events)
    }

    /** The globals as the module initialises them. */
    constructor (msc: Controller)
      requires msc.port != null
      ensures this.msc == msc && Valid()
      ensures Globals() == InitialGlobals && events == []
    {
      this.msc := msc;
      validCartridge := false;
      gameRunning := false;
      emulatorPath := "";
      romPath := "";
      currentConsole := "NONE";
      currentGame := "NONE";
      temperatureTicks := 0;
      nfcScanTicks := 0;
      events := [];
    }

    method IsValidConsole(console: string) returns (ok: bool)
      requires Valid()
      modifies this
      ensures Checked(World(), ok) == DaemonSpec.IsValidConsole(old(World()), console)
    {
      ok := CheckConsole(Lower(Strip(console)));
    }

    method CheckConsole(c: string) returns (ok: bool)
      requires Valid()
      modifies this
      ensures Checked(World(), ok) == DaemonSpec.CheckConsole(old(World()), c)
    {
      if c in Emulators {
        currentConsole := c;
        ok := true;
      } else {
        currentConsole := "NONE";
        ok := false;
      }
    }

    method IsValidGame(console: string, game: string, env: Env) returns (ok: bool)
      requires Valid()
      modifies this
      ensures Checked(World(), ok) == DaemonSpec.IsValidGame(old(World()), console, game, env)
    {
      if GamePath(console, game) in env.romFiles {
        currentGame := game;
        return true;
      }
      currentGame := "NONE";
      return false;
    }

    method CheckNames(console: string, game: string, env: Env) returns (ok: bool)
      requires Valid()
      modifies this
      ensures Checked(World(), ok) == DaemonSpec.CheckNames(old(World()), console, game, env)
    {
      ok := IsValidConsole(console);
      if ok {
        ok := IsValidGame(console, game, env);
      }
    }

    method RecordCartridge(console: string, game: string, valid: bool) returns (ok: bool)
      requires Valid()
      modifies this
      ensures Checked(World(), ok) == DaemonSpec.RecordCartridge(old(World()), console, game, valid)
    {
      if valid {
        emulatorPath := EmulatorPath(console);
        romPath := GamePath(console, game);
        validCartridge := true;
      } else {
        emulatorPath := "";
        romPath := "";
        validCartridge := false;
      }
      ok := valid;
    }

    method ValidateCartridge(console: string, game: string, env: Env) returns (ok: bool)
      requires Valid()
      modifies this
      ensures Checked(World(), ok) == DaemonSpec.ValidateCartridge(old(World()), console, game, env)
    {
      ok := CheckNames(console, game, env);
      ok := RecordCartridge(console, game, ok);
    }

    method ScanCartridge(env: Env) returns (outcome: Outcome)
      requires Valid()
      modifies this, msc.port
      ensures Step(World(), outcome) == DaemonSpec.ScanCartridge(old(World()), env)
    {
      if nfcScanTicks > 0 {
        nfcScanTicks := nfcScanTicks - 1;
        return Completed;
      }
      var r := msc.ReadCart();
      if r.Err? {
        return Raised(r.error);
      }
      var _ := ValidateCartridge(r.value.console, r.value.game, env);
      return Completed;
    }

    method TaskScanCartridge(env: Env) returns (outcome: Outcome)
      requires Valid()
      modifies this, msc.port
      ensures Step(World(), outcome) == DaemonSpec.TaskScanCartridge(old(World()), env)
    {
      if nfcScanTicks > 0 {
        nfcScanTicks := nfcScanTicks - 1;
        return Completed;
      }
      ghost var spec := DaemonSpec.TaskScanCartridge(World(), env);
      outcome := ScanCartridge(env);
      ghost var s := Step(World(), outcome);
      if outcome.Raised? {
        return;
      }
      nfcScanTicks := ScanPeriod;
      assert spec == Step(s.world.(g := s.world.g.(nfcScanTicks := ScanPeriod)), Completed);
    }

    method StartGame() returns (ok: bool)
      requires Valid()
      modifies this
      ensures Checked(World(), ok) == DaemonSpec.StartGame(old(World()))
    {
      if validCartridge {
        events := events + [KillTasks(ProcessNames)];
        events := events + [Shell(emulatorPath + "\"" + romPath + "\" &")];
        events := events + [Shell(ShmChownCommand)];
        return true;
      }
      return false;
    }

    method EjectGame(env: Env)
      requires Valid()
      modifies this
      ensures World() == DaemonSpec.EjectGame(old(World()), env)
    {
      if !env.emulationStationRunning {
        events := events + [KillTasks(ProcessNames)];
        events := events + [Shell(StartEsCommand)];
      }
    }

    method PowerPressed(env: Env) returns (outcome: Outcome)
      requires Valid()
      modifies this, msc.port
      ensures Step(World(), outcome) == DaemonSpec.PowerPressed(old(World()), env)
    {
      if !gameRunning {
        outcome := ScanCartridge(env);
        if outcome.Raised? {
          return;
        }
        gameRunning := StartGame();
      } else {
        EjectGame(env);
        gameRunning := false;
        outcome := Completed;
      }
    }

    method CheckExitController(env: Env)
      requires Valid()
      modifies this
      ensures World() == DaemonSpec.CheckExitController(old(World()), env)
    {
      if gameRunning {
        if !env.retroarchRunning {
          gameRunning := false;
          events := events + [Shell(StartEsCommand)];
        }
      }
    }

    method UpdateCpuTemperature(env: Env) returns (outcome: Outcome)
      requires Valid()
      modifies this, msc.port
      ensures Step(World(), outcome) == DaemonSpec.UpdateCpuTemperature(old(World()), env)
    {
      if temperatureTicks > 0 {
        temperatureTicks := temperatureTicks - 1;
        return Completed;
      }
      if env.cpuTemperature.Err? {
        return Raised(env.cpuTemperature.error);
      }
      msc.WriteCpuTemperature(env.cpuTemperature.value);
      temperatureTicks := TemperaturePeriod;
      return Completed;
    }

    method UpdateCartridge(env: Env)
      requires Valid()
      modifies this, msc.port
      ensures World() == DaemonSpec.UpdateCartridge(old(World()), env)
    {
      events := events + [Shell(ChownCommand + PathJoin(ScriptBase, RomDetails))];
      if env.romDetailsLine.None? {
        // the file cannot be opened
        msc.NotifyLed(false);
        return;
      }
      var results := LastTwo(Split(Strip(env.romDetailsLine.value), '/'));
      if |results| < 2 {
        // `results[1]` raises
        msc.NotifyLed(false);
        return;
      }
      var success := msc.WriteCart(results[0], results[1]);
      if success.Err? {
        msc.NotifyLed(false);
        return;
      }
      msc.NotifyLed(success.value != 0);
    }

    /** The 'R' branch of `parse_line`. */
    method ParseReset(buf: string, env: Env) returns (outcome: Outcome)
      requires Valid() && |buf| > 0 && buf[0] == Reset.id
      modifies this, msc.port
      ensures Step(World(), outcome) == DispatchReset(old(World()), buf, env)
    {
      var subcommands := msc.GetSubcommands(buf[0]);
      if |buf| < 2 {
        return Raised(IndexError);
      }
      if buf[1] in subcommands {
        DispatchedSubcommands();
        msc.SendAck();
        if buf[1] == subcommands[0] {
          events := events + [Retroarch(RetroarchReset)];
        } else if buf[1] == subcommands[1] {
          UpdateCartridge(env);
        }
      }
      return Completed;
    }

    /** The 'P' branch of `parse_line`. */
    method ParsePower(buf: string, env: Env) returns (outcome: Outcome)
      requires Valid() && |buf| > 0 && buf[0] == Power.id
      modifies this, msc.port
      ensures Step(World(), outcome) == DispatchPower(old(World()), buf, env)
    {
      var subcommands := msc.GetSubcommands(buf[0]);
      if |buf| < 2 {
        return Raised(IndexError);
      }
      outcome := Completed;
      if buf[1] in subcommands {
        DispatchedSubcommands();
        msc.SendAck();
        if buf[1] == subcommands[0] {
          outcome := PowerPressed(env);
        } else if buf[1] == subcommands[1] {
          events := events + [Shell(PowerDownCommand)];
        }
      }
    }

    /** The 'C' branch of `parse_line`. */
    method ParseCartridge(buf: string) returns (outcome: Outcome)
      requires Valid() && |buf| > 0 && buf[0] == Cartridge.id
      modifies msc.port
      ensures Step(World(), outcome) == DispatchCartridge(old(World()), buf)
    {
      var subcommands := msc.GetSubcommands(buf[0]);
      if |buf| < 2 {
        return Raised(IndexError);
      }
      outcome := Completed;
      if buf[1] in subcommands {
        DispatchedSubcommands();
        if buf[1] == subcommands[0] {
          outcome := CartridgeRead();
        } else if buf[1] == subcommands[1] {
          // `write_cart` is called with one argument
          outcome := Raised(TypeError);
        } else if buf[1] == subcommands[2] {
          outcome := CartridgeErase();
        }
      }
    }

    method CartridgeRead() returns (outcome: Outcome)
      requires Valid()
      modifies msc.port
      ensures Step(World(), outcome) == DaemonSpec.CartridgeRead(old(World()))
    {
      var r := msc.ReadCart();
      outcome := if r.Err? then Raised(r.error) else Completed;
    }

    method CartridgeErase() returns (outcome: Outcome)
      requires Valid()
      modifies msc.port
      ensures Step(World(), outcome) == DaemonSpec.CartridgeErase(old(World()))
    {
      var status := msc.EraseCart();
      outcome := if status.Err? then Raised(status.error) else Completed;
    }

    /** `parse_line(buf)`. */
    method ParseLine(buf: string, env: Env) returns (outcome: Outcome)
      requires Valid()
      modifies this, msc.port
      ensures Step(World(), outcome) == Dispatch(old(World()), buf, env)
    {
      if |buf| == 0 {
        return Raised(IndexError);
      }
      var ids := msc.GetAllCommands();
      if buf[0] !in ids {
        return Completed;
      }
      ghost var w0 := World();
      RoutedFrame(w0, buf, env);
      if buf[0] == Reset.id {
        outcome := ParseReset(buf, env);
      } else if buf[0] == Shutdown.id {
        msc.SendAck();
        events := events + [Shell(PowerDownCommand)];
        outcome := Completed;
        assert Dispatch(w0, buf, env) == Step(Emit(Acked(w0), Shell(PowerDownCommand)), Completed);
      } else if buf[0] == Power.id {
        outcome := ParsePower(buf, env);
      } else if buf[0] == Cartridge.id {
        outcome := ParseCartridge(buf);
      } else {
        outcome := Completed;
      }
    }

    /** One pass of the main loop after `arrival` has come in: read what
        waits, then finish the pass on the longer line. */
    method MainPass(line: string, arrival: seq<char>, env: Env) returns (newLine: string)
      requires Valid()
      modifies this, msc.port
      ensures Pass(World(), newLine) == DaemonSpec.MainPass(old(World()), line, arrival, env)
    {
      ghost var w0 := World();
      msc.port.Receive(arrival);
      ghost var l0 := msc.port.State();
      var waiting := msc.port.InWaiting();
      if waiting > 0 {
        var data := msc.port.Read(waiting);
        assert data == l0.input;
        assert World() == w0.(link := l0.(input := []));
        newLine := LineTask(line + data, env);
      } else {
        newLine := line;
        var _ := UpdateCpuTemperature(env);
      }
    }

    /** Dispatch a complete line, then run the temperature task. An
        exception ends the pass early and is caught by the loop. */
    method LineTask(line: string, env: Env) returns (newLine: string)
      requires Valid()
      modifies this, msc.port
      ensures Pass(World(), newLine) == DaemonSpec.LineTask(old(World()), line, env)
    {
      newLine := line;
      if CR in line {
        var outcome := ParseLine(Strip(line), env);
        if outcome.Raised? {
          return;
        }
        msc.Flush();
        newLine := "";
      }
      var _ := UpdateCpuTemperature(env);
    }

    /** The main loop over a run of passes, starting with an empty line. */
    method Serve(moments: seq<Moment>) returns (line: string)
      requires Valid()
      modifies this, msc.port
      ensures Pass(World(), line) == Passes(old(World()), [], moments)
    {
      line := [];
      for i := 0 to |moments|
        invariant Passes(old(World()), [], moments) == Passes(World(), line, moments[i..])
      {
        assert moments[i..][1..] == moments[i + 1..];
        line := MainPass(line, moments[i].arrival, moments[i].env);
      }
    }
  }
}
