/** The host daemon (`py_msc`) as functions on a `World`: the module globals,
    the serial link, and the log of effects on the operating system. Each
    function follows one routine of the daemon, branch for branch; an
    exception it raises is an `Outcome`, with the state changes made before
    it kept. What the daemon asks of the system (does a file exist, is a
    process running, the CPU temperature, the ROM-details file) is an `Env`. */
module DaemonSpec {
  import opened PyBuiltins
  import opened Registry
  import opened Retropie
  import opened Wire

  const ScriptBase: string := "/home/pi/minismartcontroller/pyMiniSmartController"
  const RomDetails: string := "romdetails.txt"

  /** Loop iterations between CPU-temperature samples: 60 / 0.1. */
  const TemperaturePeriod: int := 600
  /** Loop iterations between cartridge scans: 5 / 0.1. */
  const ScanPeriod: int := 50

  const PowerDownCommand: string := "sudo shutdown -h now"
  const StartEsCommand: string := "emulationstation &"
  const ShmChownCommand: string := "sudo chown pi -R /dev/shm"
  const ChownCommand: string := "sudo chown pi -R "
  const RetroarchReset: string := "RESET"

  /** An effect on the system: a shell command, a datagram to RetroArch's
      command port, or a kill of every process with one of the names. */
  datatype Event = Shell(command: string) | Retroarch(command: string) | KillTasks(names: seq<string>)

  /** The module globals. */
  datatype Globals = Globals(
    validCartridge: bool,
    gameRunning: bool,
    emulatorPath: string,
    romPath: string,
    currentConsole: string,
    currentGame: string,
    temperatureTicks: int,
    nfcScanTicks: int)

  const InitialGlobals: Globals := Globals(false, false, "", "", "NONE", "NONE", 0, 0)

  datatype World = World(g: Globals, link: Link, events: seq<Event>)

  /** What the daemon learns from the system: the ROM files that exist,
      whether the front end and RetroArch run, the CPU temperature as
      `int(float(...))` gives it (or the error it raises), and the first line
      of the ROM-details file (`None` when it cannot be opened). */
  datatype Env = Env(
    romFiles: set<string>,
    emulationStationRunning: bool,
    retroarchRunning: bool,
    cpuTemperature: Result<int>,
    romDetailsLine: Option<string>)

  datatype Outcome = Completed | Raised(error: PyError)

  /** The world after a routine, and whether it returned or raised. */
  datatype Step = Step(world: World, outcome: Outcome)

  /** The world after a routine that returns a boolean. */
  datatype Checked = Checked(world: World, ok: bool)

  function Emit(w: World, e: Event): World { w.(events := w.events + [e]) }

  /** `get_emulator_path(console)`. */
  function EmulatorPath(console: string): string {
    EmulatorBase + console + " "
  }

  /** `get_game_path(console, game)`: `os.path.join(ROM_BASE, console, game)`. */
  function GamePath(console: string, game: string): string {
    PathJoin(PathJoin(RomBase, console), game)
  }

  /** `is_valid_console`: the stripped, lower-cased name must be allow-listed;
      it becomes `current_console`, else "NONE" does. */
  function IsValidConsole(w: World, console: string): Checked {
    CheckConsole(w, Lower(Strip(console)))
  }

  /** The allow-list check on the normalised name. */
  function CheckConsole(w: World, c: string): Checked {
    if c in Emulators then Checked(w.(g := w.g.(currentConsole := c)), true)
    else Checked(w.(g := w.g.(currentConsole := "NONE")), false)
  }

  /** `is_valid_game`: the ROM file must exist; the game becomes `current_game`, else "NONE" does. */
  function IsValidGame(w: World, console: string, game: string, env: Env): Checked {
    if GamePath(console, game) in env.romFiles then Checked(w.(g := w.g.(currentGame := game)), true)
    else Checked(w.(g := w.g.(currentGame := "NONE")), false)
  }

  /** The checks of `validate_cartridge`: the game is checked only when the console passes. */
  function CheckNames(w: World, console: string, game: string, env: Env): Checked {
    var c := IsValidConsole(w, console);
    if c.ok then IsValidGame(c.world, console, game, env) else c
  }

  /** What `validate_cartridge` records after its checks: the paths of a
      valid cartridge, or empty paths. */
  function RecordCartridge(w: World, console: string, game: string, ok: bool): Checked {
    if ok then
      Checked(w.(g := w.g.(
        emulatorPath := EmulatorPath(console), romPath := GamePath(console, game), validCartridge := true)), true)
    else
      Checked(w.(g := w.g.(emulatorPath := "", romPath := "", validCartridge := false)), false)
  }

  /** `validate_cartridge`. */
  function ValidateCartridge(w: World, console: string, game: string, env: Env): Checked {
    var v := CheckNames(w, console, game, env);
    RecordCartridge(v.world, console, game, v.ok)
  }

  /** The `read_cart` exchange. */
  function CartRead(l: Link): Reply {
    Exchange(l, [Cartridge.id, Cartridge.subcommands[0]])
  }

  /** `scan_cartridge`: skips while its counter runs, else reads the cartridge
      (which raises on a response without a comma) and validates it. */
  function ScanCartridge(w: World, env: Env): Step {
    if w.g.nfcScanTicks > 0 then Step(w.(g := w.g.(nfcScanTicks := w.g.nfcScanTicks - 1)), Completed)
    else
      var x := CartRead(w.link);
      var w1 := w.(link := x.link);
      match ParseCartResponse(x.response)
      case Err(e) => Step(w1, Raised(e))
      case Ok(names) => Step(ValidateCartridge(w1, names.console, names.game, env).world, Completed)
  }

  /** `task_scan_cartridge`: the periodic scan; a raise leaves the counter at zero. */
  function TaskScanCartridge(w: World, env: Env): Step {
    if w.g.nfcScanTicks > 0 then Step(w.(g := w.g.(nfcScanTicks := w.g.nfcScanTicks - 1)), Completed)
    else
      var s := ScanCartridge(w, env);
      if s.outcome.Raised? then s
      else Step(s.world.(g := s.world.g.(nfcScanTicks := ScanPeriod)), Completed)
  }

  /** The command that launches the validated game. */
  function LaunchCommand(g: Globals): string {
    g.emulatorPath + "\"" + g.romPath + "\" &"
  }

  /** `start_game`: with a valid cartridge, kill the running emulators and
      front end, launch, and hand `/dev/shm` back to the user. */
  function StartGame(w: World): Checked {
    if w.g.validCartridge then
      Checked(w.(events := w.events + [KillTasks(ProcessNames), Shell(LaunchCommand(w.g)), Shell(ShmChownCommand)]), true)
    else Checked(w, false)
  }

  /** `eject_game`: nothing while the front end runs, else kill and restart it. */
  function EjectGame(w: World, env: Env): World {
    if env.emulationStationRunning then w
    else w.(events := w.events + [KillTasks(ProcessNames), Shell(StartEsCommand)])
  }

  /** `power_pressed`: start a game when none runs, eject it otherwise. */
  function PowerPressed(w: World, env: Env): Step {
    if !w.g.gameRunning then
      var s := ScanCartridge(w, env);
      if s.outcome.Raised? then s
      else
        var st := StartGame(s.world);
        Step(st.world.(g := st.world.g.(gameRunning := st.ok)), Completed)
    else
      var e := EjectGame(w, env);
      Step(e.(g := e.g.(gameRunning := false)), Completed)
  }

  /** `check_exit_controller`: a game whose emulator is gone was quit from the
      gamepad; restart the front end. */
  function CheckExitController(w: World, env: Env): World {
    if w.g.gameRunning && !env.retroarchRunning then
      w.(g := w.g.(gameRunning := false), events := w.events + [Shell(StartEsCommand)])
    else w
  }

  /** A tick counter: counts down to zero, then is reset to the period. */
  function Countdown(ticks: int, period: int): int {
    if ticks > 0 then ticks - 1 else period
  }

  /** `update_cpu_temperature`: skips while its counter runs, else sends the
      reading and resets the counter; a failed reading raises first. */
  function UpdateCpuTemperature(w: World, env: Env): Step {
    if w.g.temperatureTicks > 0 then Step(w.(g := w.g.(temperatureTicks := w.g.temperatureTicks - 1)), Completed)
    else match env.cpuTemperature
      case Err(e) => Step(w, Raised(e))
      case Ok(t) =>
        Step(w.(link := Exchange(w.link, TemperatureCommand(t)).link,
                g := w.g.(temperatureTicks := TemperaturePeriod)), Completed)
  }

  /** `fields[-2:]`. */
  function LastTwo(fields: seq<string>): (r: seq<string>)
    ensures |r| == Min(|fields|, 2)
    ensures r == fields[|fields| - |r|..]
  {
    if |fields| >= 2 then fields[|fields| - 2..] else fields
  }

  /** Whether a cartridge-write status reply counts as success: the text
      after the two status characters reads as a nonzero number. */
  function StatusSuccess(response: string): bool {
    match ParseInt(Drop(response, 2))
    case Err(_) => false
    case Ok(status) => status != 0
  }

  function NotifyLed(w: World, success: bool): World {
    w.(link := Exchange(w.link, NotifyCommand(success)).link)
  }

  /** `update_cartridge`: writes the last console and game the front end
      played (the last two path components of the ROM-details line) to the
      cartridge and shows the result; every failure shows failure. */
  function UpdateCartridge(w: World, env: Env): World {
    var w1 := Emit(w, Shell(ChownCommand + PathJoin(ScriptBase, RomDetails)));
    match env.romDetailsLine
    case None => NotifyLed(w1, false)
    case Some(line) =>
      var results := LastTwo(Split(Strip(line), '/'));
      if |results| < 2 then NotifyLed(w1, false)
      else
        var x := Exchange(w1.link, CartWriteCommand(results[0], results[1]));
        var w2 := w1.(link := x.link);
        NotifyLed(w2, StatusSuccess(x.response))
  }

  /** The acknowledgement `ack` sends. */
  function Acked(w: World): World {
    w.(link := Send(w.link, Ack))
  }

  /** `parse_line` on an 'R' frame. */
  function DispatchReset(w: World, buf: string, env: Env): Step
    requires |buf| > 0
  {
    var subcommands := Subcommands(buf[0]);
    if |buf| < 2 then Step(w, Raised(IndexError))
    else if buf[1] !in subcommands then Step(w, Completed)
    else if buf[1] == subcommands[0] then Step(Emit(Acked(w), Retroarch(RetroarchReset)), Completed)
    else if buf[1] == subcommands[1] then Step(UpdateCartridge(Acked(w), env), Completed)
    else Step(Acked(w), Completed)
  }

  /** `parse_line` on a 'P' frame. */
  function DispatchPower(w: World, buf: string, env: Env): Step
    requires |buf| > 0
  {
    var subcommands := Subcommands(buf[0]);
    if |buf| < 2 then Step(w, Raised(IndexError))
    else if buf[1] !in subcommands then Step(w, Completed)
    else if buf[1] == subcommands[0] then PowerPressed(Acked(w), env)
    else if buf[1] == subcommands[1] then Step(Emit(Acked(w), Shell(PowerDownCommand)), Completed)
    else Step(Acked(w), Completed)
  }

  /** `parse_line` on a 'C' frame: read or erase without acknowledging; the
      write branch calls `write_cart` with one argument and raises `TypeError`
      before any I/O; the status sub-command has no branch. */
  function DispatchCartridge(w: World, buf: string): Step
    requires |buf| > 0
  {
    var subcommands := Subcommands(buf[0]);
    if |buf| < 2 then Step(w, Raised(IndexError))
    else if buf[1] !in subcommands then Step(w, Completed)
    else if buf[1] == subcommands[0] then CartridgeRead(w)
    else if buf[1] == subcommands[1] then Step(w, Raised(TypeError))
    else if buf[1] == subcommands[2] then CartridgeErase(w)
    else Step(w, Completed)
  }

  /** The read branch of a 'C' frame: `read_cart()`, whose names are only logged. */
  function CartridgeRead(w: World): Step {
    var x := CartRead(w.link);
    match ParseCartResponse(x.response)
    case Err(e) => Step(w.(link := x.link), Raised(e))
    case Ok(_) => Step(w.(link := x.link), Completed)
  }

  /** The erase branch of a 'C' frame: `erase_cart()`, whose status is only logged. */
  function CartridgeErase(w: World): Step {
    var x := Exchange(w.link, [Cartridge.id, Cartridge.subcommands[2]]);
    match ParseInt(Drop(x.response, 2))
    case Err(e) => Step(w.(link := x.link), Raised(e))
    case Ok(_) => Step(w.(link := x.link), Completed)
  }

  /** `parse_line(buf)`. */
  function Dispatch(w: World, buf: string, env: Env): Step {
    if |buf| == 0 then Step(w, Raised(IndexError))
    else if buf[0] !in Ids(MscCmds) then Step(w, Completed)
    else if buf[0] == Reset.id then DispatchReset(w, buf, env)
    else if buf[0] == Shutdown.id then Step(Emit(Acked(w), Shell(PowerDownCommand)), Completed)
    else if buf[0] == Power.id then DispatchPower(w, buf, env)
    else if buf[0] == Cartridge.id then DispatchCartridge(w, buf)
    else Step(w, Completed)
  }

  /** The world and the accumulated line after one pass of the main loop. */
  datatype Pass = Pass(world: World, line: string)

  /** The temperature task at the end of a pass; its exception is caught. */
  function TemperatureTask(w: World, env: Env): World {
    UpdateCpuTemperature(w, env).world
  }

  /** One pass of the main loop, after `arrival` has come in on the serial
      port: with nothing waiting only the temperature task runs; otherwise
      whatever waits is read and appended to `line`. */
  function MainPass(w: World, line: string, arrival: seq<char>, env: Env): Pass {
    var l0 := w.link.(input := w.link.input + arrival);
    if |l0.input| == 0 then Pass(TemperatureTask(w.(link := l0), env), line)
    else LineTask(w.(link := l0.(input := [])), line + l0.input, env)
  }

  /** The rest of a pass once the waiting characters are appended to `line`:
      once `line` holds a CR, dispatch `line.strip()`, flush the receive
      buffer and clear `line`; then the temperature task. An exception skips
      the rest of the pass and is caught, so the line is kept and the
      temperature task does not run. */
  function LineTask(w: World, line: string, env: Env): Pass {
    if CR !in line then Pass(TemperatureTask(w, env), line)
    else
      var d := Dispatch(w, Strip(line), env);
      if d.outcome.Raised? then Pass(d.world, line)
      else Pass(TemperatureTask(d.world.(link := d.world.link.(input := [])), env), "")
  }

  // ---------------------------------------------------------------------
  // Dispatcher

  /** A frame whose first character is no registered id changes nothing. */
  lemma UnknownIdIsNoOp(w: World, buf: string, env: Env)
    requires |buf| > 0 && buf[0] !in KnownIds
    ensures Dispatch(w, buf, env) == Step(w, Completed)
  {
    MscCmdsIds();
  }

  /** The frame dispatched on a registered id with sub-commands, and the
      sub-commands it is checked against. */
  lemma RoutedFrame(w: World, buf: string, env: Env)
    requires |buf| > 0
    ensures buf[0] == 'R' ==> Dispatch(w, buf, env) == DispatchReset(w, buf, env)
    ensures buf[0] == 'P' ==> Dispatch(w, buf, env) == DispatchPower(w, buf, env)
    ensures buf[0] == 'C' ==> Dispatch(w, buf, env) == DispatchCartridge(w, buf)
    ensures buf[0] == 'R' || buf[0] == 'P' ==> Subcommands(buf[0]) == ['0', '1']
    ensures buf[0] == 'C' ==> Subcommands(buf[0]) == ['r', 'w', 'e', 's']
  {
    MscCmdsIds();
    DispatchedSubcommands();
  }

  lemma ResetFrameR0(w: World, buf: string, env: Env)
    requires |buf| >= 2 && buf[0] == 'R' && buf[1] == '0'
    ensures Dispatch(w, buf, env) == Step(Emit(Acked(w), Retroarch(RetroarchReset)), Completed)
  {
    RoutedFrame(w, buf, env);
  }

  lemma ResetFrameR1(w: World, buf: string, env: Env)
    requires |buf| >= 2 && buf[0] == 'R' && buf[1] == '1'
    ensures Dispatch(w, buf, env) == Step(UpdateCartridge(Acked(w), env), Completed)
  {
    RoutedFrame(w, buf, env);
  }

  /** An 'R' or 'P' frame of one character raises at `buf[1]`; with a second
      character that is no sub-command it does nothing. */
  lemma UnacceptedFrame(w: World, buf: string, env: Env)
    requires |buf| > 0 && (buf[0] == 'R' || buf[0] == 'P')
    ensures |buf| == 1 ==> Dispatch(w, buf, env) == Step(w, Raised(IndexError))
    ensures |buf| >= 2 && buf[1] != '0' && buf[1] != '1' ==> Dispatch(w, buf, env) == Step(w, Completed)
  {
    RoutedFrame(w, buf, env);
  }

  /** `ack` writes "OK" and CR and nothing else. */
  lemma AckedWritesOk(w: World)
    ensures Acked(w).link.output == w.link.output + "OK" + [CR]
    ensures Acked(w).g == w.g && Acked(w).events == w.events
  {
  }

  /** An 'R' frame with an allowed sub-command sends exactly one
      acknowledgement before anything else: "R0" then sends RetroArch its
      reset, "R1" updates the cartridge. Any other second character changes
      nothing, and a frame of one character raises before any effect. */
  lemma ResetFrame(w: World, buf: string, env: Env)
    requires |buf| > 0 && buf[0] == 'R'
    ensures |buf| == 1 ==> Dispatch(w, buf, env) == Step(w, Raised(IndexError))
    ensures |buf| >= 2 && buf[1] == '0' ==>
      Dispatch(w, buf, env) == Step(Emit(Acked(w), Retroarch(RetroarchReset)), Completed)
    ensures |buf| >= 2 && buf[1] == '1' ==>
      Dispatch(w, buf, env) == Step(UpdateCartridge(Acked(w), env), Completed)
    ensures |buf| >= 2 && buf[1] != '0' && buf[1] != '1' ==> Dispatch(w, buf, env) == Step(w, Completed)
    ensures Acked(w).link.output == w.link.output + "OK" + [CR] && Acked(w).g == w.g
  {
    UnacceptedFrame(w, buf, env);
    AckedWritesOk(w);
    if |buf| >= 2 && buf[1] == '0' {
      ResetFrameR0(w, buf, env);
    } else if |buf| >= 2 && buf[1] == '1' {
      ResetFrameR1(w, buf, env);
    }
  }

  lemma PowerFrameP0(w: World, buf: string, env: Env)
    requires |buf| >= 2 && buf[0] == 'P' && buf[1] == '0'
    ensures Dispatch(w, buf, env) == PowerPressed(Acked(w), env)
  {
    RoutedFrame(w, buf, env);
  }

  lemma PowerFrameP1(w: World, buf: string, env: Env)
    requires |buf| >= 2 && buf[0] == 'P' && buf[1] == '1'
    ensures Dispatch(w, buf, env) == Step(Emit(Acked(w), Shell(PowerDownCommand)), Completed)
  {
    RoutedFrame(w, buf, env);
  }

  /** A 'P' frame: the same acknowledgement discipline; "P0" is a press of the
      power button, "P1" shuts the system down. */
  lemma PowerFrame(w: World, buf: string, env: Env)
    requires |buf| > 0 && buf[0] == 'P'
    ensures |buf| == 1 ==> Dispatch(w, buf, env) == Step(w, Raised(IndexError))
    ensures |buf| >= 2 && buf[1] == '0' ==> Dispatch(w, buf, env) == PowerPressed(Acked(w), env)
    ensures |buf| >= 2 && buf[1] == '1' ==>
      Dispatch(w, buf, env) == Step(Emit(Acked(w), Shell(PowerDownCommand)), Completed)
    ensures |buf| >= 2 && buf[1] != '0' && buf[1] != '1' ==> Dispatch(w, buf, env) == Step(w, Completed)
  {
    UnacceptedFrame(w, buf, env);
    if |buf| >= 2 && buf[1] == '0' {
      PowerFrameP0(w, buf, env);
    } else if |buf| >= 2 && buf[1] == '1' {
      PowerFrameP1(w, buf, env);
    }
  }

  /** 'S' acknowledges and shuts down whatever follows it. */
  lemma ShutdownFrame(w: World, buf: string, env: Env)
    requires |buf| > 0 && buf[0] == 'S'
    ensures Dispatch(w, buf, env) ==
      Step(w.(link := Send(w.link, Ack), events := w.events + [Shell(PowerDownCommand)]), Completed)
  {
    MscCmdsIds();
  }

  /** "Cr" writes the read command and nothing else; it raises when the
      response holds no comma. */
  lemma CartridgeReadFrame(w: World, buf: string, env: Env)
    requires |buf| >= 2 && buf[0] == 'C' && buf[1] == 'r'
    ensures var s := Dispatch(w, buf, env);
      && s.world == w.(link := CartRead(w.link).link)
      && s.world.link.output == w.link.output + "Cr" + [CR]
      && (s.outcome.Raised? <==> ',' !in Drop(CartRead(w.link).response, 2))
  {
    RoutedFrame(w, buf, env);
  }

  /** "Ce" writes the erase command and nothing else; it raises when the
      status is no integer. */
  lemma CartridgeEraseFrame(w: World, buf: string, env: Env)
    requires |buf| >= 2 && buf[0] == 'C' && buf[1] == 'e'
    ensures var x := Exchange(w.link, "Ce");
      var s := Dispatch(w, buf, env);
      && s.world == w.(link := x.link)
      && s.world.link.output == w.link.output + "Ce" + [CR]
      && (s.outcome.Raised? <==> ParseInt(Drop(x.response, 2)).Err?)
  {
    RoutedFrame(w, buf, env);
  }

  /** "Cw" raises `TypeError` with nothing written; "Cs", any other second
      character, and a frame of one character change nothing. */
  lemma CartridgeInertFrame(w: World, buf: string, env: Env)
    requires |buf| > 0 && buf[0] == 'C'
    ensures |buf| == 1 ==> Dispatch(w, buf, env) == Step(w, Raised(IndexError))
    ensures |buf| >= 2 && buf[1] == 'w' ==> Dispatch(w, buf, env) == Step(w, Raised(TypeError))
    ensures |buf| >= 2 && buf[1] !in "re" && buf[1] != 'w' ==> Dispatch(w, buf, env) == Step(w, Completed)
  {
    RoutedFrame(w, buf, env);
  }

  /** A 'C' frame is never acknowledged and never touches the globals or the
      effect log: "Cr" and "Ce" write only their own command, "Cw" raises
      `TypeError` with nothing written, "Cs" does nothing. */
  lemma CartridgeFrame(w: World, buf: string, env: Env)
    requires |buf| > 0 && buf[0] == 'C'
    ensures var s := Dispatch(w, buf, env);
      && s.world.g == w.g && s.world.events == w.events
      && (s.world.link.output == w.link.output
          || s.world.link.output == w.link.output + "Cr" + [CR]
          || s.world.link.output == w.link.output + "Ce" + [CR])
    ensures |buf| >= 2 && buf[1] == 'w' ==> Dispatch(w, buf, env) == Step(w, Raised(TypeError))
    ensures |buf| >= 2 && buf[1] == 's' ==> Dispatch(w, buf, env) == Step(w, Completed)
  {
    CartridgeInertFrame(w, buf, env);
    if |buf| >= 2 && buf[1] == 'r' {
      CartridgeReadFrame(w, buf, env);
    } else if |buf| >= 2 && buf[1] == 'e' {
      CartridgeEraseFrame(w, buf, env);
    }
  }

  /** 'I', 'L', 'T', 'v' and 'V' are registered but have no branch. */
  lemma InertFrame(w: World, buf: string, env: Env)
    requires |buf| > 0 && buf[0] in {'I', 'L', 'T', 'v', 'V'}
    ensures Dispatch(w, buf, env) == Step(w, Completed)
  {
    MscCmdsIds();
  }

  // ---------------------------------------------------------------------
  // Validation

  /** A cartridge is valid exactly when its normalised console is
      allow-listed and its ROM exists; then both paths are built from the
      console name as given, otherwise both are empty. */
  lemma ValidateCartridgeIff(w: World, console: string, game: string, env: Env)
    ensures var v := ValidateCartridge(w, console, game, env);
      && (v.ok <==> Lower(Strip(console)) in Emulators && GamePath(console, game) in env.romFiles)
      && v.world.g.validCartridge == v.ok
      && (v.ok ==> v.world.g.emulatorPath == EmulatorBase + console + " " && v.world.g.romPath == GamePath(console, game))
      && (!v.ok ==> v.world.g.emulatorPath == "" && v.world.g.romPath == "")
      && v.world.link == w.link && v.world.events == w.events
      && v.world.g.gameRunning == w.g.gameRunning
  {
  }

  /** `current_console` is the normalised name or "NONE"; `current_game` is
      the game or "NONE" once the console passes, and is left alone when it
      does not. */
  lemma ValidateCartridgeNames(w: World, console: string, game: string, env: Env)
    ensures var v := ValidateCartridge(w, console, game, env);
      && (Lower(Strip(console)) in Emulators ==> v.world.g.currentConsole == Lower(Strip(console)))
      && (Lower(Strip(console)) !in Emulators ==> v.world.g.currentConsole == "NONE" && v.world.g.currentGame == w.g.currentGame)
      && (Lower(Strip(console)) in Emulators ==>
            v.world.g.currentGame == if GamePath(console, game) in env.romFiles then game else "NONE")
  {
  }

  /** "NES" passes the console check and becomes "nes". */
  lemma UpperCaseConsoleMatches(w: World)
    ensures IsValidConsole(w, "NES").ok
    ensures IsValidConsole(w, "NES").world.g.currentConsole == "nes"
  {
    StripUnchanged("NES");
    assert Lower("NES") == "nes";
    NesAllowListed();
  }

  /** " nes " passes the console check and becomes "nes". */
  lemma PaddedConsoleMatches(w: World)
    ensures IsValidConsole(w, " nes ").ok
    ensures IsValidConsole(w, " nes ").world.g.currentConsole == "nes"
  {
    assert " nes " == Spaces(1) + "nes" + Spaces(1);
    StripPadded("nes", 1, 1);
    assert Lower("nes") == "nes";
    NesAllowListed();
  }

  // ---------------------------------------------------------------------
  // Session

  /** Pressing power with no game running scans, then the game runs exactly
      when the cartridge is valid; if the scan raises, no game runs. */
  lemma PowerPressedStarts(w: World, env: Env)
    requires !w.g.gameRunning
    ensures var s := PowerPressed(w, env);
      && (s.outcome == Completed ==> s.world.g.gameRunning == s.world.g.validCartridge)
      && (s.outcome.Raised? ==> !s.world.g.gameRunning)
  {
    if w.g.nfcScanTicks <= 0 {
      PowerPressedScans(w, env);
    }
  }

  /** Pressing power with a game running ejects it and the game stops; the
      link is untouched, and nothing is killed while the front end runs. */
  lemma PowerPressedStops(w: World, env: Env)
    requires w.g.gameRunning
    ensures var s := PowerPressed(w, env);
      && s.outcome == Completed && !s.world.g.gameRunning && s.world.link == w.link
      && (env.emulationStationRunning ==> s.world.events == w.events)
      && (!env.emulationStationRunning ==> s.world.events == w.events + [KillTasks(ProcessNames), Shell(StartEsCommand)])
  {
  }

  /** A press with no game running and the scan counter at zero reads the
      cartridge first. A reply without a comma raises `IndexError` and starts
      nothing. Otherwise the names read are validated: the validation
      decides `valid_cartridge`, the game runs exactly when it passes, and a
      cartridge that fails launches nothing. */
  lemma PowerPressedScans(w: World, env: Env)
    requires !w.g.gameRunning && w.g.nfcScanTicks <= 0
    ensures var x := CartRead(w.link);
      var s := PowerPressed(w, env);
      && s.world.link == x.link
      && (ParseCartResponse(x.response).Err? ==>
            s.outcome == Raised(IndexError) && !s.world.g.gameRunning && s.world.events == w.events)
      && (ParseCartResponse(x.response).Ok? ==>
            var n := ParseCartResponse(x.response).value;
            var v := ValidateCartridge(w.(link := x.link), n.console, n.game, env);
            && s.outcome == Completed
            && s.world.g.validCartridge == v.ok
            && s.world.g.gameRunning == v.ok
            && (!v.ok ==> s.world.events == w.events))
  {
    var x := CartRead(w.link);
    match ParseCartResponse(x.response)
    case Err(e) =>
    case Ok(n) =>
      ValidateCartridgeIff(w.(link := x.link), n.console, n.game, env);
  }

  /** A press with no game running and the scan counter at zero, where the
      names the cartridge sends back pass validation, launches that game
      from the names just read: kill the emulators and the front end, start
      the emulator on the ROM path, hand `/dev/shm` back. */
  lemma PowerPressedLaunchesRead(w: World, env: Env, console: string, game: string)
    requires !w.g.gameRunning && w.g.nfcScanTicks <= 0
    requires ParseCartResponse(CartRead(w.link).response) == Ok(CartNames(console, game))
    requires ValidateCartridge(w.(link := CartRead(w.link).link), console, game, env).ok
    ensures var s := PowerPressed(w, env);
      && s.outcome == Completed && s.world.g.gameRunning && s.world.g.validCartridge
      && s.world.link == CartRead(w.link).link
      && s.world.events == w.events + [
           KillTasks(ProcessNames),
           Shell(EmulatorPath(console) + "\"" + GamePath(console, game) + "\" &"),
           Shell(ShmChownCommand)]
  {
    var w1 := w.(link := CartRead(w.link).link);
    var v := ValidateCartridge(w1, console, game, env);
    ValidateCartridgeIff(w1, console, game, env);
    assert ScanCartridge(w, env) == Step(v.world, Completed);
    assert LaunchCommand(v.world.g) == EmulatorPath(console) + "\"" + GamePath(console, game) + "\" &";
  }

  /** The ordinary press: no game running, the scan counter at zero, the
      cartridge answers with an allow-listed console and a game whose ROM
      exists; that game is launched as above. */
  lemma PowerPressedScansAndLaunches(w: World, env: Env, console: string, game: string)
    requires !w.g.gameRunning && w.g.nfcScanTicks <= 0
    requires ParseCartResponse(CartRead(w.link).response) == Ok(CartNames(console, game))
    requires Lower(Strip(console)) in Emulators && GamePath(console, game) in env.romFiles
    ensures var s := PowerPressed(w, env);
      && s.outcome == Completed && s.world.g.gameRunning && s.world.g.validCartridge
      && s.world.link == CartRead(w.link).link
      && s.world.events == w.events + [
           KillTasks(ProcessNames),
           Shell(EmulatorPath(console) + "\"" + GamePath(console, game) + "\" &"),
           Shell(ShmChownCommand)]
  {
    ValidateCartridgeIff(w.(link := CartRead(w.link).link), console, game, env);
    PowerPressedLaunchesRead(w, env, console, game);
  }

  /** A press with a valid cartridge already validated and the scan counter
      running launches that game. */
  lemma PowerPressedLaunches(w: World, env: Env)
    requires !w.g.gameRunning && w.g.validCartridge && w.g.nfcScanTicks > 0
    ensures var s := PowerPressed(w, env);
      && s.outcome == Completed && s.world.g.gameRunning
      && s.world.events == w.events + [KillTasks(ProcessNames), Shell(LaunchCommand(w.g)), Shell(ShmChownCommand)]
  {
  }

  /** The exit check clears `game_running` exactly when it was set and no
      RetroArch process is left, and then restarts the front end. */
  lemma CheckExitClears(w: World, env: Env)
    ensures var r := CheckExitController(w, env);
      && r.g.gameRunning == (w.g.gameRunning && env.retroarchRunning)
      && r.link == w.link
      && (r.g.gameRunning != w.g.gameRunning <==> r.events == w.events + [Shell(StartEsCommand)])
      && (r.g.gameRunning == w.g.gameRunning ==> r == w)
  {
  }

  // ---------------------------------------------------------------------
  // Tick counters

  /** The counter after `k` calls, starting from zero. */
  function TicksAfter(period: int, k: nat): int {
    if k == 0 then 0 else Countdown(TicksAfter(period, k - 1), period)
  }

  lemma {:induction false} MulAtLeast(c: nat, q: nat)
    requires c >= 1
    ensures c * q >= q
  {
    if c > 1 {
      MulAtLeast(c - 1, q);
      assert c * q == (c - 1) * q + q;
    }
  }

  /** Euclidean remainders are unique. */
  lemma ModUnique(a: int, x: int, r: int, q: int)
    requires q > 0 && 0 <= r < q && a == x * q + r
    ensures a % q == r
  {
    var y := a / q;
    assert (x - y) * q == a % q - r;
    if x > y {
      MulAtLeast(x - y, q);
    } else if x < y {
      MulAtLeast(y - x, q);
    }
  }

  lemma ModSucc(k: nat, q: nat)
    requires q > 0
    ensures (k + 1) % q == if k % q == q - 1 then 0 else k % q + 1
  {
    var d := k / q;
    if k % q == q - 1 {
      assert k + 1 == (d + 1) * q;
      ModUnique(k + 1, d + 1, 0, q);
    } else {
      ModUnique(k + 1, d, k % q + 1, q);
    }
  }

  /** Starting from zero, call `k` finds the counter at zero, and so does its
      work, exactly when `k` is a multiple of `period + 1`: the first call and
      then every `period + 1` calls; in between it counts down. */
  lemma {:induction false} CountdownSchedule(period: nat, k: nat)
    ensures TicksAfter(period, k) == if k % (period + 1) == 0 then 0 else period + 1 - k % (period + 1)
    ensures TicksAfter(period, k) <= 0 <==> k % (period + 1) == 0
  {
    if k > 0 {
      CountdownSchedule(period, k - 1);
      ModSucc(k - 1, period + 1);
    }
  }

  /** The temperature task moves its counter as `Countdown` with period 600,
      and writes to the link exactly when the counter was at zero. */
  lemma TemperatureTaskCounts(w: World, env: Env, t: int)
    requires env.cpuTemperature == Ok(t)
    ensures var s := UpdateCpuTemperature(w, env);
      && s.outcome == Completed
      && s.world.g.temperatureTicks == Countdown(w.g.temperatureTicks, TemperaturePeriod)
      && (w.g.temperatureTicks <= 0 ==> s.world.link.output == w.link.output + TemperatureCommand(t) + [CR])
      && (w.g.temperatureTicks > 0 ==> s.world.link == w.link)
      && s.world.g.(temperatureTicks := w.g.temperatureTicks) == w.g
  {
  }

  /** A failed reading raises with nothing changed, so the next call tries again. */
  lemma TemperatureTaskRetries(w: World, env: Env)
    requires w.g.temperatureTicks <= 0 && env.cpuTemperature.Err?
    ensures UpdateCpuTemperature(w, env) == Step(w, Raised(env.cpuTemperature.error))
  {
  }

  /** The scan task moves its counter as `Countdown` with period 50 when the
      scan completes; a scan that raises leaves the counter at zero. */
  lemma ScanTaskCounts(w: World, env: Env)
    ensures var s := TaskScanCartridge(w, env);
      && (s.outcome == Completed ==> s.world.g.nfcScanTicks == Countdown(w.g.nfcScanTicks, ScanPeriod))
      && (s.outcome.Raised? ==> w.g.nfcScanTicks <= 0 && s.world.g.nfcScanTicks == w.g.nfcScanTicks)
      && (w.g.nfcScanTicks > 0 ==> s.world.link == w.link)
  {
  }

  /** `scan_cartridge` on its own also skips and counts down while the
      counter runs, leaving the validation state as it was. */
  lemma ScanSkipsWhileCounting(w: World, env: Env)
    requires w.g.nfcScanTicks > 0
    ensures ScanCartridge(w, env) == Step(w.(g := w.g.(nfcScanTicks := w.g.nfcScanTicks - 1)), Completed)
    ensures ScanCartridge(w, env).world.g.validCartridge == w.g.validCartridge
  {
  }

  // ---------------------------------------------------------------------
  // Cartridge update

  /** Without a readable ROM-details line of at least two path components the
      update writes nothing to the cartridge and shows failure. */
  lemma UpdateCartridgeFails(w: World, env: Env)
    requires env.romDetailsLine.None? || |Split(Strip(env.romDetailsLine.value), '/')| < 2
    ensures UpdateCartridge(w, env).link.output == w.link.output + NotifyCommand(false) + [CR]
    ensures UpdateCartridge(w, env).events == w.events + [Shell(ChownCommand + PathJoin(ScriptBase, RomDetails))]
    ensures UpdateCartridge(w, env).g == w.g
  {
  }

  /** With two components, the update writes the console and game named by
      the last two and then shows success exactly when the status the
      cartridge sends back reads as a nonzero number; a status that does not
      read as a number raises `ValueError`, which is caught, and shows
      failure. */
  lemma UpdateCartridgeWrites(w: World, env: Env, console: string, game: string, status: string, after: seq<char>)
    requires env.romDetailsLine.Some?
    requires LastTwo(Split(Strip(env.romDetailsLine.value), '/')) == [console, game]
    requires |w.link.replies| > 0 && w.link.replies[0] == status + [CR] + after
    requires NoTerminator(status)
    ensures UpdateCartridge(w, env).link.output ==
      w.link.output + CartWriteCommand(console, game) + [CR] + NotifyCommand(StatusSuccess(status)) + [CR]
    ensures UpdateCartridge(w, env).events == w.events + [Shell(ChownCommand + PathJoin(ScriptBase, RomDetails))]
    ensures UpdateCartridge(w, env).g == w.g
  {
    ExchangeTerminated(w.link, CartWriteCommand(console, game), status, after);
  }

  // ---------------------------------------------------------------------
  // Main loop

  /** Until a CR arrives the pass only accumulates: the line grows by what
      waited on the port and nothing is dispatched. */
  lemma MainPassAccumulates(w: World, line: string, arrival: seq<char>, env: Env)
    requires CR !in line + w.link.input + arrival
    ensures var p := MainPass(w, line, arrival, env);
      && p.line == line + w.link.input + arrival
      && p.world == TemperatureTask(w.(link := w.link.(input := [])), env)
  {
    if |w.link.input + arrival| == 0 {
      assert line + w.link.input + arrival == line;
      assert w.link.(input := w.link.input + arrival) == w.link.(input := []);
    } else {
      assert line + (w.link.input + arrival) == line + w.link.input + arrival;
    }
  }

  /** A complete frame is dispatched stripped; if the dispatch completes the
      line is cleared and the receive buffer flushed, if it raises the line
      is kept whole and the pass ends there. */
  lemma MainPassDispatches(w: World, line: string, arrival: seq<char>, env: Env)
    requires CR in line + w.link.input + arrival
    requires |w.link.input + arrival| > 0
    ensures var line1 := line + w.link.input + arrival;
      var d := Dispatch(w.(link := w.link.(input := [])), Strip(line1), env);
      var p := MainPass(w, line, arrival, env);
      && (d.outcome == Completed ==>
            p.line == [] && p.world == TemperatureTask(d.world.(link := d.world.link.(input := [])), env))
      && (d.outcome.Raised? ==> p.line == line1 && p.world == d.world)
  {
    assert line + (w.link.input + arrival) == line + w.link.input + arrival;
  }

  /** With nothing waiting on the port the line is not looked at, even when
      it already holds a CR: only the temperature task runs. */
  lemma MainPassIdle(w: World, line: string, env: Env)
    requires |w.link.input| == 0
    ensures MainPass(w, line, [], env) == Pass(TemperatureTask(w, env), line)
  {
    assert w.link.(input := w.link.input + []) == w.link;
  }

  /** A line holding "Cw" at its head and a CR wedges the loop: every later
      pass in which characters arrive dispatches it again, it raises again,
      and the line only grows. */
  lemma CartWriteWedges(w: World, rest: string, arrival: seq<char>, env: Env)
    requires CR in rest && |w.link.input + arrival| > 0
    ensures var line := "Cw" + rest;
      var p := MainPass(w, line, arrival, env);
      && p.line == line + w.link.input + arrival
      && p.line[..2] == "Cw" && CR in p.line
      && p.world.g == w.g && p.world.events == w.events && p.world.link.output == w.link.output
  {
    var line := "Cw" + rest;
    var line1 := line + w.link.input + arrival;
    assert CR in line1 by {
      var i :| 0 <= i < |rest| && rest[i] == CR;
      assert line1[i + 2] == CR;
    }
    assert line1 == "Cw" + (rest + w.link.input + arrival);
    StripKeepsPrefix("Cw", rest + w.link.input + arrival);
    var buf := Strip(line1);
    assert buf[0] == 'C' && buf[1] == 'w';
    CartridgeFrame(w.(link := w.link.(input := [])), buf, env);
    MainPassDispatches(w, line, arrival, env);
  }

  /** A lone "P" frame raises at `buf[1]`, so it stays in the line, and the
      pass changes nothing but the emptied receive buffer. */
  lemma LonePowerFrameStays(w: World, env: Env)
    requires |w.link.input| == 0
    ensures var p := MainPass(w, [], "P" + [CR], env);
      p.line == "P" + [CR] && p.world == w
  {
    var line := "P" + [CR];
    assert [] + w.link.input + line == line;
    assert line[1] == CR;
    assert Strip(line) == "P" by {
      assert RStrip(line) == "P" by {
        assert line[..|line| - 1] == "P";
      }
    }
    PowerFrame(w, "P", env);
    MainPassDispatches(w, [], line, env);
  }

  /** What comes in on the serial port before a pass, and what the system
      answers during it. */
  datatype Moment = Moment(arrival: seq<char>, env: Env)

  /** The main loop over a run of passes. */
  function Passes(w: World, line: string, moments: seq<Moment>): Pass
    decreases |moments|
  {
    if |moments| == 0 then Pass(w, line)
    else
      var p := MainPass(w, line, moments[0].arrival, moments[0].env);
      Passes(p.world, p.line, moments[1..])
  }

  /** Once a "Cw" frame is in the line the daemon is deaf for good: through
      any run of passes in which characters arrive, the line keeps its head,
      no global changes, no effect is issued and nothing is written. */
  lemma {:induction false} CartWriteWedgesForever(w: World, rest: string, moments: seq<Moment>)
    requires CR in rest
    requires forall i :: 0 <= i < |moments| ==> |moments[i].arrival| > 0
    ensures var p := Passes(w, "Cw" + rest, moments);
      && |p.line| >= 2 && p.line[..2] == "Cw" && CR in p.line
      && p.world.g == w.g && p.world.events == w.events && p.world.link.output == w.link.output
    decreases |moments|
  {
    if |moments| > 0 {
      var m := moments[0];
      CartWriteWedges(w, rest, m.arrival, m.env);
      var p := MainPass(w, "Cw" + rest, m.arrival, m.env);
      var rest' := p.line[2..];
      assert p.line == "Cw" + rest';
      assert CR in rest' by {
        var i :| 0 <= i < |p.line| && p.line[i] == CR;
        assert i >= 2;
        assert rest'[i - 2] == CR;
      }
      assert forall i :: 0 <= i < |moments[1..]| ==> |moments[1..][i].arrival| > 0 by {
        forall i | 0 <= i < |moments[1..]|
          ensures |moments[1..][i].arrival| > 0
        {
          assert moments[1..][i] == moments[i + 1];
        }
      }
      CartWriteWedgesForever(p.world, rest', moments[1..]);
    } else {
      assert ("Cw" + rest)[..2] == "Cw";
      assert CR in "Cw" + rest by {
        var i :| 0 <= i < |rest| && rest[i] == CR;
        assert ("Cw" + rest)[i + 2] == CR;
      }
    }
  }
}
