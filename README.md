# MiniSmartController host daemon, modelled in Dafny

This project models `pyMiniSmartController`. That is the Raspberry Pi daemon that talks to the Mini Smart Controller over a serial line. It has three parts.

- **The wire protocol** (`mini_smart_controller.py`): the command table `MSC_CMDS`, and the `MiniSmartController` class. That class frames commands with CR and reads responses one character at a time until CR or BELL. It also runs the `init` hand-shake and builds and parses the cartridge, temperature and notify commands.
- **The daemon** (`py_msc.py`): the module globals (cartridge validity, running game, paths, tick counters). It also has the routines that change them:
  - `parse_line`, the dispatcher;
  - `power_pressed`, `start_game` and `eject_game`;
  - `scan_cartridge` and `validate_cartridge`;
  - `update_cartridge` and `update_cpu_temperature`;
  - the polling main loop.
- **The RetroPie definitions** (`retropie.py`): the console allow-list, the process names, and the base paths.

The files and their modules:

| file | module | contents |
|---|---|---|
| `py_builtins.dfy` | `PyBuiltins` | The Python 2 string and integer operations the source uses: `strip`, `rstrip`, `lower`, `ljust`, `split`, `join`, slicing, `int()`, `str()` and `os.path.join`, with their laws. |
| `retropie.dfy` | `Retropie` | The allow-list and process names. `NameList` is a shared, mutable Python list, so the `PROCESS_NAMES_EXTRA` alias and its appends are modelled as they happen. |
| `registry.dfy` | `Registry` | `MSC_CMDS` and the lookups `get_all_commands` and `get_subcommands` use. |
| `wire.dfy` | `Wire` | The serial port as a `SerialPort` object. It has a receive buffer, an output log, and the device's pending replies; each reply arrives right after a write. `Controller` models `MiniSmartController`. Pure functions (`Send`, `Exchange`, `ReadFrame`, `InitRounds`) specify what its methods do to the link. |
| `daemon_spec.dfy` | `DaemonSpec` | Each daemon routine as a function on a `World`. A `World` holds the globals, the link and a log of effects on the system: shell commands, RetroArch datagrams and process kills. An exception is an `Outcome`, and the state changes made before it are kept. The lemmas are stated here. |
| `daemon.dfy` | `Daemon` | `Session`: the globals as fields of one object, and each routine as a method that updates them in place. Each method is proved to produce exactly the `World` that its `DaemonSpec` function gives. |

The model follows the code as written, including:

- A cartridge (`C`) frame is never acknowledged (`py_msc.py:365-383`).
- `S` shuts down whatever its second character is (`py_msc.py:347-349`).
- The cartridge read in the dispatcher is only logged (`py_msc.py:369-372`).
- A failed console check leaves `current_game` alone, because `and` short-circuits (`py_msc.py:199`).
- The main loop dispatches `line.strip()`, which is the whole accumulated line, not just the text before the first CR (`py_msc.py:490-493`).
- When `parse_line` raises, the main loop keeps the line (`py_msc.py:493-495`, `508-509`).
- `transmit` discards the receive buffer only before the write (`mini_smart_controller.py:101-103`).
- `int()` skips whitespace after the sign, as Python 2 does, so a status of "- 1" reads as -1 (`mini_smart_controller.py:252`).

## Model

| member | source | states |
|---|---|---|
| PyBuiltins.RStrip | pyMiniSmartController/mini_smart_controller.py:236-237 | `rstrip()` removes exactly a suffix made of whitespace and leaves no trailing whitespace. |
| PyBuiltins.LStrip | pyMiniSmartController/py_msc.py:220 | `lstrip()` removes exactly a whitespace prefix, and the result does not start with whitespace. |
| PyBuiltins.Lower | pyMiniSmartController/py_msc.py:220 | `lower()` keeps the length and maps each character on its own, ASCII upper case to lower case. |
| PyBuiltins.Split | pyMiniSmartController/mini_smart_controller.py:236 | `split(sep)` gives at least one field, and no field holds the separator. Joining the fields gives back the input. There is one field exactly when the separator does not occur. |
| PyBuiltins.Drop | pyMiniSmartController/mini_smart_controller.py:252 | `s[k:]` has length `max(len(s) - k, 0)`, and it is what follows the first `k` characters. |
| PyBuiltins.SplitJoinPair | pyMiniSmartController/mini_smart_controller.py:248 | Joining two comma-free fields with a comma and splitting the result gives the two fields back. |
| PyBuiltins.LJustRStrip | pyMiniSmartController/mini_smart_controller.py:248 | `ljust` padding is undone by `rstrip` for a name with no trailing whitespace. |
| PyBuiltins.StripEnds | pyMiniSmartController/py_msc.py:220 | `Strip`, the model of `strip()`, never lengthens its input, and its result is empty or starts and ends with a non-space. |
| PyBuiltins.StripBlank | pyMiniSmartController/py_msc.py:220 | `strip()` gives the empty string exactly when every character is whitespace. |
| PyBuiltins.LJustPads | pyMiniSmartController/mini_smart_controller.py:248 | `LJust`, the model of `ljust(width)`, has length `max(len, width)`, keeps the name at its head and fills the rest with spaces; it never truncates. |
| PyBuiltins.JoinShape | pyMiniSmartController/mini_smart_controller.py:248 | `Join`, the model of `sep.join(parts)`, is empty for no parts, starts with the first part, puts the separator right after it when there are more, and ends with the last part. |
| PyBuiltins.IntToStrShape | pyMiniSmartController/mini_smart_controller.py:225 | `IntToStr`, the model of `str(n)`, starts with '-' exactly when `n` is negative, and the rest is decimal digits with no padding. |
| PyBuiltins.ParseIntShape | pyMiniSmartController/mini_smart_controller.py:252 | `ParseInt`, the model of `int(s)`, fails only with `ValueError`. A success means the stripped text is not empty and ends with a digit, and a negative value means it starts with '-'. |
| PyBuiltins.ParseBlank | pyMiniSmartController/mini_smart_controller.py:252 | `int()` of a blank or whitespace-only string raises `ValueError`. |
| PyBuiltins.ParseDigits | pyMiniSmartController/mini_smart_controller.py:252 | `int()` of digits surrounded only by whitespace is their decimal value. |
| PyBuiltins.ParseSigned | pyMiniSmartController/mini_smart_controller.py:252 | After a sign, `int()` skips whitespace and reads the digits, negated for '-'. |
| PyBuiltins.SignedWithSpaces | pyMiniSmartController/mini_smart_controller.py:252 | A sign, any number of spaces and the digits of `n` read as `n` or `-n`, so `int("- 1") == -1`. |
| PyBuiltins.NegativeRoundTrip | pyMiniSmartController/mini_smart_controller.py:225 | `int("-" + str(m)) == -m` for every natural `m`. |
| PyBuiltins.NatToStrRoundTrip | pyMiniSmartController/mini_smart_controller.py:225 | `int(str(n)) == n` for every natural `n`. |
| PyBuiltins.PathJoinShape | pyMiniSmartController/py_msc.py:261-270 | `PathJoin`, the model of `os.path.join(a, b)`, is `b` when `b` is absolute. Otherwise it starts with `a`, ends with `b`, and has a '/' right before `b` when `a` is not empty. |
| PyBuiltins.StripPadded | pyMiniSmartController/py_msc.py:220 | `strip()` removes any run of spaces around a name that starts and ends with a non-space. |
| PyBuiltins.IntToStrRoundTrip | pyMiniSmartController/mini_smart_controller.py:225 | `int(str(n)) == n` for every integer. |
| PyBuiltins.NatToStrValue | pyMiniSmartController/mini_smart_controller.py:225 | The decimal digits `str` writes for a natural number have that value. |
| Retropie.NameList.Append | pyMiniSmartController/retropie.py:36-37 | `append` extends the list in place by exactly one item. |
| Retropie.ImportProcessNames | pyMiniSmartController/retropie.py:27-37 | `PROCESS_NAMES_EXTRA` is the same list object as `PROCESS_NAMES`. Both names see the literal followed by the two front-end names. |
| Retropie.ProcessNamesAfterImport | pyMiniSmartController/retropie.py:27-37 | After import the process list has 56 names, ends with "emulationstation" and "emulationstatio", and contains "retroarch". |
| Retropie.EmulatorsAreNormal | pyMiniSmartController/retropie.py:20-25 | Every allow-list entry is unchanged by `strip().lower()`, so normalised console names can match it. |
| Retropie.RomPathIsConcatenation | pyMiniSmartController/py_msc.py:261-270 | `os.path.join(ROM_BASE, console, game)` is `ROM_BASE + console + "/" + game` when the console name is relative, not empty and not slash-terminated, and the game name is relative. |
| Retropie.NesAllowListed | pyMiniSmartController/retropie.py:20-25 | "nes" is on the allow-list. |
| Retropie.EmulatorBaseEndsWithSpace | pyMiniSmartController/retropie.py:41 | The launcher prefix ends in a space, so the console name is a separate argument. |
| Registry.Ids | pyMiniSmartController/mini_smart_controller.py:179-188 | The ids are the table's ids in table order, one per entry. |
| Registry.MscCmdsIds | pyMiniSmartController/mini_smart_controller.py:37-65 | The table's ids are C, I, L, R, P, S, T, v and V. They are pairwise distinct and are exactly the dispatcher's known ids. |
| Registry.Find | pyMiniSmartController/mini_smart_controller.py:190-201 | The lookup returns an entry with the requested id, and it returns nothing exactly when no entry has that id. |
| Registry.FindRegistered | pyMiniSmartController/mini_smart_controller.py:197-199 | With distinct ids, looking up an entry's id returns that same entry. |
| Registry.SubcommandsLookup | pyMiniSmartController/mini_smart_controller.py:190-201 | `Subcommands`, the model of `get_subcommands`, returns each entry's registered list, and `[]` for an id outside the table. |
| Registry.DispatchedSubcommands | pyMiniSmartController/py_msc.py:332-383 | The lists the dispatcher indexes into are `['0','1']` for R and P and `['r','w','e','s']` for C. |
| Wire.SerialPort.InWaiting | pyMiniSmartController/py_msc.py:488-489 | `inWaiting()` is the number of received characters not yet read. |
| Wire.SerialPort.Read | pyMiniSmartController/mini_smart_controller.py:130 | `read(n)` returns the first `min(n, waiting)` buffered characters, removes them, and touches nothing else. |
| Wire.SerialPort.FlushInput | pyMiniSmartController/mini_smart_controller.py:169-170 | `flushInput()` empties the receive buffer, and only that. |
| Wire.SerialPort.Write | pyMiniSmartController/mini_smart_controller.py:103 | `write` appends to the output, and the device's next reply arrives in the buffer. |
| Wire.SerialPort.Receive | pyMiniSmartController/py_msc.py:488-489 | Characters the device sends unasked are appended to the receive buffer. |
| Wire.ReadFrameShape | pyMiniSmartController/mini_smart_controller.py:119-143 | A response is the longest prefix of the buffer without CR or BELL. The terminator is consumed but not kept. The read fails exactly when the buffer holds neither character, and then it yields the whole buffer. |
| Wire.ReadFrameStep | pyMiniSmartController/mini_smart_controller.py:130-139 | One character read either ends the response at CR or BELL or is appended to it. |
| Wire.ReadFrameEnd | pyMiniSmartController/mini_smart_controller.py:141-143 | A failed read ends the response with what was collected. |
| Wire.ExchangeShape | pyMiniSmartController/mini_smart_controller.py:94-105 | `transmit_get_response` writes exactly the command and CR, and consumes one reply. Its response is a prefix of that reply with no terminator. It does not depend on stale input, because the buffer is flushed first. |
| Wire.ExchangeTerminated | pyMiniSmartController/mini_smart_controller.py:94-105 | A reply of the form text, CR, rest gives exactly that text and leaves the rest unread. |
| Wire.CartPayload | pyMiniSmartController/mini_smart_controller.py:248 | The payload is the console padded to 16, a comma, then the game padded to 96. The fields keep the names at their heads and never truncate. |
| Wire.CartPayloadLength | pyMiniSmartController/mini_smart_controller.py:74-75 | Names that fit their fields give a payload of 113 characters. |
| Wire.CartPayloadFields | pyMiniSmartController/mini_smart_controller.py:248 | The payload is the two padded fields around one comma. |
| Wire.CartPayloadRStrip | pyMiniSmartController/mini_smart_controller.py:236-248 | `rstrip` of a payload removes only the game field's padding. |
| Wire.ParseCartResponse | pyMiniSmartController/mini_smart_controller.py:227-239 | The parse fails with `IndexError` exactly when the response after its status has no comma, because `result != 2` is always true. Otherwise the names have no commas and no trailing whitespace. |
| Wire.ParseCartFields | pyMiniSmartController/mini_smart_controller.py:236-237 | A body that splits into two or more fields parses as the first two, right-stripped; further fields are ignored. |
| Wire.CartRoundTrip | pyMiniSmartController/mini_smart_controller.py:227-252 | Names written with `write_cart` read back unchanged with `read_cart`, whatever the two status characters, when they hold no comma and have no trailing whitespace. |
| Wire.NotifyCommand | pyMiniSmartController/mini_smart_controller.py:270-280 | The notify command is "L1" for success and "L0" otherwise. |
| Wire.TemperatureCommandRoundTrip | pyMiniSmartController/mini_smart_controller.py:218-225 | The temperature command is 'T' followed by text that `int()` parses back to the reading. |
| Wire.InitRounds | pyMiniSmartController/mini_smart_controller.py:203-216 | The hand-shake never reads more responses than its attempt bound. |
| Wire.InitRoundsShape | pyMiniSmartController/mini_smart_controller.py:211-216 | The hand-shake succeeds exactly when its last response is "OK", and no earlier response is. Without success it uses every attempt. |
| Wire.InitRoundsOutput | pyMiniSmartController/mini_smart_controller.py:213 | Each response of the hand-shake costs exactly one "I" followed by CR on the wire. |
| Wire.NoEarlierAck | pyMiniSmartController/mini_smart_controller.py:213-216 | A response other than "OK" in front of the rest keeps "OK" out of every place but the last. |
| Wire.InitAckedAtOnce | pyMiniSmartController/mini_smart_controller.py:213-214 | A device that acknowledges at once ends the hand-shake after one attempt. |
| Wire.InitRoundsStep | pyMiniSmartController/mini_smart_controller.py:211-216 | One attempt ends the hand-shake on "OK" and otherwise records the response and retries. |
| Wire.Controller.constructor | pyMiniSmartController/mini_smart_controller.py:83-92 | A new controller has no port, temperature 0 and empty version strings. |
| Wire.Controller.ReadResponse | pyMiniSmartController/mini_smart_controller.py:119-143 | The loop returns the `ReadFrameShape` frame of the buffer and leaves what follows the terminator. |
| Wire.Controller.Transmit | pyMiniSmartController/mini_smart_controller.py:107-117 | The link afterwards is `Send`: the buffer is discarded, the command and CR are written, and the reply is left unread. |
| Wire.Controller.TransmitGetResponse | pyMiniSmartController/mini_smart_controller.py:94-105 | The response and link are those of `Exchange`. |
| Wire.Controller.Connect | pyMiniSmartController/mini_smart_controller.py:145-162 | The firmware and hardware versions are the two responses without their tag character. |
| Wire.Controller.Flush | pyMiniSmartController/mini_smart_controller.py:164-170 | `flush` empties the receive buffer and changes nothing else on the link. |
| Wire.Controller.SendAck | pyMiniSmartController/mini_smart_controller.py:172-177 | `ack` sends "OK" and CR, and reads nothing. |
| Wire.Controller.GetAllCommands | pyMiniSmartController/mini_smart_controller.py:179-188 | The loop collects every table id in order. |
| Wire.Controller.GetSubcommands | pyMiniSmartController/mini_smart_controller.py:190-201 | The loop returns the first matching entry's sub-commands, or `[]` when no entry matches. |
| Wire.Controller.InitMsc | pyMiniSmartController/mini_smart_controller.py:203-216 | The retry loop produces the outcome and link of `InitRounds`. |
| Wire.Controller.WriteCpuTemperature | pyMiniSmartController/mini_smart_controller.py:218-225 | One exchange of the temperature command; the response is discarded. |
| Wire.Controller.ReadCart | pyMiniSmartController/mini_smart_controller.py:227-239 | One "Cr" exchange, parsed by `ParseCartResponse`. |
| Wire.Controller.WriteCart | pyMiniSmartController/mini_smart_controller.py:241-252 | One exchange of the padded payload. The status is `int()` of the response after two characters, or the error `int()` raises. |
| Wire.Controller.EraseCart | pyMiniSmartController/mini_smart_controller.py:254-260 | One "Ce" exchange, with the status as `int()` gives it. |
| Wire.Controller.GetCartStatus | pyMiniSmartController/mini_smart_controller.py:262-268 | One "Cs" exchange, with the status as `int()` gives it. |
| Wire.Controller.NotifyLed | pyMiniSmartController/mini_smart_controller.py:270-280 | One exchange of `NotifyCommand(success)`. |
| DaemonSpec.LastTwo | pyMiniSmartController/py_msc.py:146 | `[-2:]` is the last `min(len, 2)` items. |
| DaemonSpec.UnknownIdIsNoOp | pyMiniSmartController/py_msc.py:328-330 | A frame that does not start with a registered id changes nothing. |
| DaemonSpec.RoutedFrame | pyMiniSmartController/py_msc.py:332-383 | R, P and C frames go to their branch, each with its registered sub-command list. |
| DaemonSpec.ResetFrame | pyMiniSmartController/py_msc.py:332-345 | "R0" sends one ack, then RetroArch "RESET". "R1" sends one ack, then updates the cartridge. Any other second character does nothing. A lone "R" raises `IndexError` before any effect. |
| DaemonSpec.ResetFrameR0 | pyMiniSmartController/py_msc.py:335-340 | "R0" sends an ack and then the RetroArch reset. |
| DaemonSpec.ResetFrameR1 | pyMiniSmartController/py_msc.py:335-343 | "R1" sends an ack and then updates the cartridge. |
| DaemonSpec.UnacceptedFrame | pyMiniSmartController/py_msc.py:332-363 | A one-character R or P frame raises at `buf[1]`. A second character that is not a sub-command does nothing. |
| DaemonSpec.AckedWritesOk | pyMiniSmartController/mini_smart_controller.py:172-177 | An ack writes "OK" and CR, with no change to the globals or the effect log. |
| DaemonSpec.PowerFrame | pyMiniSmartController/py_msc.py:351-363 | "P0" is a power-button press after one ack. "P1" acks and shuts down. Other characters do nothing, and a lone "P" raises. |
| DaemonSpec.PowerFrameP0 | pyMiniSmartController/py_msc.py:353-358 | "P0" sends an ack and then presses power. |
| DaemonSpec.PowerFrameP1 | pyMiniSmartController/py_msc.py:353-361 | "P1" sends an ack and then runs the shutdown command. |
| DaemonSpec.ShutdownFrame | pyMiniSmartController/py_msc.py:347-349 | "S" acks and shuts down whatever follows it. |
| DaemonSpec.CartridgeReadFrame | pyMiniSmartController/py_msc.py:368-372 | "Cr" writes only the read command and is not acked. It raises exactly when the response has no comma. |
| DaemonSpec.CartridgeEraseFrame | pyMiniSmartController/py_msc.py:378-380 | "Ce" writes only the erase command and is not acked. It raises exactly when the status is not an integer. |
| DaemonSpec.CartridgeInertFrame | pyMiniSmartController/py_msc.py:365-383 | "Cw" raises `TypeError` with nothing written, because `write_cart` gets one argument. "Cs", other characters and a lone "C" change nothing, except that the lone "C" raises. |
| DaemonSpec.CartridgeFrame | pyMiniSmartController/py_msc.py:365-383 | A C frame is never acknowledged. It never touches the globals or the effect log, and it writes at most its own read or erase command. |
| DaemonSpec.InertFrame | pyMiniSmartController/py_msc.py:328-383 | The registered ids I, L, T, v and V have no branch and do nothing. |
| DaemonSpec.ValidateCartridgeIff | pyMiniSmartController/py_msc.py:188-210 | A cartridge is valid exactly when its normalised console is allow-listed and its ROM file exists. Then both paths are built from the console as given; otherwise both are empty. The link, the effects and `game_running` are untouched. |
| DaemonSpec.ValidateCartridgeNames | pyMiniSmartController/py_msc.py:199-249 | `current_console` becomes the normalised name or "NONE". `current_game` becomes the game or "NONE" once the console passes, and is left alone when the console fails. |
| DaemonSpec.UpperCaseConsoleMatches | pyMiniSmartController/py_msc.py:220-225 | "NES" passes the console check as "nes". |
| DaemonSpec.PaddedConsoleMatches | pyMiniSmartController/py_msc.py:220-225 | " nes " passes the console check as "nes". |
| DaemonSpec.PowerPressedStarts | pyMiniSmartController/py_msc.py:281-283 | Whatever the scan counter, a completed press with no game running leaves a game running exactly when the cartridge is valid. If the scan raises, no game runs. |
| DaemonSpec.PowerPressedScans | pyMiniSmartController/py_msc.py:272-287 | With no game running and the scan counter at zero, a press does the "Cr" exchange. A reply without a comma raises `IndexError` and starts nothing. Otherwise `valid_cartridge` is the validation of the names read, a game runs exactly when it passes, and a failed validation issues no effect. |
| DaemonSpec.PowerPressedLaunchesRead | pyMiniSmartController/py_msc.py:272-305 | When the names read pass validation, the press kills the emulators, launches that game on its ROM path and hands `/dev/shm` back. |
| DaemonSpec.PowerPressedScansAndLaunches | pyMiniSmartController/py_msc.py:272-305 | The ordinary press: the cartridge answers with an allow-listed console and a game whose ROM exists, and that game is launched as above. |
| DaemonSpec.PowerPressedStops | pyMiniSmartController/py_msc.py:285-319 | A press with a game running stops it without using the link. Nothing is killed while the front end runs; otherwise the processes are killed and the front end restarted. |
| DaemonSpec.PowerPressedLaunches | pyMiniSmartController/py_msc.py:281-301 | A press while the scan counter runs skips the scan and launches the cartridge already recorded as valid. The deployed loop never starts the counter, because `task_scan_cartridge` is commented out. |
| DaemonSpec.CheckExitClears | pyMiniSmartController/py_msc.py:426-438 | `game_running` is cleared exactly when it was set and RetroArch is gone, and only then is the front end restarted. |
| DaemonSpec.CountdownSchedule | pyMiniSmartController/py_msc.py:127-133 | Starting from zero, call `k` finds the counter at zero, and does its work, exactly when `k` is a multiple of period + 1. In between it counts down. |
| DaemonSpec.ModSucc | pyMiniSmartController/py_msc.py:127-133 | The call index modulo period + 1 advances by one and wraps at the period. |
| DaemonSpec.TemperatureTaskCounts | pyMiniSmartController/py_msc.py:120-133 | The temperature counter counts down and resets to 600. A reading is written exactly when the counter was at zero, and no other global changes. |
| DaemonSpec.TemperatureTaskRetries | pyMiniSmartController/py_msc.py:131 | A failed reading raises with nothing changed, so the next pass tries again. |
| DaemonSpec.ScanTaskCounts | pyMiniSmartController/py_msc.py:157-169 | A completed scan task moves its counter down or back to 50. A scan that raises leaves it at zero, and a skipped scan leaves the link alone. |
| DaemonSpec.ScanSkipsWhileCounting | pyMiniSmartController/py_msc.py:171-181 | `scan_cartridge` on its own also counts down while the counter runs, and validates nothing. |
| DaemonSpec.UpdateCartridgeFails | pyMiniSmartController/py_msc.py:135-155 | Without a readable line of at least two path components, nothing is written to the cartridge and the LED shows failure. |
| DaemonSpec.UpdateCartridgeWrites | pyMiniSmartController/py_msc.py:135-155 | With two components, the file is handed to `pi` and the last two are written as console and game; the globals do not change. The LED shows success exactly when the status reads as a nonzero number. A status that `int()` rejects is caught and shows failure. |
| DaemonSpec.MainPassAccumulates | pyMiniSmartController/py_msc.py:488-497 | Until a CR arrives, a pass only appends what waited on the port and runs the temperature task. |
| DaemonSpec.MainPassDispatches | pyMiniSmartController/py_msc.py:488-509 | A line holding CR is dispatched stripped. A completed dispatch flushes and clears the line. A raise keeps the line whole and skips the temperature task. |
| DaemonSpec.MainPassIdle | pyMiniSmartController/py_msc.py:488-497 | With nothing waiting the line is not looked at, even if it holds a CR. |
| DaemonSpec.CartWriteWedges | pyMiniSmartController/py_msc.py:488-509 | A line that starts with "Cw" and holds a CR is dispatched again on every pass with input. It raises again and only grows, with nothing changed or written. |
| DaemonSpec.CartWriteWedgesForever | pyMiniSmartController/py_msc.py:482-509 | Once a "Cw" frame is in the line, no run of passes with input ever changes a global, issues an effect or writes to the device. |
| DaemonSpec.LonePowerFrameStays | pyMiniSmartController/py_msc.py:490-495 | A lone "P" frame raises at `buf[1]` and stays in the line. |
| Daemon.Session.constructor | pyMiniSmartController/py_msc.py:51-68 | The globals start as the module initialises them, with no effects issued. |
| Daemon.Session.IsValidConsole | pyMiniSmartController/py_msc.py:212-229 | The in-place routine produces `DaemonSpec.IsValidConsole`. |
| Daemon.Session.CheckConsole | pyMiniSmartController/py_msc.py:222-229 | The allow-list check on the normalised name produces `DaemonSpec.CheckConsole`. |
| Daemon.Session.IsValidGame | pyMiniSmartController/py_msc.py:231-249 | The in-place routine produces `DaemonSpec.IsValidGame`. |
| Daemon.Session.CheckNames | pyMiniSmartController/py_msc.py:199 | The short-circuit check produces `DaemonSpec.CheckNames`. |
| Daemon.Session.RecordCartridge | pyMiniSmartController/py_msc.py:200-210 | Recording the paths produces `DaemonSpec.RecordCartridge`. |
| Daemon.Session.ValidateCartridge | pyMiniSmartController/py_msc.py:188-210 | The in-place routine produces `DaemonSpec.ValidateCartridge`. |
| Daemon.Session.ScanCartridge | pyMiniSmartController/py_msc.py:171-186 | The in-place routine produces `DaemonSpec.ScanCartridge`. |
| Daemon.Session.TaskScanCartridge | pyMiniSmartController/py_msc.py:157-169 | The in-place routine produces `DaemonSpec.TaskScanCartridge`. |
| Daemon.Session.StartGame | pyMiniSmartController/py_msc.py:289-304 | The in-place routine produces `DaemonSpec.StartGame`. |
| Daemon.Session.EjectGame | pyMiniSmartController/py_msc.py:306-319 | The in-place routine produces `DaemonSpec.EjectGame`. |
| Daemon.Session.PowerPressed | pyMiniSmartController/py_msc.py:272-287 | The in-place routine produces `DaemonSpec.PowerPressed`. |
| Daemon.Session.CheckExitController | pyMiniSmartController/py_msc.py:426-438 | The in-place routine produces `DaemonSpec.CheckExitController`. |
| Daemon.Session.UpdateCpuTemperature | pyMiniSmartController/py_msc.py:120-133 | The in-place routine produces `DaemonSpec.UpdateCpuTemperature`. |
| Daemon.Session.UpdateCartridge | pyMiniSmartController/py_msc.py:135-155 | The in-place routine produces `DaemonSpec.UpdateCartridge`. |
| Daemon.Session.ParseReset | pyMiniSmartController/py_msc.py:332-345 | The reset branch produces `DaemonSpec.DispatchReset`. |
| Daemon.Session.ParsePower | pyMiniSmartController/py_msc.py:351-363 | The power branch produces `DaemonSpec.DispatchPower`. |
| Daemon.Session.ParseCartridge | pyMiniSmartController/py_msc.py:365-383 | The cartridge branch produces `DaemonSpec.DispatchCartridge`. |
| Daemon.Session.CartridgeRead | pyMiniSmartController/py_msc.py:368-372 | The read branch produces `DaemonSpec.CartridgeRead`. |
| Daemon.Session.CartridgeErase | pyMiniSmartController/py_msc.py:378-380 | The erase branch produces `DaemonSpec.CartridgeErase`. |
| Daemon.Session.ParseLine | pyMiniSmartController/py_msc.py:321-383 | `parse_line` produces `DaemonSpec.Dispatch`. |
| Daemon.Session.MainPass | pyMiniSmartController/py_msc.py:486-509 | One loop iteration produces `DaemonSpec.MainPass`. |
| Daemon.Session.LineTask | pyMiniSmartController/py_msc.py:490-497 | The dispatch, flush and temperature part of an iteration produces `DaemonSpec.LineTask`. |
| Daemon.Session.Serve | pyMiniSmartController/py_msc.py:482-509 | The loop over a run of passes produces `DaemonSpec.Passes` from an empty line. |

## Left out

- Serial timing is not modelled: the baud rate, the port timeout, the 0.1 s settle delay and `serial.flush()` (waiting for output to drain). Each reply is assumed to arrive whole after the write that provokes it. A read past the reply fails, which takes the handler path of `read_response`. Blocking with `TIMEOUT = None` is not modelled.
- Every `time.sleep` is left out. The main loop's 0.1 s period appears only as the tick periods 600 and 50.
- Logging, `argparse`, the log-file handlers and `__main__` are left out; they do not affect state.
- The startup part of `main` is left out: `connect`, `init_msc`, the first `power_pressed` and `start_es`. Each of these is modelled as its own member, but the sequence is not. `Serve` starts from a connected session.
- Wire.Controller.InitMsc: the source retries forever. The model takes a bound on the number of attempts and reports whether the bound ran out.
- Opening the port (`serial.Serial`) and the `MSCException` raised when it fails are left out. `Connect` takes an open port.
- `kill_tasks` is left out; it is recorded as a `KillTasks` effect with the list of names. Its walk over `psutil` processes and its separate SIGKILL of kodi are not modelled.
- `process_exists` is not modelled; its answers are booleans in `Env`.
- `acquire_cpu_temperature` and `int(float(...))` are not modelled: the reading is an `Env` value, either an integer or the error the conversion raises.
- `os.path.isfile` is a set of existing ROM paths in `Env`.
- Reading `romdetails.txt` is an optional first line in `Env`.
- `power_down`, `start_es` and the `chown` calls are recorded as `Shell` effects with their command text.
- `retroarch` is recorded as a `Retroarch` effect; the UDP socket is not modelled.
- `reboot` is left out: nothing calls it, and its body only logs.
- Python 2 dictionary iteration order is not modelled. The table is kept in the order of its literal; ids are distinct, so lookups do not depend on the order.
- `task_scan_cartridge` and `check_exit_controller` are modelled but not called from the main loop, because the loop has them commented out.
- The main loop runs forever and catches `KeyboardInterrupt` to exit. `Serve` runs a finite sequence of passes, and interruption is not modelled.
- Exceptions other than `IndexError`, `TypeError` and `ValueError` cannot arise in the modelled code and are not represented.
