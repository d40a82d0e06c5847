/** The RetroPie definitions the daemon shares: the consoles it accepts,
    the process names it kills, and the base paths it builds launch and ROM
    paths from. */
module Retropie {
  import opened PyBuiltins

  // The allow-list in parts of six (the verifier handles several short
  // displays far better than one long one).
  const EmulatorsPart0: seq<string> := ["amiga", "amstradcpc", "apple2", "arcade", "atari800", "atari2600"]
  const EmulatorsPart1: seq<string> := ["atari5200", "atari7800", "atarilynx", "atarist", "c64", "coco"]
  const EmulatorsPart2: seq<string> := ["dragon32", "dreamcast", "fba", "fds", "gamegear", "gb"]
  const EmulatorsPart3: seq<string> := ["gba", "gbc", "intellivision", "macintosh", "mame-advmame", "mame-libretro"]
  const EmulatorsPart4: seq<string> := ["mame-mame4all", "mastersystem", "megadrive", "msx", "n64", "neogeo"]
  const EmulatorsPart5: seq<string> := ["nes", "ngp", "ngpc", "pc", "ports", "psp"]
  const EmulatorsPart6: seq<string> := ["psx", "scummvm", "sega32x", "segacd", "sg-1000", "snes"]
  const EmulatorsPart7: seq<string> := ["vectrex", "videopac", "wonderswan", "wonderswancolor", "zmachine", "zxspectrum"]

  /** The supported consoles (the allow-list a cartridge's console name is checked against). */
  const Emulators: seq<string> :=
    EmulatorsPart0 + EmulatorsPart1 + EmulatorsPart2 + EmulatorsPart3 +
    EmulatorsPart4 + EmulatorsPart5 + EmulatorsPart6 + EmulatorsPart7

  const ProcessNamesPart0: seq<string> := ["retroarch", "ags", "uae4all2", "uae4arm", "capricerpi", "linapple", "hatari", "stella"]
  const ProcessNamesPart1: seq<string> := ["atari800", "xroar", "vice", "daphne", "reicast", "pifba", "osmose", "gpsp", "jzintv"]
  const ProcessNamesPart2: seq<string> := ["basiliskll", "mame", "advmame", "dgen", "openmsx", "mupen64plus", "gngeo", "dosbox", "ppsspp"]
  const ProcessNamesPart3: seq<string> := ["simcoupe", "scummvm", "snes9x", "pisnes", "frotz", "fbzx", "fuse", "gemrb", "cgenesis", "zdoom"]
  const ProcessNamesPart4: seq<string> := ["eduke32", "lincity", "love", "alephone", "micropolis", "openbor", "openttd", "opentyrian"]
  const ProcessNamesPart5: seq<string> := ["cannonball", "tyrquake", "ioquake3", "residualvm", "xrick", "sdlpop", "uqm", "stratagus"]
  const ProcessNamesPart6: seq<string> := ["wolf4sdl", "solarus"]

  /** The process-name list as written in its literal, before the appends. */
  const ProcessNamesLiteral: seq<string> :=
    ProcessNamesPart0 + ProcessNamesPart1 + ProcessNamesPart2 + ProcessNamesPart3 +
    ProcessNamesPart4 + ProcessNamesPart5 + ProcessNamesPart6

  /** Base directory of the ROMs, one sub-directory per console. */
  const RomBase: string := "/home/pi/RetroPie/roms/"

  /** Launcher command prefix; the console name and a space follow it. */
  const EmulatorBase: string := "/opt/retropie/supplementary/runcommand/runcommand.sh 0 _SYS_ "

  /** A Python list object, shared by every name bound to it. */
  class NameList {
    var items: seq<string>

    constructor (items: seq<string>)
      ensures this.items == items
    {
      this.items := items;
    }

    /** `list.append`: in place, so every alias sees it. */
    method Append(x: string)
      modifies this
      ensures items == old(items) + [x]
    {
      items := items + [x];
    }
  }

  /** The contents both process-name bindings have once the module is imported. */
  const ProcessNames: seq<string> := ProcessNamesLiteral + ["emulationstation", "emulationstatio"]

  /** Module initialisation: `PROCESS_NAMES_EXTRA = PROCESS_NAMES` binds a
      second name to the same list, so the two appends made through the
      second name extend the first as well. */
  method ImportProcessNames() returns (processNames: NameList, processNamesExtra: NameList)
    ensures fresh(processNames)
    ensures processNamesExtra == processNames
    ensures processNames.items == ProcessNames
    ensures processNames.items[..|ProcessNamesLiteral|] == ProcessNamesLiteral
  {
    processNames := new NameList(ProcessNamesLiteral);
    processNamesExtra := processNames;
    processNamesExtra.Append("emulationstation");
    processNamesExtra.Append("emulationstatio");
  }

  /** After import both bindings end with the two front-end names, and the
      emulator process the exit check looks for is among those killed. */
  lemma ProcessNamesAfterImport()
    ensures |ProcessNames| == |ProcessNamesLiteral| + 2 == 56
    ensures ProcessNames[|ProcessNames| - 2..] == ["emulationstation", "emulationstatio"]
    ensures "retroarch" in ProcessNames
  {
    assert ProcessNamesLiteral[0] == "retroarch";
  }

  /** The characters every allow-listed console name is made of. */
  predicate IsCanonicalChar(c: char) {
    'a' <= c <= 'z' || '0' <= c <= '9' || c == '-'
  }

  predicate IsCanonical(s: string) {
    |s| > 0 && forall i :: 0 <= i < |s| ==> IsCanonicalChar(s[i])
  }

  predicate AllCanonical(names: seq<string>) {
    if |names| == 0 then true else IsCanonical(names[0]) && AllCanonical(names[1..])
  }

  lemma {:induction false} AllCanonicalAt(names: seq<string>, i: nat)
    requires AllCanonical(names) && i < |names|
    ensures IsCanonical(names[i])
  {
    if i > 0 {
      AllCanonicalAt(names[1..], i - 1);
    }
  }

  lemma {:induction false} AllCanonicalConcat(a: seq<string>, b: seq<string>)
    requires AllCanonical(a) && AllCanonical(b)
    ensures AllCanonical(a + b)
  {
    if |a| > 0 {
      assert (a + b)[1..] == a[1..] + b;
      AllCanonicalConcat(a[1..], b);
    } else {
      assert a + b == b;
    }
  }

  // Each part of the allow-list, checked character by character.
  lemma Part0Canonical() ensures AllCanonical(EmulatorsPart0) {}
  lemma Part1Canonical() ensures AllCanonical(EmulatorsPart1) {}
  lemma Part2Canonical() ensures AllCanonical(EmulatorsPart2) {}
  lemma Part3Canonical() ensures AllCanonical(EmulatorsPart3) {}
  lemma Part4Canonical() ensures AllCanonical(EmulatorsPart4) {}
  lemma Part5Canonical() ensures AllCanonical(EmulatorsPart5) {}
  lemma Part6Canonical() ensures AllCanonical(EmulatorsPart6) {}
  lemma Part7Canonical() ensures AllCanonical(EmulatorsPart7) {}

  lemma EmulatorsCanonical()
    ensures AllCanonical(Emulators)
  {
    Part0Canonical(); Part1Canonical(); Part2Canonical(); Part3Canonical();
    Part4Canonical(); Part5Canonical(); Part6Canonical(); Part7Canonical();
    var acc := EmulatorsPart0;
    AllCanonicalConcat(acc, EmulatorsPart1);
    acc := acc + EmulatorsPart1;
    AllCanonicalConcat(acc, EmulatorsPart2);
    acc := acc + EmulatorsPart2;
    AllCanonicalConcat(acc, EmulatorsPart3);
    acc := acc + EmulatorsPart3;
    AllCanonicalConcat(acc, EmulatorsPart4);
    acc := acc + EmulatorsPart4;
    AllCanonicalConcat(acc, EmulatorsPart5);
    acc := acc + EmulatorsPart5;
    AllCanonicalConcat(acc, EmulatorsPart6);
    acc := acc + EmulatorsPart6;
    AllCanonicalConcat(acc, EmulatorsPart7);
    acc := acc + EmulatorsPart7;
    assert acc == Emulators;
  }

  /** A canonical name is left alone by `strip()` and by `lower()`. */
  lemma CanonicalIsNormal(s: string)
    requires IsCanonical(s)
    ensures Lower(Strip(s)) == s
  {
    StripUnchanged(s);
  }

  /** Every allow-list entry is lower case with no surrounding whitespace,
      so `console.strip().lower()` can match it. */
  lemma EmulatorsAreNormal()
    ensures forall e :: e in Emulators ==> Lower(Strip(e)) == e
  {
    EmulatorsCanonical();
    forall e | e in Emulators
      ensures Lower(Strip(e)) == e
    {
      var i :| 0 <= i < |Emulators| && Emulators[i] == e;
      AllCanonicalAt(Emulators, i);
      CanonicalIsNormal(e);
    }
  }

  /** `os.path.join(ROM_BASE, console, game)` is plain concatenation with one
      slash between console and game, for a console name that is not empty,
      not absolute and not ending in a slash, and a game name that is not
      absolute. */
  lemma RomPathIsConcatenation(console: string, game: string)
    requires |console| > 0 && console[0] != '/' && console[|console| - 1] != '/'
    requires |game| == 0 || game[0] != '/'
    ensures PathJoin(PathJoin(RomBase, console), game) == RomBase + console + "/" + game
  {
    assert RomBase[|RomBase| - 1] == '/';
    var p := RomBase + console;
    assert p[|p| - 1] == console[|console| - 1];
  }

  /** The allow-list holds "nes". */
  lemma NesAllowListed()
    ensures "nes" in Emulators
  {
    assert "nes" in EmulatorsPart5;
    assert Emulators == (EmulatorsPart0 + EmulatorsPart1 + EmulatorsPart2 + EmulatorsPart3 + EmulatorsPart4) +
                        EmulatorsPart5 + (EmulatorsPart6 + EmulatorsPart7);
  }

  lemma EmulatorBaseEndsWithSpace()
    ensures |EmulatorBase| > 0 && EmulatorBase[|EmulatorBase| - 1] == ' '
  {
  }
}
