/** The serial command table `MSC_CMDS`: each command's name, its one-character
    id on the wire, and the ordered sub-command characters it accepts. */
module Registry {
  import opened PyBuiltins

  datatype CommandDef = CommandDef(name: string, id: char, subcommands: seq<char>)

  const Cartridge: CommandDef := CommandDef("cartridge", 'C', ['r', 'w', 'e', 's'])
  const Init: CommandDef := CommandDef("init", 'I', [])
  // the table's key is spelled "nofity"
  const Notify: CommandDef := CommandDef("nofity", 'L', ['0', '1'])
  const Reset: CommandDef := CommandDef("reset", 'R', ['0', '1'])
  const Power: CommandDef := CommandDef("power", 'P', ['0', '1'])
  /** Deprecated, kept for compatibility; `Power` replaces it. */
  const Shutdown: CommandDef := CommandDef("shutdown", 'S', ['0', '1'])
  const Temperature: CommandDef := CommandDef("temperature", 'T', [])
  const FirmwareVersion: CommandDef := CommandDef("firmware_version", 'v', [])
  const HardwareVersion: CommandDef := CommandDef("hardware_version", 'V', [])

  /** The table in the order of its literal. (Python 2 dictionaries iterate in
      an unspecified order; nothing below depends on the order.) */
  const MscCmds: seq<CommandDef> :=
    [Cartridge, Init, Notify, Reset, Power, Shutdown, Temperature, FirmwareVersion, HardwareVersion]

  /** The ids a table entry can have: the keys the dispatcher recognises. */
  const KnownIds: set<char> := {'C', 'I', 'L', 'R', 'P', 'S', 'T', 'v', 'V'}

  ghost predicate DistinctIds(cmds: seq<CommandDef>) {
    forall i, j :: 0 <= i < j < |cmds| ==> cmds[i].id != cmds[j].id
  }

  /** The ids of the table, in table order. */
  function Ids(cmds: seq<CommandDef>): (ids: seq<char>)
    ensures |ids| == |cmds|
    ensures forall i :: 0 <= i < |cmds| ==> ids[i] == cmds[i].id
  {
    seq(|cmds|, i requires 0 <= i < |cmds| => cmds[i].id)
  }

  /** The table's ids, in table order, are the nine distinct characters of `KnownIds`. */
  lemma MscCmdsIds()
    ensures Ids(MscCmds) == ['C', 'I', 'L', 'R', 'P', 'S', 'T', 'v', 'V']
    ensures DistinctIds(MscCmds)
    ensures forall c :: c in KnownIds <==> c in Ids(MscCmds)
  {
  }

  /** The first entry of `cmds` whose id is `id`, if any. */
  function Find(cmds: seq<CommandDef>, id: char): (r: Option<CommandDef>)
    ensures r.Some? ==> r.value in cmds && r.value.id == id
    ensures r.None? <==> forall i :: 0 <= i < |cmds| ==> cmds[i].id != id
  {
    if |cmds| == 0 then None
    else if cmds[0].id == id then Some(cmds[0])
    else Find(cmds[1..], id)
  }

  /** `get_subcommands(cmdid)`: the matching entry's list, `[]` for an unknown id. */
  function Subcommands(id: char): seq<char> {
    match Find(MscCmds, id)
    case Some(c) => c.subcommands
    case None => []
  }

  /** With distinct ids, looking up an entry's id finds that very entry. */
  lemma {:induction false} FindRegistered(cmds: seq<CommandDef>, i: nat)
    requires i < |cmds| && DistinctIds(cmds)
    ensures Find(cmds, cmds[i].id) == Some(cmds[i])
  {
    if i > 0 {
      assert cmds[0].id != cmds[i].id;
      assert DistinctIds(cmds[1..]) by {
        forall a, b | 0 <= a < b < |cmds| - 1
          ensures cmds[1..][a].id != cmds[1..][b].id
        {
          assert cmds[1..][a] == cmds[a + 1] && cmds[1..][b] == cmds[b + 1];
        }
      }
      assert cmds[1..][i - 1] == cmds[i];
      FindRegistered(cmds[1..], i - 1);
    }
  }

  /** `get_subcommands` returns the registered list for every entry and `[]`
      for every id outside the table. */
  lemma SubcommandsLookup(id: char)
    ensures forall i :: 0 <= i < |MscCmds| ==> Subcommands(MscCmds[i].id) == MscCmds[i].subcommands
    ensures id !in KnownIds ==> Subcommands(id) == []
  {
    MscCmdsIds();
    forall i | 0 <= i < |MscCmds|
      ensures Subcommands(MscCmds[i].id) == MscCmds[i].subcommands
    {
      FindRegistered(MscCmds, i);
    }
  }

  /** The sub-command lists the dispatcher indexes into. */
  lemma DispatchedSubcommands()
    ensures Subcommands(Reset.id) == ['0', '1']
    ensures Subcommands(Power.id) == ['0', '1']
    ensures Subcommands(Cartridge.id) == ['r', 'w', 'e', 's']
  {
    SubcommandsLookup('C');
    assert MscCmds[0] == Cartridge && MscCmds[3] == Reset && MscCmds[4] == Power;
  }
}
