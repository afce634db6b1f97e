/**
 What each key of a configuration file sets, from the table in the file to the settings that a load
 leaves (wlblurd/src/config.c). Parameters are written down as a table and read back; the built-in
 values are spelled out here once more.
 */
module ConfigKeys {
  import opened BlurParams
  import opened CTypes
  import opened Wrappers
  import opened PresetTable
  import opened Config

  /** The table with every missing key set to its built-in value, and the pass count cut to 32 bits. */
  function Completed(raw: RawParams): RawParams {
    RawParams(Some(Or(raw.algorithm, "kawase")), Some(ToInt32(Or(raw.numPasses, 3))), Some(Or(raw.radius, 5.0)),
              Some(Or(raw.brightness, 1.0)), Some(Or(raw.contrast, 1.0)), Some(Or(raw.saturation, 1.1)),
              Some(Or(raw.noise, 0.02)), Some(Or(raw.vibrancy, 0.0)))
  }

  /** A table is accepted as these parameters exactly if they are valid and it writes them, missing keys filled in. */
  lemma AcceptedIff(raw: RawParams, p: Params)
    ensures Accepted(raw) == Some(p) <==> Clean(p) && Completed(raw) == RawOf(p)
  {
    if Clean(p) && Completed(raw) == RawOf(p) {
      assert raw.algorithm.Some? ==> raw.algorithm.value == "kawase";
    }
  }

  /** A table is accepted exactly if its keys, missing ones filled in, keep to these ranges. */
  lemma AcceptedRanges(raw: RawParams)
    ensures
      var full := Completed(raw);
      Accepted(raw).Some? <==>
        && full.algorithm.value == "kawase" && 1 <= full.numPasses.value <= 8 && 1.0 <= full.radius.value <= 20.0
        && 0.0 <= full.brightness.value <= 2.0 && 0.0 <= full.contrast.value <= 2.0
        && 0.0 <= full.saturation.value <= 2.0 && 0.0 <= full.noise.value <= 1.0 && 0.0 <= full.vibrancy.value <= 2.0
  {
  }

  /** What is written is read back. */
  lemma WrittenIsRead(p: Params)
    requires Clean(p)
    ensures Accepted(RawOf(p)) == Some(p)
  {
    AcceptedIff(RawOf(p), p);
  }

  /** A key that is missing changes its own field, to the built-in value, and no other. */
  lemma MissingIsBuiltin(p: Params)
    requires Clean(p)
    ensures Accepted(RawOf(p).(algorithm := None)) == Some(p)
    ensures Accepted(RawOf(p).(numPasses := None)) == Some(p.(numPasses := 3))
    ensures Accepted(RawOf(p).(radius := None)) == Some(p.(radius := 5.0))
    ensures Accepted(RawOf(p).(brightness := None)) == Some(p.(brightness := 1.0))
    ensures Accepted(RawOf(p).(contrast := None)) == Some(p.(contrast := 1.0))
    ensures Accepted(RawOf(p).(saturation := None)) == Some(p.(saturation := 1.1))
    ensures Accepted(RawOf(p).(noise := None)) == Some(p.(noise := 0.02))
    ensures Accepted(RawOf(p).(vibrancy := None)) == Some(p.(vibrancy := 0.0))
  {
  }

  /** Every algorithm but kawase is refused. */
  lemma OthersAreRefused(raw: RawParams)
    requires raw.algorithm.Some? && raw.algorithm.value != "kawase"
    ensures forall p :: Accepted(raw) != Some(p)
  {
  }

  // ----- from the file to the settings -----

  /** With every allocation granted the defaults in force are those that [defaults] writes. */
  lemma DefaultsAreLoaded(file: File, m: Memory, p: Params)
    requires file.Parsed? && file.defaults == Some(RawOf(p)) && Clean(p)
    requires forall ok | ok in LoadOutcomes(file, m) :: ok
    ensures LoadedWith(file, m).Some? && LoadedWith(file, m).value.defaults == Some(p)
  {
    WrittenIsRead(p);
    LoadedInFull(file, m);
  }

  /** One preset more: nothing if it is refused, and otherwise an update of its key. */
  lemma MapOfNext(ops: seq<Op>, presets: seq<RawPreset>)
    requires presets != []
    ensures
      var last, m := presets[|presets| - 1], KeyMapOf(ops + AcceptedOps(presets[..|presets| - 1]));
      KeyMapOf(ops + AcceptedOps(presets))
      == if AcceptedOp(last) == [] then m else m[KeyOf(last.name) := Accepted(last.table.value).value]
  {
    var last, before := presets[|presets| - 1], ops + AcceptedOps(presets[..|presets| - 1]);
    AppendTwice(ops, AcceptedOps(presets[..|presets| - 1]), AcceptedOp(last));
    if AcceptedOp(last) == [] {
      assert before + AcceptedOp(last) == before;
    } else {
      assert (before + AcceptedOp(last))[..|before|] == before;
    }
  }

  lemma {:induction false} LastKeyWins(ops: seq<Op>, presets: seq<RawPreset>, i: nat, p: Params)
    requires i < |presets| && presets[i].table.Some? && Accepted(presets[i].table.value) == Some(p)
    requires forall j | i < j < |presets| ::
               KeyOf(presets[j].name) != KeyOf(presets[i].name) || AcceptedOp(presets[j]) == []
    ensures var m := KeyMapOf(ops + AcceptedOps(presets));
            KeyOf(presets[i].name) in m && m[KeyOf(presets[i].name)] == p
  {
    MapOfNext(ops, presets);
    if i < |presets| - 1 {
      LastKeyWins(ops, presets[..|presets| - 1], i, p);
    }
  }

  /**
   With every allocation granted, the last preset of a file under a name of at most 31 characters is what a
   lookup of the name finds. A longer name counts as later only if it shares bucket and stored part.
   */
  lemma LastPresetIsFound(file: File, m: Memory, i: nat, p: Params)
    requires file.Parsed? && !BadDefaults(file) && i < |file.presets|
    requires file.presets[i].table == Some(RawOf(p)) && Clean(p) && |file.presets[i].name| <= NAME_MAX
    requires forall j | i < j < |file.presets| ::
               KeyOf(file.presets[j].name) != KeyOf(file.presets[i].name) || AcceptedOp(file.presets[j]) == []
    requires forall ok | ok in LoadOutcomes(file, m) :: ok
    ensures LoadedWith(file, m).Some? && |LoadedWith(file, m).value.presets| == BUCKETS
    ensures PresetTable.Lookup(LoadedWith(file, m).value.presets, file.presets[i].name) == Some(p)
  {
    WrittenIsRead(p);
    LoadedInFull(file, m);
    LastKeyWins(STANDARD, file.presets, i, p);
    TableIsKeyMap(FileOps(file));
    LookupRefinesRead(AddAll(Empty(), FileOps(file)), KeyMapOf(FileOps(file)), file.presets[i].name);
  }

  lemma {:induction false} LaterOpsKeep(ops: seq<Op>, i: nat)
    requires i < |ops| && forall j | i < j < |ops| :: KeyOf(ops[j].name) != KeyOf(ops[i].name)
    ensures KeyOf(ops[i].name) in KeyMapOf(ops) && KeyMapOf(ops)[KeyOf(ops[i].name)] == ops[i].params
  {
    if i < |ops| - 1 {
      LaterOpsKeep(ops[..|ops| - 1], i);
    }
  }

  lemma {:induction false} PresetsKeep(ops: seq<Op>, presets: seq<RawPreset>, key: Key)
    requires key in KeyMapOf(ops) && forall raw | raw in presets :: KeyOf(raw.name) != key
    ensures var m := KeyMapOf(ops + AcceptedOps(presets)); key in m && m[key] == KeyMapOf(ops)[key]
  {
    if presets == [] {
      assert ops + AcceptedOps(presets) == ops;
    } else {
      MapOfNext(ops, presets);
      PresetsKeep(ops, presets[..|presets| - 1], key);
      assert presets[|presets| - 1] in presets;
    }
  }

  /** The four standard presets: window, panel, hud and tooltip. */
  function Standard(i: nat): Op
    requires i < 4
  {
    match i
    case 0 => Op(WINDOW, Params(Kawase, 3, 8.0, 1.0, 1.0, 1.15, 0.02, 0.0, 0.0, 0.0, 0.0, 0.0, 0.0))
    case 1 => Op(PANEL, Params(Kawase, 2, 4.0, 1.05, 1.0, 1.1, 0.01, 0.0, 0.0, 0.0, 0.0, 0.0, 0.0))
    case 2 => Op(HUD, Params(Kawase, 4, 12.0, 1.0, 1.0, 1.2, 0.02, 0.2, 0.0, 0.0, 0.0, 0.0, 0.0))
    case 3 => Op(TOOLTIP, Params(Kawase, 1, 2.0, 1.0, 1.0, 1.0, 0.0, 0.0, 0.0, 0.0, 0.0, 0.0, 0.0))
  }

  lemma StandardKeys(i: nat)
    requires i < 4
    ensures |STANDARD| == 4 && STANDARD[i] == Standard(i)
    ensures forall j | i < j < 4 :: KeyOf(STANDARD[j].name) != KeyOf(STANDARD[i].name)
  {
  }

  lemma StandardKept(i: nat)
    requires i < 4
    ensures KeyOf(Standard(i).name) in KeyMapOf(STANDARD)
    ensures KeyMapOf(STANDARD)[KeyOf(Standard(i).name)] == Standard(i).params && |Standard(i).name| <= NAME_MAX
  {
    StandardKeys(i);
    LaterOpsKeep(STANDARD, i);
  }

  /** With every allocation granted each of them is there, as listed, unless the file sets its name. */
  lemma StandardIsThere(file: File, m: Memory, i: nat)
    requires i < 4 && forall ok | ok in LoadOutcomes(file, m) :: ok
    requires forall raw | !Broken(file) && raw in file.presets :: KeyOf(raw.name) != KeyOf(Standard(i).name)
    ensures LoadedWith(file, m).Some? && |LoadedWith(file, m).value.presets| == BUCKETS
    ensures PresetTable.Lookup(LoadedWith(file, m).value.presets, Standard(i).name) == Some(Standard(i).params)
  {
    var name := Standard(i).name;
    StandardKept(i);
    if !Broken(file) {
      PresetsKeep(STANDARD, file.presets, KeyOf(name));
    }
    LoadedInFull(file, m);
    TableIsKeyMap(FileOps(file));
    LookupRefinesRead(AddAll(Empty(), FileOps(file)), KeyMapOf(FileOps(file)), name);
  }

  /** A file that cannot be used at all leaves the built-in defaults and the four standard presets, and no others. */
  lemma UnusableIsBuiltin(file: File, m: Memory)
    requires file.Parsed? ==> file.defaults.Some? && Accepted(file.defaults.value).None?
    requires forall ok | ok in LoadOutcomes(file, m) :: ok
    ensures LoadedWith(file, m).Some? && |LoadedWith(file, m).value.presets| == BUCKETS
    ensures LoadedWith(file, m).value.defaults
            == Some(Params(Kawase, 3, 5.0, 1.0, 1.0, 1.1, 0.02, 0.0, 0.0, 0.0, 0.0, 0.0, 0.0))
    ensures forall name | name !in {WINDOW, PANEL, HUD, TOOLTIP} ::
              PresetTable.Lookup(LoadedWith(file, m).value.presets, name) == None
    ensures forall i | 0 <= i < 4 ::
              PresetTable.Lookup(LoadedWith(file, m).value.presets, Standard(i).name) == Some(Standard(i).params)
  {
    LoadedInFull(file, m);
    TableIsKeyMap(STANDARD);
    forall name | name !in {WINDOW, PANEL, HUD, TOOLTIP}
      ensures PresetTable.Lookup(LoadedWith(file, m).value.presets, name) == None
    {
      if |name| <= NAME_MAX {
        StandardNames(name);
      }
      LookupRefinesRead(AddAll(Empty(), STANDARD), KeyMapOf(STANDARD), name);
    }
    forall i | 0 <= i < 4
      ensures PresetTable.Lookup(LoadedWith(file, m).value.presets, Standard(i).name) == Some(Standard(i).params)
    {
      StandardIsThere(file, m, i);
    }
  }

  lemma StandardNames(name: Name)
    requires name !in {WINDOW, PANEL, HUD, TOOLTIP} && |name| <= NAME_MAX
    ensures KeyOf(name) !in KeyMapOf(STANDARD)
  {
    KeysOf(STANDARD, KeyOf(name));
    assert forall op | op in STANDARD :: op.name in {WINDOW, PANEL, HUD, TOOLTIP};
    assert forall op | op in STANDARD :: Truncate(op.name) == op.name;
  }
}
