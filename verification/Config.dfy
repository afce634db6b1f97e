/**
 Configuration loading (wlblurd/src/config.c), reload (wlblurd/src/reload.c) and parameter
 resolution (wlblurd/src/presets.c). A file is taken after parsing, as tables of optional fields.
 */
module Config {
  import opened BlurParams
  import opened CTypes
  import opened Wrappers
  import opened Kernel
  import opened PresetTable
  import opened Presets

  // ----- parsed files -----

  /** A table of blur parameters; integers in the file have 64 bits. */
  datatype RawParams = RawParams(
    algorithm: Option<string>, numPasses: Option<int>, radius: Option<real>,
    brightness: Option<real>, contrast: Option<real>, saturation: Option<real>,
    noise: Option<real>, vibrancy: Option<real>)

  /** The keys of [presets] in file order; a key that is not a table has none. */
  datatype RawPreset = RawPreset(name: Name, table: Option<RawParams>)

  datatype File =
    | NotFound
    | CannotOpen
    | SyntaxError
    | Parsed(defaults: Option<RawParams>, presets: seq<RawPreset>)

  function Or<T>(given: Option<T>, default: T): T {
    match given case Some(v) => v case None => default
  }

  const BUILTIN := Params(Kawase, 3, 5.0, 1.0, 1.0, 1.1, 0.02, 0.0, 0.0, 0.0, 0.0, 0.0, 0.0)

  /** parse_blur_params: only "kawase" is a supported algorithm; everything unset is built in. */
  function ParseParams(raw: RawParams): Option<Params> {
    if raw.algorithm.Some? && raw.algorithm.value != "kawase" then None
    else Some(BUILTIN.(
      numPasses := ToInt32(Or(raw.numPasses, BUILTIN.numPasses)), radius := Or(raw.radius, BUILTIN.radius),
      brightness := Or(raw.brightness, BUILTIN.brightness), contrast := Or(raw.contrast, BUILTIN.contrast),
      saturation := Or(raw.saturation, BUILTIN.saturation), noise := Or(raw.noise, BUILTIN.noise),
      vibrancy := Or(raw.vibrancy, BUILTIN.vibrancy)))
  }

  /** A table that parses and passes the daemon's validator. */
  function Accepted(raw: RawParams): Option<Params> {
    match ParseParams(raw)
    case Some(p) => if DaemonValid(p) then Some(p) else None
    case None => None
  }

  /** A table that sets every key. */
  function RawOf(p: Params): RawParams {
    RawParams(Some("kawase"), Some(p.numPasses), Some(p.radius), Some(p.brightness), Some(p.contrast),
              Some(p.saturation), Some(p.noise), Some(p.vibrancy))
  }

  // ----- configurations as values -----

  datatype Settings = Settings(defaults: Option<Params>, presets: Table)

  const WINDOW: Name := [119, 105, 110, 100, 111, 119]
  const PANEL: Name := [112, 97, 110, 101, 108]
  const HUD: Name := [104, 117, 100]
  const TOOLTIP: Name := [116, 111, 111, 108, 116, 105, 112]

  const STANDARD: seq<Op> := [
    Op(WINDOW, Params(Kawase, 3, 8.0, 1.0, 1.0, 1.15, 0.02, 0.0, 0.0, 0.0, 0.0, 0.0, 0.0)),
    Op(PANEL, Params(Kawase, 2, 4.0, 1.05, 1.0, 1.1, 0.01, 0.0, 0.0, 0.0, 0.0, 0.0, 0.0)),
    Op(HUD, Params(Kawase, 4, 12.0, 1.0, 1.0, 1.2, 0.02, 0.2, 0.0, 0.0, 0.0, 0.0, 0.0)),
    Op(TOOLTIP, Params(Kawase, 1, 2.0, 1.0, 1.0, 1.0, 0.0, 0.0, 0.0, 0.0, 0.0, 0.0, 0.0))]

  function AcceptedOp(raw: RawPreset): seq<Op> {
    if raw.table.Some? && Accepted(raw.table.value).Some? then [Op(raw.name, Accepted(raw.table.value).value)] else []
  }

  /** The presets of a file that are accepted, in file order. */
  function AcceptedOps(presets: seq<RawPreset>): seq<Op> {
    if presets == [] then [] else AcceptedOps(presets[..|presets| - 1]) + AcceptedOp(presets[|presets| - 1])
  }

  lemma AppendTwice<T>(a: seq<T>, b: seq<T>, c: seq<T>)
    ensures a + b + c == a + (b + c)
  {
  }

  lemma NextOp(ops: seq<Op>, i: nat)
    requires i < |ops|
    ensures ops[..i + 1] == ops[..i] + [ops[i]]
  {
  }

  lemma NextAccepted(presets: seq<RawPreset>, i: nat, ops: seq<Op>)
    requires i < |presets|
    ensures ops + AcceptedOps(presets[..i + 1]) == ops + AcceptedOps(presets[..i]) + AcceptedOp(presets[i])
  {
    assert presets[..i + 1][..i] == presets[..i];
  }

  const DEFAULT_SETTINGS := Settings(Some(BUILTIN), AddAll(Empty(), STANDARD))

  /** Files that end in the built-in configuration. */
  predicate Broken(file: File) {
    !file.Parsed? || BadDefaults(file)
  }

  predicate BadDefaults(file: File) {
    file.Parsed? && file.defaults.Some? && Accepted(file.defaults.value).None?
  }

  function FileDefaults(file: File): Option<Params> {
    if Broken(file) then Some(BUILTIN) else if file.defaults.Some? then Accepted(file.defaults.value) else None
  }

  function FileOps(file: File): seq<Op> {
    if Broken(file) then STANDARD else STANDARD + AcceptedOps(file.presets)
  }

  /** What config_load yields when memory does not run out. */
  function LoadedSettings(file: File): Settings {
    Settings(FileDefaults(file), AddAll(Empty(), FileOps(file)))
  }

  /** The outcomes of calloc: for the configuration, for the one that replaces it, and for each new preset. */
  datatype Memory = Memory(config: bool, fallback: bool, presets: seq<bool>)

  /** Whether config_load returns NULL. */
  predicate NoConfig(file: File, m: Memory) {
    !m.config || (BadDefaults(file) && !m.fallback)
  }

  /** The allocations config_load makes, in order. */
  function LoadOutcomes(file: File, m: Memory): seq<bool> {
    if !file.Parsed? then DefaultOutcomes(m.config, m.presets)
    else [m.config] + if m.config then TableOutcomes(file, m) else []
  }

  function DefaultOutcomes(config: bool, presets: seq<bool>): seq<bool> {
    [config] + if config then Asked(Empty(), STANDARD, presets) else []
  }

  /** Those after the configuration itself. */
  function TableOutcomes(file: File, m: Memory): seq<bool> {
    if BadDefaults(file) then DefaultOutcomes(m.fallback, m.presets) else Asked(Empty(), FileOps(file), m.presets)
  }

  /** What config_load yields: presets for which there is no memory are left out. */
  function LoadedWith(file: File, m: Memory): Option<Settings> {
    if NoConfig(file, m) then None
    else Some(Settings(FileDefaults(file), TryAddAll(Empty(), FileOps(file), m.presets)))
  }

  /** resolve_preset: named preset, override, configured defaults, built-in defaults. */
  function Resolve(settings: Option<Settings>, name: Option<Name>, override: Option<Params>): Params
    requires settings.Some? ==> |settings.value.presets| == BUCKETS
  {
    var found := if name.Some? && name.value != [] && settings.Some?
                 then PresetTable.Lookup(settings.value.presets, name.value) else None;
    if found.Some? then found.value
    else if override.Some? then override.value
    else if settings.Some? && settings.value.defaults.Some? then settings.value.defaults.value
    else BUILTIN
  }

  // ----- validity -----

  ghost predicate Clean(p: Params) {
    DaemonValid(p) && Untinted(p)
  }

  ghost predicate CleanTable(table: Table) {
    && WellFormed(table)
    && forall b, i | 0 <= b < BUCKETS && 0 <= i < |table[b]| :: Clean(table[b][i].params)
  }

  ghost predicate CleanSettings(s: Settings) {
    && CleanTable(s.presets)
    && (s.defaults.Some? ==> Clean(s.defaults.value))
  }

  /** Between the validators: what the daemon accepts, the library rejects for noise or tint only. */
  lemma ValidatorsAgree(p: Params)
    ensures Clean(p) ==> (LibraryValid(p) <==> p.noise <= 0.1)
    ensures LibraryValid(p) ==> (DaemonValid(p) <==> p.algorithm == Kawase)
  {
  }

  lemma StandardIsClean()
    ensures forall op | op in STANDARD :: Clean(op.params)
  {
  }

  lemma AcceptedIsClean(raw: RawParams)
    requires Accepted(raw).Some?
    ensures Clean(Accepted(raw).value)
  {
  }

  lemma AddKeepsClean(table: Table, name: Name, params: Params)
    requires CleanTable(table) && Clean(params)
    ensures CleanTable(PresetTable.Add(table, name, params))
  {
  }

  /** Whatever is asked for without an override, a clean configuration answers with clean parameters. */
  lemma ResolvedIsValid(s: Settings, name: Option<Name>)
    requires CleanSettings(s)
    ensures DaemonValid(Resolve(Some(s), name, None))
    ensures LibraryValid(Resolve(Some(s), name, None)) <==> Resolve(Some(s), name, None).noise <= 0.1
  {
    ValidatorsAgree(Resolve(Some(s), name, None));
  }

  lemma {:induction false} AddAllKeepsClean(table: Table, ops: seq<Op>)
    requires CleanTable(table) && forall op | op in ops :: Clean(op.params)
    ensures CleanTable(AddAll(table, ops))
  {
    if ops != [] {
      var init, op := ops[..|ops| - 1], ops[|ops| - 1];
      AddAllKeepsClean(table, init);
      AddKeepsClean(AddAll(table, init), op.name, op.params);
    }
  }

  lemma {:induction false} AcceptedOpsAreClean(presets: seq<RawPreset>)
    ensures forall op | op in AcceptedOps(presets) :: Clean(op.params)
  {
    if presets != [] {
      AcceptedOpsAreClean(presets[..|presets| - 1]);
    }
  }

  lemma FileOpsAreClean(file: File)
    ensures forall op | op in FileOps(file) :: Clean(op.params)
  {
    StandardIsClean();
    if !Broken(file) {
      AcceptedOpsAreClean(file.presets);
    }
  }

  /** Whatever the file holds and however memory runs out, what is loaded is valid. */
  lemma LoadedIsClean(file: File, m: Memory)
    ensures LoadedWith(file, m).Some? ==> CleanSettings(LoadedWith(file, m).value)
  {
    var ops := FileOps(file);
    FileOpsAreClean(file);
    TriedIsKept(Empty(), ops, m.presets);
    KeptAreAsked(Empty(), ops, m.presets);
    AddAllKeepsClean(Empty(), Kept(Empty(), ops, m.presets));
    if !Broken(file) && file.defaults.Some? {
      AcceptedIsClean(file.defaults.value);
    }
  }

  /** When every allocation is granted, everything the file describes is loaded. */
  lemma LoadedInFull(file: File, m: Memory)
    requires forall ok | ok in LoadOutcomes(file, m) :: ok
    ensures LoadedWith(file, m) == Some(LoadedSettings(file))
  {
    var outcomes, presets := LoadOutcomes(file, m), Asked(Empty(), FileOps(file), m.presets);
    assert m.config == outcomes[0] && outcomes[0] in outcomes;
    if BadDefaults(file) {
      assert m.fallback == outcomes[1] && outcomes[1] in outcomes;
    }
    assert forall ok | ok in presets :: ok in outcomes;
    AllGranted(Empty(), FileOps(file), m.presets);
  }

  /** What [defaults] writes, with every key set and valid, is in force after the load. */
  ghost predicate DefaultsWritten(file: File, settings: Settings) {
    forall p | file.Parsed? && file.defaults == Some(RawOf(p)) && Clean(p) :: settings.defaults == Some(p)
  }

  lemma DefaultsAreWritten(file: File, m: Memory)
    ensures LoadedWith(file, m).Some? ==> DefaultsWritten(file, LoadedWith(file, m).value) == true
  {
    forall p | file.Parsed? && file.defaults == Some(RawOf(p)) && Clean(p)
      ensures Accepted(file.defaults.value) == Some(p)
    {
    }
  }

  // ----- what a reload leaves in force -----

  function AfterReload(live: Settings, file: File, m: Memory): Settings {
    Or(LoadedWith(file, m), live)
  }

  /** No client can tell the two apart: every name and override resolves to the same parameters. */
  ghost predicate SameAnswers(a: Settings, b: Settings)
    requires |a.presets| == BUCKETS && |b.presets| == BUCKETS
  {
    forall name, override :: Resolve(Some(a), name, override) == Resolve(Some(b), name, override)
  }

  /** Exactly if they agree on the defaults and on every preset. */
  lemma SameAnswersIff(a: Settings, b: Settings)
    requires |a.presets| == BUCKETS && |b.presets| == BUCKETS
    ensures SameAnswers(a, b) <==>
              && Or(a.defaults, BUILTIN) == Or(b.defaults, BUILTIN)
              && forall name: Name | name != [] ::
                   PresetTable.Lookup(a.presets, name) == PresetTable.Lookup(b.presets, name)
  {
    if SameAnswers(a, b) {
      assert Resolve(Some(a), None, None) == Resolve(Some(b), None, None);
      forall name: Name | name != []
        ensures PresetTable.Lookup(a.presets, name) == PresetTable.Lookup(b.presets, name)
      {
        SameAnswersFound(a, b, name);
      }
    }
  }

  lemma SameAnswersFound(a: Settings, b: Settings, name: Name)
    requires |a.presets| == BUCKETS && |b.presets| == BUCKETS
    requires SameAnswers(a, b) && name != []
    ensures PresetTable.Lookup(a.presets, name) == PresetTable.Lookup(b.presets, name)
  {
    var p, q := PresetTable.Lookup(a.presets, name), PresetTable.Lookup(b.presets, name);
    var found := if p.Some? then p.value else Or(q, BUILTIN);
    var other := found.(noise := found.noise + 1.0);
    assert Resolve(Some(a), Some(name), Some(other)) == Resolve(Some(b), Some(name), Some(other));
    assert Resolve(Some(a), Some(name), Some(found)) == Resolve(Some(b), Some(name), Some(found));
  }

  /** A configuration "has errors": it cannot be read, or a table in it is refused. */
  predicate Erroneous(file: File) {
    file.CannotOpen? || file.SyntaxError? || BadDefaults(file)
    || (file.Parsed? && exists i :: 0 <= i < |file.presets|
                                    && file.presets[i].table.Some? && Accepted(file.presets[i].table.value).None?)
  }

  /**
   The configuration guide promises that an erroneous file keeps the settings in force. They are
   kept exactly if not even a configuration could be allocated, or if they already were what the
   code makes of the file: its defaults, or the built-in ones; and of the standard presets and its
   own those that are accepted and come through.
   */
  lemma ErroneousFileKeepsSettings(live: Settings, file: File, m: Memory)
    requires Erroneous(file) && WellFormed(live.presets)
    ensures
      var presets := KeyMapOf(Kept(Empty(), FileOps(file), m.presets));
      SameAnswers(AfterReload(live, file, m), live) <==>
        || NoConfig(file, m)
        || (&& Or(live.defaults, BUILTIN) == Or(FileDefaults(file), BUILTIN)
            && forall name: Name | name != [] ::
                 PresetTable.Lookup(live.presets, name)
                 == if |name| <= NAME_MAX && KeyOf(name) in presets then Some(presets[KeyOf(name)]) else None)
  {
    if !NoConfig(file, m) {
      LoadedAnswers(file, m);
      SameAnswersIff(AfterReload(live, file, m), live);
    }
  }

  const UNSET := RawParams(None, None, None, None, None, None, None, None)

  const SMOOTH: Name := [115, 109, 111, 111, 116, 104]

  /** The guide's own example: a radius of 25 in [defaults], while a radius of 10 is in force. */
  lemma RadiusInDefaultsIsNotKept(presets: Table, m: Memory)
    requires WellFormed(presets) && m.config && m.fallback
    ensures
      var live := Settings(Some(BUILTIN.(radius := 10.0)), presets);
      var file := Parsed(Some(UNSET.(radius := Some(25.0))), []);
      Erroneous(file) && !SameAnswers(AfterReload(live, file, m), live)
  {
    var live := Settings(Some(BUILTIN.(radius := 10.0)), presets);
    var file := Parsed(Some(UNSET.(radius := Some(25.0))), []);
    assert BadDefaults(file);
    ErroneousFileKeepsSettings(live, file, m);
  }

  /** A preset that nothing in the file adds is not there after the reload, whatever was before. */
  lemma ForgottenUnlessAdded(live: Settings, file: File, m: Memory, name: Name)
    requires !NoConfig(file, m) && forall op | op in FileOps(file) :: KeyOf(op.name) != KeyOf(name)
    ensures |AfterReload(live, file, m).presets| == BUCKETS
    ensures PresetTable.Lookup(AfterReload(live, file, m).presets, name) == None
  {
    var ops := Kept(Empty(), FileOps(file), m.presets);
    KeptAreAsked(Empty(), FileOps(file), m.presets);
    KeysOf(ops, KeyOf(name));
    LoadedAnswers(file, m);
  }

  /** What a file does not add is not found. */
  lemma NeverAdded(file: File, name: Name)
    requires forall op | op in FileOps(file) :: Truncate(op.name) != Truncate(name)
    ensures |LoadedSettings(file).presets| == BUCKETS
    ensures PresetTable.Lookup(LoadedSettings(file).presets, name) == None
  {
    TableIsKeyMap(FileOps(file));
    KeysOf(FileOps(file), KeyOf(name));
    LookupRefinesRead(AddAll(Empty(), FileOps(file)), KeyMapOf(FileOps(file)), name);
  }

  const ROUGH_FILE := Parsed(None, [RawPreset(SMOOTH, Some(UNSET.(radius := Some(25.0))))])

  lemma RoughFileOps()
    ensures Erroneous(ROUGH_FILE) && FileOps(ROUGH_FILE) == STANDARD
  {
    var presets := ROUGH_FILE.presets;
    assert Accepted(presets[0].table.value) == None;
    assert presets[..0] == [];
    assert AcceptedOps(presets) == AcceptedOps(presets[..0]) + AcceptedOp(presets[0]);
  }

  /** The same mistake in a preset: the preset that was in force under that name is gone. */
  lemma RadiusInPresetIsNotKept(live: Settings, m: Memory)
    requires |live.presets| == BUCKETS && PresetTable.Lookup(live.presets, SMOOTH).Some? && m.config
    ensures Erroneous(ROUGH_FILE) && |AfterReload(live, ROUGH_FILE, m).presets| == BUCKETS
    ensures PresetTable.Lookup(AfterReload(live, ROUGH_FILE, m).presets, SMOOTH) == None
    ensures !SameAnswers(AfterReload(live, ROUGH_FILE, m), live)
  {
    RoughFileOps();
    assert forall op | op in STANDARD :: op.name in {WINDOW, PANEL, HUD, TOOLTIP};
    ForgottenUnlessAdded(live, ROUGH_FILE, m, SMOOTH);
    SameAnswersIff(AfterReload(live, ROUGH_FILE, m), live);
  }

  /** Not even the built-in settings are kept by a syntax error if memory runs out for the presets only. */
  lemma BuiltinsMayBeLost()
    ensures !SameAnswers(AfterReload(DEFAULT_SETTINGS, SyntaxError, Memory(true, true, [])), DEFAULT_SETTINGS)
  {
    NoneKept(STANDARD);
    TableIsKeyMap(STANDARD);
    assert STANDARD[0] in STANDARD;
    KeysOf(STANDARD, KeyOf(WINDOW));
    LookupRefinesRead(AddAll(Empty(), STANDARD), KeyMapOf(STANDARD), WINDOW);
    ErroneousFileKeepsSettings(DEFAULT_SETTINGS, SyntaxError, Memory(true, true, []));
  }

  /** The presets that are loaded, by name. */
  lemma LoadedAnswers(file: File, m: Memory)
    requires LoadedWith(file, m).Some?
    ensures WellFormed(LoadedWith(file, m).value.presets)
    ensures
      var presets := KeyMapOf(Kept(Empty(), FileOps(file), m.presets));
      forall name :: PresetTable.Lookup(LoadedWith(file, m).value.presets, name)
                     == if |name| <= NAME_MAX && KeyOf(name) in presets then Some(presets[KeyOf(name)]) else None
  {
    var ops := Kept(Empty(), FileOps(file), m.presets);
    TriedIsKept(Empty(), FileOps(file), m.presets);
    TableIsKeyMap(ops);
    forall name
      ensures PresetTable.Lookup(AddAll(Empty(), ops), name)
              == if |name| <= NAME_MAX && KeyOf(name) in KeyMapOf(ops) then Some(KeyMapOf(ops)[KeyOf(name)]) else None
    {
      LookupRefinesRead(AddAll(Empty(), ops), KeyMapOf(ops), name);
    }
  }

  // ----- the code -----

  class DaemonConfig {
    var hasDefaults: bool
    var defaults: Params
    const presets: Registry

    ghost predicate Valid()
      reads this, presets, presets.buckets
    {
      presets.Valid()
    }

    ghost function View(): Settings
      requires Valid()
      reads this, presets, presets.buckets, presets.heap
    {
      Settings(if hasDefaults then Some(defaults) else None, presets.View())
    }

    /** calloc */
    constructor ()
      ensures Valid() && fresh(presets) && fresh(presets.buckets)
      ensures presets.heap == {} && View() == Settings(None, Empty())
    {
      hasDefaults, defaults := false, BUILTIN;
      presets := new Registry();
    }

    /** The [defaults] table. */
    method SetDefaults(file: File) returns (ok: bool)
      requires Valid() && file.Parsed? && !hasDefaults
      modifies this
      ensures Valid() && View().presets == old(View().presets)
      ensures ok <==> !BadDefaults(file)
      ensures ok ==> View().defaults == FileDefaults(file)
    {
      ok := true;
      if file.defaults.Some? {
        var params := Accepted(file.defaults.value);
        if params.None? {
          return false;
        }
        hasDefaults, defaults := true, params.value;
      }
    }

    /** One preset_registry_add whose failure is ignored. */
    method AddPreset(process: Process, name: Name, params: Params) returns (ghost ok: bool)
      requires Valid()
      modifies presets, presets.buckets, presets.heap, process`allocations
      ensures process.allocations == old(process.allocations)
              + if PresetTable.Lookup(old(View().presets), name).Some? then [] else [ok]
      ensures Valid() && View().presets == TryAdd(old(View().presets), name, params, ok)
      ensures old(presets.heap) <= presets.heap && fresh(presets.heap - old(presets.heap))
      ensures hasDefaults == old(hasDefaults) && defaults == old(defaults)
    {
      ok := presets.Add(process, name, params);
    }

    /** The presets are what these additions have made of an empty table, with the allocations since `before`. */
    ghost predicate Holds(process: Process, before: seq<bool>, ops: seq<Op>, memory: seq<bool>)
      reads this, presets, presets.buckets, presets.heap, process
    {
      && Valid() && |memory| == |ops| && View().presets == TryAddAll(Empty(), ops, memory)
      && process.allocations == before + Asked(Empty(), ops, memory)
    }

    /** Only presets were added. */
    twostate predicate Grown()
      reads this, presets
    {
      && old(presets.heap) <= presets.heap && fresh(presets.heap - old(presets.heap))
      && hasDefaults == old(hasDefaults) && defaults == old(defaults)
    }

    /** One more addition after those so far. */
    method AddNext(process: Process, ghost before: seq<bool>, op: Op, ghost ops: seq<Op>,
        ghost memory: seq<bool>)
      returns (ghost more: seq<bool>)
      requires Holds(process, before, ops, memory)
      modifies presets, presets.buckets, presets.heap, process`allocations
      ensures Holds(process, before, ops + [op], more) == true && Grown()
    {
      ghost var ok := AddPreset(process, op.name, op.params);
      TryOne(Empty(), ops, memory, op, ok);
      AppendTwice(before, Asked(Empty(), ops, memory),
                  if PresetTable.Lookup(TryAddAll(Empty(), ops, memory), op.name).Some? then [] else [ok]);
      more := memory + [ok];
    }

    /** preset_registry_init on an empty registry: one add after the other. */
    method AddStandard(process: Process, ghost before: seq<bool>, standard: seq<Op>) returns (ghost memory: seq<bool>)
      requires Holds(process, before, [], [])
      modifies presets, presets.buckets, presets.heap, process`allocations
      ensures Holds(process, before, standard, memory) == true && Grown()
    {
      memory := [];
      for i := 0 to |standard|
        invariant Holds(process, before, standard[..i], memory) == true && Grown()
      {
        NextOp(standard, i);
        memory := AddNext(process, before, standard[i], standard[..i], memory);
      }
      assert standard[..|standard|] == standard;
    }

    /** One key of [presets]: skipped unless it parses and validates. */
    method AddRaw(process: Process, ghost before: seq<bool>, raw: RawPreset, ghost ops: seq<Op>,
        ghost memory: seq<bool>)
      returns (ghost more: seq<bool>)
      requires Holds(process, before, ops, memory)
      modifies presets, presets.buckets, presets.heap, process`allocations
      ensures Holds(process, before, ops + AcceptedOp(raw), more) == true && Grown()
    {
      more := memory;
      var params := if raw.table.Some? then Accepted(raw.table.value) else None;
      if params.Some? {
        more := AddNext(process, before, Op(raw.name, params.value), ops, memory);
      } else {
        assert ops + AcceptedOp(raw) == ops;
      }
    }

    /** The loop over the keys of [presets], after the adds so far. */
    method AddFromFile(process: Process, ghost before: seq<bool>, list: seq<RawPreset>, ghost ops: seq<Op>,
        ghost first: seq<bool>)
      returns (ghost memory: seq<bool>)
      requires Holds(process, before, ops, first)
      modifies presets, presets.buckets, presets.heap, process`allocations
      ensures Holds(process, before, ops + AcceptedOps(list), memory) == true && Grown()
    {
      memory := first;
      assert ops + AcceptedOps(list[..0]) == ops;
      for i := 0 to |list|
        invariant Holds(process, before, ops + AcceptedOps(list[..i]), memory) == true && Grown()
      {
        NextAccepted(list, i, ops);
        memory := AddRaw(process, before, list[i], ops + AcceptedOps(list[..i]), memory);
      }
      assert list[..|list|] == list;
    }

    /** The standard presets and then the file's. */
    method AddPresets(process: Process, ghost before: seq<bool>, file: File) returns (ghost memory: seq<bool>)
      requires Holds(process, before, [], []) && file.Parsed? && !BadDefaults(file)
      modifies presets, presets.buckets, presets.heap, process`allocations
      ensures Holds(process, before, FileOps(file), memory) == true && Grown()
    {
      memory := AddStandard(process, before, STANDARD);
      memory := AddFromFile(process, before, file.presets, STANDARD, memory);
    }

    /** config_free */
    method Free()
      requires Valid()
      modifies presets, presets.buckets
      ensures Valid() && presets.heap == {}
    {
      presets.Free();
    }

    /** config_validate */
    method Validate() returns (ok: bool)
      ensures ok <==> (hasDefaults ==> DaemonValid(defaults))
    {
      ok := !hasDefaults || DaemonValid(defaults);
    }

    /** resolve_preset for a name sent by a client, without override parameters. */
    method ResolveName(name: Name) returns (params: Params)
      requires Valid()
      ensures params == Resolve(Some(View()), Some(name), None)
    {
      var found := None;
      if name != [] {
        found := presets.Lookup(name);
      }
      params := if found.Some? then found.value else if hasDefaults then defaults else BUILTIN;
    }
  }

  /** A configuration nobody else knows. */
  twostate predicate FreshConfig(new c: DaemonConfig)
    reads c, c.presets
  {
    fresh(c) && fresh(c.presets) && fresh(c.presets.buckets) && fresh(c.presets.heap)
  }

  /** config_default */
  method DefaultConfig(process: Process) returns (c: DaemonConfig?, ghost memory: seq<bool>)
    modifies process`allocations
    ensures process.allocations == old(process.allocations) + DefaultOutcomes(c != null, memory)
    ensures c != null ==>
              && FreshConfig(c) && c.Valid()
              && c.View() == Settings(Some(BUILTIN), TryAddAll(Empty(), STANDARD, memory))
  {
    memory := [];
    var available := process.Allocate();
    if !available {
      return null, [];
    }
    c := new DaemonConfig();
    c.hasDefaults, c.defaults := true, BUILTIN;
    memory := c.AddStandard(process, process.allocations, STANDARD);
    AppendTwice(old(process.allocations), [true], Asked(Empty(), STANDARD, memory));
  }

  /** config_load, with the outcomes of its allocations. */
  method Load(process: Process, file: File) returns (c: DaemonConfig?, ghost m: Memory)
    modifies process`allocations
    ensures process.allocations == old(process.allocations) + LoadOutcomes(file, m)
    ensures c == null <==> NoConfig(file, m)
    ensures c != null ==> FreshConfig(c) && c.Valid() && LoadedWith(file, m) == Some(c.View())
    ensures c != null ==> DefaultsWritten(file, c.View()) == true
  {
    if !file.Parsed? {
      ghost var presets: seq<bool>;
      c, presets := DefaultConfig(process);
      DefaultsAreWritten(file, Memory(c != null, false, presets));
      return c, Memory(c != null, false, presets);
    }
    var available := process.Allocate();
    if !available {
      return null, Memory(false, false, []);
    }
    c, m := FromTables(process, file);
    DefaultsAreWritten(file, m);
    AppendTwice(old(process.allocations), [true], TableOutcomes(file, m));
  }

  /** config_load from the allocated configuration on. */
  method FromTables(process: Process, file: File) returns (c: DaemonConfig?, ghost m: Memory)
    requires file.Parsed?
    modifies process`allocations
    ensures m.config && process.allocations == old(process.allocations) + TableOutcomes(file, m)
    ensures c == null <==> NoConfig(file, m)
    ensures c != null ==> FreshConfig(c) && c.Valid() && LoadedWith(file, m) == Some(c.View())
  {
    c := new DaemonConfig();
    ghost var presets: seq<bool>;
    var ok := c.SetDefaults(file);
    if !ok {
      c.Free();
      c, presets := DefaultConfig(process);
      return c, Memory(true, c != null, presets);
    }
    presets := c.AddPresets(process, process.allocations, file);
    m := Memory(true, false, presets);
  }

  /** The load and the validation of handle_config_reload. */
  method LoadForReload(process: Process, file: File) returns (c: DaemonConfig?, ghost m: Memory)
    modifies process`allocations
    ensures process.allocations == old(process.allocations) + LoadOutcomes(file, m)
    ensures c == null <==> NoConfig(file, m)
    ensures c != null ==> FreshConfig(c) && c.Valid() && LoadedWith(file, m) == Some(c.View())
    ensures c != null ==> DefaultsWritten(file, c.View()) == true
  {
    c, m := Load(process, file);
    if c == null {
      return;
    }
    LoadedIsClean(file, m);
    var valid := c.Validate();
    if !valid {
      assert false;  // what config_load returns always validates, so nothing is rejected here
    }
  }
}
