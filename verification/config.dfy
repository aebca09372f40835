/**
 * parse_args (srsenb/src/main.cc:51-317): the early exits, the two stores
 * of the variables map, the conversion of the identifiers, the MCC/MNC
 * check and the cascade of the "all" log settings onto the seven layers.
 *
 * all_args_t is a plain record that parse_args fills in and main then only
 * reads, so it is modelled as a value.  Its fields that an option is bound
 * to are kept in `fields`, keyed by that option; the five identifiers that
 * parse_args derives from text are fields of their own.  What the record
 * held when parse_args starts (main declares it uninitialised) is the
 * parameter `init`.
 */
module Config {
  import opened Prelude
  import opened Options
  import Hex

  datatype AllArgs = AllArgs(
    fields: map<Key, Value>,
    enbId: u32,
    cellId: u8,
    tac: u16,
    mcc: u16,
    mnc: u16)

  /** The message printed when the MCC or MNC text does not convert. */
  datatype Warning = BadMcc(mcc: string) | BadMnc(mnc: string)

  /**
   * How parse_args ends: the process exits with a code, an exception that
   * boost::program_options throws leaves parse_args uncaught (the process
   * terminates), or args is filled in.
   */
  datatype Outcome = Exit(code: int) | Uncaught | Configured(args: AllArgs, warnings: seq<Warning>)

  /**
   * srslte::string_to_mcc / string_to_mnc: Some(code) when the text
   * converts, None otherwise.  Their rules are not part of this model.
   */
  type Codec = string -> Option<u16>

  /** Options whose value notify writes into a field of all_args_t. */
  predicate IsBound(k: Key) {
    IsCommon(k) && !IsIdentifier(k)
  }

  /** The five identifiers parse_args reads into a string and converts itself. */
  predicate IsIdentifier(k: Key) {
    k.Enb? && (match k.enb
               case EnbId | CellId | Tac | Mcc | Mnc => true
               case _ => false)
  }

  /** The per-layer log options, which the cascade may fill in. */
  predicate IsLayerKey(k: Key) {
    k.Log? && (k.log.Level? || k.log.HexLimit?)
  }

  /** bpo::notify: every bound field whose option has a value takes that value. */
  function Notify(vm: VarMap, args: AllArgs): (r: AllArgs)
    ensures forall k | IsBound(k) && k in vm :: k in r.fields && r.fields[k] == vm[k].value
    ensures forall k | !(IsBound(k) && k in vm) ::
      (k in r.fields <==> k in args.fields) && (k in args.fields ==> r.fields[k] == args.fields[k])
    ensures r.enbId == args.enbId && r.cellId == args.cellId && r.tac == args.tac
    ensures r.mcc == args.mcc && r.mnc == args.mnc
  {
    args.(fields := args.fields + map k | k in vm && IsBound(k) :: vm[k].value)
  }

  /** The two per-layer log settings that have an "all" value to fall back on. */
  datatype Setting = LevelSetting | HexLimitSetting

  /** The option of one layer's setting: log.<layer>_level or log.<layer>_hex_limit. */
  function LayerKey(s: Setting, l: Layer): (k: Key)
    ensures IsBound(k) && !HasDefault(k) && IsLayerKey(k)
  {
    if s == LevelSetting then Log(Level(l)) else Log(HexLimit(l))
  }

  /** The option the cascade copies from: log.all_level or log.all_hex_limit. */
  function AllKey(s: Setting): (k: Key)
    ensures IsBound(k) && HasDefault(k) && !IsLayerKey(k)
  {
    if s == LevelSetting then Log(AllLevel) else Log(AllHexLimit)
  }

  predicate IsLayerKeyOf(s: Setting, k: Key) {
    k.Log? && (if s == LevelSetting then k.log.Level? else k.log.HexLimit?)
  }

  /**
   * Whether the cascade copies the "all" value into this layer's setting:
   * the "all" option has a value (lines 269 and 294) and the layer's own
   * option has none (lines 270, 273, ... and 295, 298, ...).
   */
  predicate Fills(vm: VarMap, s: Setting, l: Layer) {
    AllKey(s) in vm && LayerKey(s, l) !in vm
  }

  /**
   * r is `fields` after the cascade of setting s: a layer the user left
   * unset takes the "all" field, a layer the user set keeps its field, and
   * every field that is not this setting of some layer is unchanged.
   */
  ghost predicate Cascaded(vm: VarMap, s: Setting, fields: map<Key, Value>, r: map<Key, Value>)
    requires AllKey(s) in vm ==> AllKey(s) in fields
  {
    && (forall l: Layer :: LayerKey(s, l) in r <==> LayerKey(s, l) in fields || Fills(vm, s, l))
    && (forall l: Layer | LayerKey(s, l) in r ::
          r[LayerKey(s, l)] == if Fills(vm, s, l) then fields[AllKey(s)] else fields[LayerKey(s, l)])
    && (forall k | !IsLayerKeyOf(s, k) :: (k in r <==> k in fields) && (k in r ==> r[k] == fields[k]))
  }

  /** The cascade of one setting, as a map comprehension over the seven layers. */
  function CascadeOf(vm: VarMap, s: Setting, fields: map<Key, Value>): (r: map<Key, Value>)
    requires AllKey(s) in vm ==> AllKey(s) in fields
    ensures Cascaded(vm, s, fields, r)
  {
    FillersKeys(vm, s, fields);
    FillersValues(vm, s, fields);
    FillersOnlyLayers(vm, s, fields);
    fields + Fillers(vm, s, fields)
  }

  /** The per-layer fields a cascade block assigns, each to the "all" field. */
  function Fillers(vm: VarMap, s: Setting, fields: map<Key, Value>): map<Key, Value>
    requires AllKey(s) in vm ==> AllKey(s) in fields
  {
    map l | l in LAYERS && Fills(vm, s, l) :: LayerKey(s, l) := fields[AllKey(s)]
  }

  lemma FillersKeys(vm: VarMap, s: Setting, fields: map<Key, Value>)
    requires AllKey(s) in vm ==> AllKey(s) in fields
    ensures forall l: Layer :: LayerKey(s, l) in Fillers(vm, s, fields) <==> Fills(vm, s, l)
  {
    AllLayers();
    forall l: Layer
      ensures LayerKey(s, l) in Fillers(vm, s, fields) <==> Fills(vm, s, l)
    {
      if LayerKey(s, l) in Fillers(vm, s, fields) {
        var l' :| l' in LAYERS && Fills(vm, s, l') && LayerKey(s, l') == LayerKey(s, l);
        assert l' == l;
      }
    }
  }

  lemma FillersValues(vm: VarMap, s: Setting, fields: map<Key, Value>)
    requires AllKey(s) in vm ==> AllKey(s) in fields
    ensures forall k | k in Fillers(vm, s, fields) :: AllKey(s) in fields && Fillers(vm, s, fields)[k] == fields[AllKey(s)]
  {
  }

  lemma FillersOnlyLayers(vm: VarMap, s: Setting, fields: map<Key, Value>)
    requires AllKey(s) in vm ==> AllKey(s) in fields
    ensures forall k | k in Fillers(vm, s, fields) :: IsLayerKeyOf(s, k)
  {
  }

  /** A cascade result is determined by its inputs. */
  lemma CascadedUnique(vm: VarMap, s: Setting, fields: map<Key, Value>, r1: map<Key, Value>, r2: map<Key, Value>)
    requires AllKey(s) in vm ==> AllKey(s) in fields
    requires Cascaded(vm, s, fields, r1) && Cascaded(vm, s, fields, r2)
    ensures r1 == r2
  {
    forall k ensures (k in r1 <==> k in r2) && (k in r1 ==> r1[k] == r2[k]) {
      if IsLayerKeyOf(s, k) {
        assert k == LayerKey(s, k.log.layer);
      }
    }
  }

  /** Both cascades, levels first (lines 268-291), then hex limits (lines 293-316). */
  function Cascade(vm: VarMap, fields: map<Key, Value>): map<Key, Value>
    requires Log(AllLevel) in vm ==> Log(AllLevel) in fields
    requires Log(AllHexLimit) in vm ==> Log(AllHexLimit) in fields
  {
    var levels := CascadeOf(vm, LevelSetting, fields);
    assert !IsLayerKeyOf(LevelSetting, Log(AllHexLimit));
    CascadeOf(vm, HexLimitSetting, levels)
  }

  /** The order in which parse_args visits the layers. */
  const LAYER_ORDER: seq<Layer> := [Phy, Mac, Rlc, Pdcp, Rrc, Gtpu, S1ap]

  /** Where a layer stands in LAYER_ORDER. */
  function LayerIndex(l: Layer): (i: nat)
    ensures i < |LAYER_ORDER| && LAYER_ORDER[i] == l
  {
    match l
    case Phy => 0 case Mac => 1 case Rlc => 2 case Pdcp => 3
    case Rrc => 4 case Gtpu => 5 case S1ap => 6
  }

  /** LAYER_ORDER lists each layer once. */
  lemma LayerOrderDistinct(i: nat)
    requires i < |LAYER_ORDER|
    ensures LayerIndex(LAYER_ORDER[i]) == i
  {
  }

  /** Cascaded, for the layers before position n of LAYER_ORDER only. */
  ghost predicate CascadedUpTo(vm: VarMap, s: Setting, fields: map<Key, Value>, r: map<Key, Value>, n: nat)
    requires AllKey(s) in fields
  {
    && LayersPresentUpTo(vm, s, fields, r, n)
    && LayerValuesUpTo(vm, s, fields, r, n)
    && OthersUnchanged(s, fields, r)
  }

  ghost predicate LayersPresentUpTo(vm: VarMap, s: Setting, fields: map<Key, Value>, r: map<Key, Value>, n: nat) {
    forall l: Layer ::
      LayerKey(s, l) in r <==> LayerKey(s, l) in fields || (LayerIndex(l) < n && Fills(vm, s, l))
  }

  ghost predicate LayerValuesUpTo(vm: VarMap, s: Setting, fields: map<Key, Value>, r: map<Key, Value>, n: nat)
    requires AllKey(s) in fields && LayersPresentUpTo(vm, s, fields, r, n)
  {
    forall l: Layer | LayerKey(s, l) in r ::
      r[LayerKey(s, l)] == if LayerIndex(l) < n && Fills(vm, s, l) then fields[AllKey(s)] else fields[LayerKey(s, l)]
  }

  ghost predicate OthersUnchanged(s: Setting, fields: map<Key, Value>, r: map<Key, Value>) {
    forall k | !IsLayerKeyOf(s, k) :: (k in r <==> k in fields) && (k in r ==> r[k] == fields[k])
  }

  /** One statement of a cascade block extends the cascade by the next layer. */
  lemma CascadeStep(vm: VarMap, s: Setting, fields: map<Key, Value>, r: map<Key, Value>, i: nat)
    requires AllKey(s) in vm && AllKey(s) in fields && i < |LAYER_ORDER|
    requires CascadedUpTo(vm, s, fields, r, i)
    ensures var key := LayerKey(s, LAYER_ORDER[i]);
      CascadedUpTo(vm, s, fields, if key in vm then r else r[key := fields[AllKey(s)]], i + 1)
  {
    var key := LayerKey(s, LAYER_ORDER[i]);
    var r' := if key in vm then r else r[key := fields[AllKey(s)]];
    assert IsLayerKeyOf(s, key);
    LayersPresentStep(vm, s, fields, r, i);
    LayerValuesStep(vm, s, fields, r, i);
  }

  lemma LayersPresentStep(vm: VarMap, s: Setting, fields: map<Key, Value>, r: map<Key, Value>, i: nat)
    requires AllKey(s) in vm && AllKey(s) in fields && i < |LAYER_ORDER|
    requires LayersPresentUpTo(vm, s, fields, r, i)
    ensures var key := LayerKey(s, LAYER_ORDER[i]);
      LayersPresentUpTo(vm, s, fields, if key in vm then r else r[key := fields[AllKey(s)]], i + 1)
  {
    LayerOrderDistinct(i);
    var next := LAYER_ORDER[i];
    var key := LayerKey(s, next);
    var r' := if key in vm then r else r[key := fields[AllKey(s)]];
    forall l: Layer
      ensures LayerKey(s, l) in r' <==> LayerKey(s, l) in fields || (LayerIndex(l) < i + 1 && Fills(vm, s, l))
    {
      if l != next {
        assert LayerKey(s, l) != key;
        assert LayerIndex(l) < i + 1 <==> LayerIndex(l) < i;
      }
    }
  }

  lemma LayerValuesStep(vm: VarMap, s: Setting, fields: map<Key, Value>, r: map<Key, Value>, i: nat)
    requires AllKey(s) in vm && AllKey(s) in fields && i < |LAYER_ORDER|
    requires LayersPresentUpTo(vm, s, fields, r, i) && LayerValuesUpTo(vm, s, fields, r, i)
    requires var key := LayerKey(s, LAYER_ORDER[i]);
      LayersPresentUpTo(vm, s, fields, if key in vm then r else r[key := fields[AllKey(s)]], i + 1)
    ensures var key := LayerKey(s, LAYER_ORDER[i]);
      LayerValuesUpTo(vm, s, fields, if key in vm then r else r[key := fields[AllKey(s)]], i + 1)
  {
    LayerOrderDistinct(i);
    var next := LAYER_ORDER[i];
    var key := LayerKey(s, next);
    var r' := if key in vm then r else r[key := fields[AllKey(s)]];
    forall l: Layer | LayerKey(s, l) in r'
      ensures r'[LayerKey(s, l)] == if LayerIndex(l) < i + 1 && Fills(vm, s, l) then fields[AllKey(s)] else fields[LayerKey(s, l)]
    {
      if l != next {
        assert LayerKey(s, l) != key;
        assert LayerIndex(l) < i + 1 <==> LayerIndex(l) < i;
      }
    }
  }

  /** Before the first statement nothing is cascaded. */
  lemma CascadeStart(vm: VarMap, s: Setting, fields: map<Key, Value>)
    requires AllKey(s) in fields
    ensures CascadedUpTo(vm, s, fields, fields, 0)
  {
  }

  /** Without an "all" value the block changes nothing. */
  lemma CascadeWithoutAll(vm: VarMap, s: Setting, fields: map<Key, Value>)
    requires AllKey(s) !in vm
    ensures Cascaded(vm, s, fields, fields)
  {
  }

  /** After the seventh statement the block has cascaded every layer. */
  lemma CascadeComplete(vm: VarMap, s: Setting, fields: map<Key, Value>, r: map<Key, Value>)
    requires AllKey(s) in fields
    requires CascadedUpTo(vm, s, fields, r, |LAYER_ORDER|)
    ensures Cascaded(vm, s, fields, r)
  {
  }

  /**
   * One of the two cascade blocks: lines 268-291 for the levels, lines
   * 293-316 for the hex limits.  Each block repeats one statement for the
   * seven layers in LAYER_ORDER; the loop visits them in that order.
   */
  method ApplyAll(vm: VarMap, s: Setting, fields: map<Key, Value>) returns (r: map<Key, Value>)
    requires AllKey(s) in vm ==> AllKey(s) in fields
    ensures Cascaded(vm, s, fields, r)
  {
    r := fields;
    if AllKey(s) !in vm {
      CascadeWithoutAll(vm, s, fields);
    } else {
      var all := fields[AllKey(s)];
      CascadeStart(vm, s, fields);
      for i := 0 to |LAYER_ORDER|
        invariant CascadedUpTo(vm, s, fields, r, i)
      {
        CascadeStep(vm, s, fields, r, i);
        var key := LayerKey(s, LAYER_ORDER[i]);
        if key !in vm {
          r := r[key := all];
        }
      }
      CascadeComplete(vm, s, fields, r);
    }
  }

  /** Lines 268-316: the level block, then the hex-limit block. */
  method ApplyLogCascade(vm: VarMap, fields: map<Key, Value>) returns (r: map<Key, Value>)
    requires Log(AllLevel) in vm ==> Log(AllLevel) in fields
    requires Log(AllHexLimit) in vm ==> Log(AllHexLimit) in fields
    ensures r == Cascade(vm, fields)
  {
    var levels := ApplyAll(vm, LevelSetting, fields);
    CascadedUnique(vm, LevelSetting, fields, levels, CascadeOf(vm, LevelSetting, fields));
    assert !IsLayerKeyOf(LevelSetting, Log(AllHexLimit));
    r := ApplyAll(vm, HexLimitSetting, levels);
    CascadedUnique(vm, HexLimitSetting, levels, r, CascadeOf(vm, HexLimitSetting, levels));
  }

  /**
   * The store of the configuration file (line 236) goes through: the file
   * names only common options, and the values store converts have their type.
   */
  predicate FileAccepted(vm: VarMap, file: Source) {
    NamesCommonOnly(file) && Converts(vm, file)
  }

  /**
   * The enb_id, cell_id and tac texts that the variables map holds are
   * hexadecimal text whose value fits the integer it is read into.
   */
  predicate HexIdentifiersFit(vm: VarMap) {
    && (Enb(EnbId) in vm ==> vm[Enb(EnbId)].value.Str? && HexFits(vm[Enb(EnbId)].value.s, 0x1_0000_0000))
    && (Enb(CellId) in vm ==> vm[Enb(CellId)].value.Str? && HexFits(vm[Enb(CellId)].value.s, 0x1_0000))
    && (Enb(Tac) in vm ==> vm[Enb(Tac)].value.Str? && HexFits(vm[Enb(Tac)].value.s, 0x1_0000))
  }

  /**
   * The inputs whose std::hex conversions this model covers: when parse_args
   * gets as far as converting the identifiers, their effective texts are
   * hexadecimal and fit.  Any other input is covered, including the ones on
   * which parse_args exits or boost throws first.
   */
  predicate InputsOk(cmd: Source, files: map<string, Source>) {
    (&& CommandLineOk(cmd) && Help !in cmd && Version !in cmd
     && ConfigFile in cmd && cmd[ConfigFile].Str? && cmd[ConfigFile].s in files
     && FileAccepted(Store(map[], cmd), files[cmd[ConfigFile].s]))
    ==> HexIdentifiersFit(CommandLineThenFile(cmd, files[cmd[ConfigFile].s]))
  }

  /** The text of a string option that has a value. */
  function TextOf(vm: VarMap, k: Key): string
    requires k in vm && vm[k].value.Str?
  {
    vm[k].value.s
  }

  /**
   * The five identifier options have text values, and the three that are
   * read in base 16 are hexadecimal text that fits its destination.
   */
  predicate IdentifierTextsOk(vm: VarMap) {
    && Enb(EnbId) in vm && vm[Enb(EnbId)].value.Str? && HexFits(vm[Enb(EnbId)].value.s, 0x1_0000_0000)
    && Enb(CellId) in vm && vm[Enb(CellId)].value.Str? && HexFits(vm[Enb(CellId)].value.s, 0x1_0000)
    && Enb(Tac) in vm && vm[Enb(Tac)].value.Str? && HexFits(vm[Enb(Tac)].value.s, 0x1_0000)
    && Enb(Mcc) in vm && vm[Enb(Mcc)].value.Str?
    && Enb(Mnc) in vm && vm[Enb(Mnc)].value.Str?
  }

  /** A well-typed variables map with every default holds the five identifier texts. */
  lemma StoredIdentifierTexts(vm: VarMap)
    requires VarMapOk(vm) && HasAllDefaults(vm) && HexIdentifiersFit(vm)
    ensures IdentifierTextsOk(vm)
  {
    assert HasDefault(Enb(EnbId)) && HasDefault(Enb(CellId)) && HasDefault(Enb(Tac));
    assert HasDefault(Enb(Mcc)) && HasDefault(Enb(Mnc));
    assert Fits(Enb(EnbId), vm[Enb(EnbId)].value);
    assert Fits(Enb(CellId), vm[Enb(CellId)].value);
    assert Fits(Enb(Tac), vm[Enb(Tac)].value);
    assert Fits(Enb(Mcc), vm[Enb(Mcc)].value);
    assert Fits(Enb(Mnc), vm[Enb(Mnc)].value);
  }

  /**
   * Lines 240-266: the three identifiers read from base-16 text (the cell
   * id through a uint16_t narrowed to uint8_t), then MCC and MNC, each kept
   * at its previous value with a warning when its text does not convert.
   */
  function Identifiers(vm: VarMap, args: AllArgs, mccOf: Codec, mncOf: Codec): (r: (AllArgs, seq<Warning>))
    requires IdentifierTextsOk(vm)
    ensures r.0.fields == args.fields
  {
    var mccText := TextOf(vm, Enb(Mcc));
    var mncText := TextOf(vm, Enb(Mnc));
    var mcc := mccOf(mccText);
    var mnc := mncOf(mncText);
    var ids := args.(
      enbId := Hex.HexValue(TextOf(vm, Enb(EnbId))),
      cellId := NarrowToU8(Hex.HexValue(TextOf(vm, Enb(CellId)))),
      tac := Hex.HexValue(TextOf(vm, Enb(Tac))),
      mcc := if mcc.Some? then mcc.value else args.mcc,
      mnc := if mnc.Some? then mnc.value else args.mnc);
    var warnings :=
      (if mcc.None? then [BadMcc(mccText)] else []) + (if mnc.None? then [BadMnc(mncText)] else []);
    (ids, warnings)
  }

  /** The steps after the configuration file is stored (lines 240-316). */
  function Finish(vm: VarMap, args: AllArgs, mccOf: Codec, mncOf: Codec): Outcome
    requires IdentifierTextsOk(vm)
    requires Log(AllLevel) in args.fields && Log(AllHexLimit) in args.fields
  {
    var (ids, warnings) := Identifiers(vm, args, mccOf, mncOf);
    Configured(ids.(fields := Cascade(vm, ids.fields)), warnings)
  }

  /** Lines 240-266, statement by statement. */
  method ConvertIdentifiers(vm: VarMap, args: AllArgs, mccOf: Codec, mncOf: Codec)
    returns (ids: AllArgs, warnings: seq<Warning>)
    requires IdentifierTextsOk(vm)
    ensures (ids, warnings) == Identifiers(vm, args, mccOf, mncOf)
  {
    ids := args.(enbId := Hex.HexValue(TextOf(vm, Enb(EnbId))));
    var tmp: u16 := Hex.HexValue(TextOf(vm, Enb(CellId)));
    ids := ids.(cellId := NarrowToU8(tmp));
    ids := ids.(tac := Hex.HexValue(TextOf(vm, Enb(Tac))));

    warnings := [];
    var mccText := TextOf(vm, Enb(Mcc));
    var mcc := mccOf(mccText);
    if mcc.None? {
      warnings := warnings + [BadMcc(mccText)];
    } else {
      ids := ids.(mcc := mcc.value);
    }
    var mncText := TextOf(vm, Enb(Mnc));
    var mnc := mncOf(mncText);
    if mnc.None? {
      warnings := warnings + [BadMnc(mncText)];
    } else {
      ids := ids.(mnc := mnc.value);
    }
    ghost var (ids', warnings') := Identifiers(vm, args, mccOf, mncOf);
    assert ids.fields == ids'.fields;
    assert ids.enbId == ids'.enbId;
    assert ids.cellId == ids'.cellId;
    assert ids.tac == ids'.tac;
    assert ids.mcc == ids'.mcc;
    assert ids.mnc == ids'.mnc;
    assert warnings == warnings';
  }

  /** What parse_args does with the parsed command line and the readable files. */
  function ParseArgsSpec(init: AllArgs, cmd: Source, files: map<string, Source>,
                         mccOf: Codec, mncOf: Codec): Outcome
    requires InputsOk(cmd, files)
  {
    if !CommandLineOk(cmd) then Uncaught
    else
      var vm := Store(map[], cmd);
      if Help in vm then Exit(0)
      else if Version in vm then Exit(0)
      else if ConfigFile !in vm then Exit(0)
      else
        assert vm[ConfigFile] == Entry(cmd[ConfigFile], false);
        assert Fits(ConfigFile, cmd[ConfigFile]);
        if TextOf(vm, ConfigFile) !in files then Exit(1)
        else
          var file := files[TextOf(vm, ConfigFile)];
          Configure(vm, file, Notify(vm, init), mccOf, mncOf)
  }

  /** Lines 236-316: the file is stored and notified, then Finish. */
  function Configure(vm: VarMap, file: Source, args: AllArgs, mccOf: Codec, mncOf: Codec): Outcome
    requires VarMapOk(vm)
    requires FileAccepted(vm, file) ==> HexIdentifiersFit(Store(vm, file))
  {
    if !FileAccepted(vm, file) then Uncaught
    else
      var merged := Store(vm, file);
      assert AllKey(LevelSetting) == Log(AllLevel) && AllKey(HexLimitSetting) == Log(AllHexLimit);
      StoredIdentifierTexts(merged);
      Finish(merged, Notify(merged, args), mccOf, mncOf)
  }

  /**
   * parse_args, statement by statement.  `files` maps each path that opens
   * for reading to the options parsed from it; exit(code) ends the run.
   */
  method ParseArgs(init: AllArgs, cmd: Source, files: map<string, Source>,
                   mccOf: Codec, mncOf: Codec) returns (outcome: Outcome)
    requires InputsOk(cmd, files)
    ensures outcome == ParseArgsSpec(init, cmd, files, mccOf, mncOf)
  {
    if !CommandLineOk(cmd) {
      return Uncaught;
    }
    var vm := Store(map[], cmd);
    var args := Notify(vm, init);
    if Help in vm {
      return Exit(0);
    }
    if Version in vm {
      return Exit(0);
    }
    if ConfigFile !in vm {
      return Exit(0);
    }
    assert vm[ConfigFile] == Entry(cmd[ConfigFile], false);
    assert Fits(ConfigFile, cmd[ConfigFile]);
    var configFile := TextOf(vm, ConfigFile);
    if configFile !in files {
      return Exit(1);
    }
    outcome := ApplyConfigFile(vm, files[configFile], args, mccOf, mncOf);
  }

  /** Lines 236-316, statement by statement. */
  method ApplyConfigFile(vm: VarMap, file: Source, args: AllArgs, mccOf: Codec, mncOf: Codec)
    returns (outcome: Outcome)
    requires VarMapOk(vm)
    requires FileAccepted(vm, file) ==> HexIdentifiersFit(Store(vm, file))
    ensures outcome == Configure(vm, file, args, mccOf, mncOf)
  {
    if !FileAccepted(vm, file) {
      return Uncaught;
    }
    var merged := Store(vm, file);
    var notified := Notify(merged, args);
    assert AllKey(LevelSetting) == Log(AllLevel) && AllKey(HexLimitSetting) == Log(AllHexLimit);
    StoredIdentifierTexts(merged);
    var ids, warnings := ConvertIdentifiers(merged, notified, mccOf, mncOf);
    var fields := ApplyLogCascade(merged, ids.fields);
    return Configured(ids.(fields := fields), warnings);
  }
}
