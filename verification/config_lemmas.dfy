/**
 * What parse_args promises its caller, stated against the parsed command
 * line and configuration file rather than against the variables map.
 */
module ConfigLemmas {
  import opened Prelude
  import opened Options
  import opened Config
  import Hex

  /**
   * The value an option ends up with under the precedence of the two
   * stores: the command line, else the configuration file, else the
   * declared default; None when none of the three gives one.
   */
  function Effective(cmd: Source, file: Source, k: Key): (v: Option<Value>)
    ensures v.None? <==> k !in cmd && k !in file && !HasDefault(k)
  {
    if k in cmd then Some(cmd[k]) else if k in file then Some(file[k]) else Default(k)
  }

  /** The variables map after both stores holds exactly the effective values. */
  lemma MergedIsEffective(cmd: Source, file: Source, k: Key)
    ensures var merged := CommandLineThenFile(cmd, file);
      && (k in merged <==> Effective(cmd, file, k).Some?)
      && (k in merged ==> merged[k].value == Effective(cmd, file, k).value)
  {
  }

  /**
   * The log cascade of lines 268-316, both blocks together: a layer whose
   * own option has no value takes the "all" field, a layer whose option has
   * a value keeps its field, and no field other than the fourteen per-layer
   * settings changes.
   */
  lemma CascadeResolvesLayers(vm: VarMap, fields: map<Key, Value>, s: Setting, l: Layer)
    requires Log(AllLevel) in vm ==> Log(AllLevel) in fields
    requires Log(AllHexLimit) in vm ==> Log(AllHexLimit) in fields
    ensures var r := Cascade(vm, fields);
      && (Fills(vm, s, l) ==> LayerKey(s, l) in r && r[LayerKey(s, l)] == fields[AllKey(s)])
      && (!Fills(vm, s, l) ==>
            (LayerKey(s, l) in r <==> LayerKey(s, l) in fields)
            && (LayerKey(s, l) in r ==> r[LayerKey(s, l)] == fields[LayerKey(s, l)]))
  {
    assert !IsLayerKeyOf(LevelSetting, Log(AllHexLimit));
    if s == LevelSetting {
      assert !IsLayerKeyOf(HexLimitSetting, LayerKey(s, l));
    } else {
      assert !IsLayerKeyOf(LevelSetting, LayerKey(s, l));
      assert !IsLayerKeyOf(LevelSetting, AllKey(s));
    }
  }

  /** The cascade changes no field other than the per-layer log settings. */
  lemma CascadeKeepsOtherFields(vm: VarMap, fields: map<Key, Value>, k: Key)
    requires Log(AllLevel) in vm ==> Log(AllLevel) in fields
    requires Log(AllHexLimit) in vm ==> Log(AllHexLimit) in fields
    requires !IsLayerKey(k)
    ensures var r := Cascade(vm, fields);
      (k in r <==> k in fields) && (k in r ==> r[k] == fields[k])
  {
    assert !IsLayerKeyOf(LevelSetting, Log(AllHexLimit));
    assert !IsLayerKeyOf(LevelSetting, k) && !IsLayerKeyOf(HexLimitSetting, k);
  }

  /**
   * The command line gets through its store and past the three early exits,
   * and names a file that opens.
   */
  predicate ReadsConfigFile(cmd: Source, files: map<string, Source>, path: string) {
    && CommandLineOk(cmd) && Help !in cmd && Version !in cmd
    && ConfigFile in cmd && cmd[ConfigFile] == Str(path) && path in files
  }

  /**
   * The inputs on which lines 236-316 return: the command line and the file
   * get through their stores, and the identifier texts to convert are
   * hexadecimal text that fits.
   */
  predicate ConfigureOk(cmd: Source, file: Source) {
    && CommandLineOk(cmd)
    && FileAccepted(Store(map[], cmd), file)
    && HexIdentifiersFit(CommandLineThenFile(cmd, file))
  }

  /** Once the file opens, parse_args is Configure on the command-line variables map. */
  lemma ReachesConfigure(init: AllArgs, cmd: Source, files: map<string, Source>,
                         mccOf: Codec, mncOf: Codec, path: string)
    requires InputsOk(cmd, files) && ReadsConfigFile(cmd, files, path)
    ensures var vm := Store(map[], cmd);
      && VarMapOk(vm)
      && (FileAccepted(vm, files[path]) ==> ConfigureOk(cmd, files[path]))
      && ParseArgsSpec(init, cmd, files, mccOf, mncOf) == Configure(vm, files[path], Notify(vm, init), mccOf, mncOf)
  {
    var vm := Store(map[], cmd);
    assert !HasDefault(Help) && !HasDefault(Version);
    assert vm[ConfigFile] == Entry(cmd[ConfigFile], false);
    assert Help !in vm && Version !in vm;
    assert TextOf(vm, ConfigFile) == path;
  }

  /** A layer's setting and its "all" setting in the merged variables map. */
  lemma MergedLayerSetting(cmd: Source, file: Source, s: Setting, l: Layer)
    ensures var merged := CommandLineThenFile(cmd, file);
      var own := Effective(cmd, file, LayerKey(s, l));
      var all := Effective(cmd, file, AllKey(s));
      && AllKey(s) in merged && all.Some? && merged[AllKey(s)].value == all.value
      && (LayerKey(s, l) in merged <==> own.Some?)
      && (own.Some? ==> merged[LayerKey(s, l)].value == own.value)
  {
    MergedIsEffective(cmd, file, AllKey(s));
    MergedIsEffective(cmd, file, LayerKey(s, l));
  }

  /** The same, once the command line and the file are stored in that order. */
  lemma ConfiguredLayer(cmd: Source, file: Source, args: AllArgs, mccOf: Codec, mncOf: Codec, s: Setting, l: Layer)
    requires ConfigureOk(cmd, file)
    ensures var out := Configure(Store(map[], cmd), file, args, mccOf, mncOf);
      var own := Effective(cmd, file, LayerKey(s, l));
      var all := Effective(cmd, file, AllKey(s));
      && out.Configured? && all.Some?
      && LayerKey(s, l) in out.args.fields
      && out.args.fields[LayerKey(s, l)] == (if own.Some? then own.value else all.value)
  {
    var vm := Store(map[], cmd);
    var merged := Store(vm, file);
    var notified := Notify(merged, args);
    assert AllKey(LevelSetting) == Log(AllLevel) && AllKey(HexLimitSetting) == Log(AllHexLimit);
    CascadeResolvesLayers(merged, notified.fields, s, l);
    MergedLayerSetting(cmd, file, s, l);
  }

  /**
   * Every layer's log level and hex limit is the one the user gave for
   * that layer (command line first, then file), else the effective "all"
   * value; the record parse_args started from plays no part.
   */
  lemma LayerLogSetting(init: AllArgs, cmd: Source, files: map<string, Source>,
                        mccOf: Codec, mncOf: Codec, path: string, s: Setting, l: Layer)
    requires InputsOk(cmd, files) && ReadsConfigFile(cmd, files, path)
    requires FileAccepted(Store(map[], cmd), files[path])
    ensures var out := ParseArgsSpec(init, cmd, files, mccOf, mncOf);
      var own := Effective(cmd, files[path], LayerKey(s, l));
      var all := Effective(cmd, files[path], AllKey(s));
      && out.Configured? && all.Some?
      && LayerKey(s, l) in out.args.fields
      && out.args.fields[LayerKey(s, l)] == (if own.Some? then own.value else all.value)
  {
    ReachesConfigure(init, cmd, files, mccOf, mncOf, path);
    var vm := Store(map[], cmd);
    ConfiguredLayer(cmd, files[path], Notify(vm, init), mccOf, mncOf, s, l);
  }

  /**
   * Every other option bound to a field of all_args_t ends up with its
   * effective value, and a field no option is bound to keeps what it held.
   */
  lemma ConfiguredOption(cmd: Source, file: Source, args: AllArgs, mccOf: Codec, mncOf: Codec, k: Key)
    requires ConfigureOk(cmd, file)
    requires !IsLayerKey(k)
    ensures var out := Configure(Store(map[], cmd), file, args, mccOf, mncOf);
      && out.Configured?
      && (IsBound(k) ==>
            && Effective(cmd, file, k).Some?
            && k in out.args.fields && out.args.fields[k] == Effective(cmd, file, k).value)
      && (!IsBound(k) ==>
            && (k in out.args.fields <==> k in args.fields)
            && (k in args.fields ==> out.args.fields[k] == args.fields[k]))
  {
    var vm := Store(map[], cmd);
    var merged := Store(vm, file);
    var notified := Notify(merged, args);
    assert AllKey(LevelSetting) == Log(AllLevel) && AllKey(HexLimitSetting) == Log(AllHexLimit);
    CascadeKeepsOtherFields(merged, notified.fields, k);
    MergedIsEffective(cmd, file, k);
  }

  /** The effective identifier texts are the ones in the merged map, and they fit. */
  lemma MergedIdentifierTexts(cmd: Source, file: Source)
    requires ConfigureOk(cmd, file)
    ensures var merged := CommandLineThenFile(cmd, file);
      var enbId := Effective(cmd, file, Enb(EnbId));
      var cellId := Effective(cmd, file, Enb(CellId));
      var tac := Effective(cmd, file, Enb(Tac));
      var mcc := Effective(cmd, file, Enb(Mcc));
      var mnc := Effective(cmd, file, Enb(Mnc));
      && enbId.Some? && enbId.value.Str? && HexFits(enbId.value.s, 0x1_0000_0000)
      && cellId.Some? && cellId.value.Str? && HexFits(cellId.value.s, 0x1_0000)
      && tac.Some? && tac.value.Str? && HexFits(tac.value.s, 0x1_0000)
      && mcc.Some? && mcc.value.Str? && mnc.Some? && mnc.value.Str?
      && merged[Enb(EnbId)].value == enbId.value
      && merged[Enb(CellId)].value == cellId.value
      && merged[Enb(Tac)].value == tac.value
      && merged[Enb(Mcc)].value == mcc.value
      && merged[Enb(Mnc)].value == mnc.value
  {
    var merged := CommandLineThenFile(cmd, file);
    MergedIsEffective(cmd, file, Enb(EnbId));
    MergedIsEffective(cmd, file, Enb(CellId));
    MergedIsEffective(cmd, file, Enb(Tac));
    MergedIsEffective(cmd, file, Enb(Mcc));
    MergedIsEffective(cmd, file, Enb(Mnc));
    StoredIdentifierTexts(merged);
  }

  /**
   * Lines 240-255: enb_id and tac are the base-16 values of their effective
   * texts, and cell_id is the base-16 value of its text modulo 256.
   */
  lemma ConfiguredIdentifiers(cmd: Source, file: Source, args: AllArgs, mccOf: Codec, mncOf: Codec)
    requires ConfigureOk(cmd, file)
    ensures var out := Configure(Store(map[], cmd), file, args, mccOf, mncOf);
      var enbId := Effective(cmd, file, Enb(EnbId));
      var cellId := Effective(cmd, file, Enb(CellId));
      var tac := Effective(cmd, file, Enb(Tac));
      && out.Configured?
      && enbId.Some? && enbId.value.Str? && HexFits(enbId.value.s, 0x1_0000_0000)
      && cellId.Some? && cellId.value.Str? && HexFits(cellId.value.s, 0x1_0000)
      && tac.Some? && tac.value.Str? && HexFits(tac.value.s, 0x1_0000)
      && out.args.enbId == Hex.HexValue(enbId.value.s)
      && out.args.cellId == Hex.HexValue(cellId.value.s) % 0x100
      && out.args.tac == Hex.HexValue(tac.value.s)
  {
    MergedIdentifierTexts(cmd, file);
  }

  /**
   * Lines 258-263: MCC and MNC take the converted code of their effective
   * text; a text that does not convert leaves the previous code and adds
   * one warning, and parse_args carries on.
   */
  lemma ConfiguredMccMnc(cmd: Source, file: Source, args: AllArgs, mccOf: Codec, mncOf: Codec)
    requires ConfigureOk(cmd, file)
    ensures var out := Configure(Store(map[], cmd), file, args, mccOf, mncOf);
      var mcc := Effective(cmd, file, Enb(Mcc));
      var mnc := Effective(cmd, file, Enb(Mnc));
      && out.Configured?
      && mcc.Some? && mcc.value.Str? && mnc.Some? && mnc.value.Str?
      && out.args.mcc == (if mccOf(mcc.value.s).Some? then mccOf(mcc.value.s).value else args.mcc)
      && out.args.mnc == (if mncOf(mnc.value.s).Some? then mncOf(mnc.value.s).value else args.mnc)
      && out.warnings ==
           (if mccOf(mcc.value.s).None? then [BadMcc(mcc.value.s)] else [])
           + (if mncOf(mnc.value.s).None? then [BadMnc(mnc.value.s)] else [])
  {
    MergedIdentifierTexts(cmd, file);
  }

  /**
   * The codecs decide the MCC, the MNC and the warnings and nothing else:
   * a code that does not convert never changes whether parse_args returns,
   * nor any other field.
   */
  lemma CodecsOnlyReachMccMnc(vm: VarMap, file: Source, args: AllArgs,
                              mccOf: Codec, mncOf: Codec, mccOf': Codec, mncOf': Codec)
    requires VarMapOk(vm)
    requires FileAccepted(vm, file) ==> HexIdentifiersFit(Store(vm, file))
    ensures var out := Configure(vm, file, args, mccOf, mncOf);
      var out' := Configure(vm, file, args, mccOf', mncOf');
      && (out.Configured? <==> out'.Configured?)
      && (out.Configured? ==>
            && out.args.fields == out'.args.fields
            && out.args.enbId == out'.args.enbId
            && out.args.cellId == out'.args.cellId
            && out.args.tac == out'.args.tac)
  {
  }

  /**
   * Lines 204-238: a command-line value that does not convert makes the
   * first store throw; then help, version and a missing configuration file
   * end parse_args with exit code 0, and a file that does not open ends it
   * with exit code 1, each before any file is read, converted or cascaded,
   * so the outcome depends on the command line (and whether the file opens)
   * alone.  A file the second store rejects makes it throw; otherwise
   * parse_args returns the configured record.
   */
  lemma EarlyExits(init: AllArgs, cmd: Source, files: map<string, Source>, mccOf: Codec, mncOf: Codec)
    requires InputsOk(cmd, files)
    ensures var out := ParseArgsSpec(init, cmd, files, mccOf, mncOf);
      var ok := CommandLineOk(cmd);
      && (!ok ==> out == Uncaught)
      && (ok && Help in cmd ==> out == Exit(0))
      && (ok && Help !in cmd && Version in cmd ==> out == Exit(0))
      && (ok && Help !in cmd && Version !in cmd && ConfigFile !in cmd ==> out == Exit(0))
      && ((ok && Help !in cmd && Version !in cmd && ConfigFile in cmd && cmd[ConfigFile].Str?
             && cmd[ConfigFile].s !in files) ==> out == Exit(1))
      && (out.Configured? <==>
            && ok && Help !in cmd && Version !in cmd && ConfigFile in cmd && cmd[ConfigFile].Str?
            && cmd[ConfigFile].s in files && FileAccepted(Store(map[], cmd), files[cmd[ConfigFile].s]))
  {
    if CommandLineOk(cmd) {
      var vm := Store(map[], cmd);
      assert !HasDefault(Help) && !HasDefault(Version) && !HasDefault(ConfigFile);
      assert Help in vm <==> Help in cmd;
      assert Version in vm <==> Version in cmd;
      assert ConfigFile in vm <==> ConfigFile in cmd;
      if Help !in cmd && Version !in cmd && ConfigFile in cmd {
        assert Fits(ConfigFile, cmd[ConfigFile]);
        ReachesConfigureOrExits(init, cmd, files, mccOf, mncOf);
      }
    }
  }

  /**
   * Past the early exits, parse_args exits with 1 when the file does not
   * open, throws when the store of the file does, and configures otherwise.
   */
  lemma ReachesConfigureOrExits(init: AllArgs, cmd: Source, files: map<string, Source>, mccOf: Codec, mncOf: Codec)
    requires InputsOk(cmd, files)
    requires CommandLineOk(cmd) && Help !in cmd && Version !in cmd && ConfigFile in cmd && cmd[ConfigFile].Str?
    ensures var out := ParseArgsSpec(init, cmd, files, mccOf, mncOf);
      var path := cmd[ConfigFile].s;
      && (path !in files ==> out == Exit(1))
      && (path in files && FileAccepted(Store(map[], cmd), files[path]) ==> out.Configured?)
      && (path in files && !FileAccepted(Store(map[], cmd), files[path]) ==> out == Uncaught)
  {
    var vm := Store(map[], cmd);
    assert !HasDefault(Help) && !HasDefault(Version);
    assert vm[ConfigFile] == Entry(cmd[ConfigFile], false);
    assert Help !in vm && Version !in vm;
    assert TextOf(vm, ConfigFile) == cmd[ConfigFile].s;
  }

  /**
   * The second store skips an option given on the command line before it
   * converts the file's value (line 236): whatever the file says for such an
   * option, the store goes through exactly when it did, and the identifier
   * texts parse_args converts are the same.
   */
  lemma FileValueOfCommandLineOption(cmd: Source, file: Source, k: Key, v: Value)
    requires k in cmd && IsCommon(k)
    ensures FileAccepted(Store(map[], cmd), file[k := v]) <==> FileAccepted(Store(map[], cmd), file)
    ensures HexIdentifiersFit(CommandLineThenFile(cmd, file[k := v])) <==> HexIdentifiersFit(CommandLineThenFile(cmd, file))
  {
    var vm := Store(map[], cmd);
    var file' := file[k := v];
    assert IsFinal(vm, k);
    assert NamesCommonOnly(file') <==> NamesCommonOnly(file) by {
      forall j | j in file' && j != k ensures j in file && file'[j] == file[j] {}
    }
    assert Converts(vm, file') <==> Converts(vm, file) by {
      forall j | j != k ensures (j in file' <==> j in file) && (j in file ==> file'[j] == file[j]) {}
    }
    MergedIgnoresFileValue(cmd, file, k, v, Enb(EnbId));
    MergedIgnoresFileValue(cmd, file, k, v, Enb(CellId));
    MergedIgnoresFileValue(cmd, file, k, v, Enb(Tac));
  }

  /** The merged entry of any option is the same whatever the file says for a command-line option. */
  lemma MergedIgnoresFileValue(cmd: Source, file: Source, k: Key, v: Value, j: Key)
    requires k in cmd
    ensures var merged := CommandLineThenFile(cmd, file);
      var merged' := CommandLineThenFile(cmd, file[k := v]);
      (j in merged' <==> j in merged) && (j in merged ==> merged'[j] == merged[j])
  {
    if j !in cmd {
      assert j != k;
      assert j in file[k := v] <==> j in file;
      if j in file {
        assert file[k := v][j] == file[j];
      }
    }
  }

  /**
   * Every option parse_args binds, other than the per-layer log settings,
   * holds its effective value; an option it does not bind keeps the value
   * of the record parse_args was given.
   */
  lemma OptionValue(init: AllArgs, cmd: Source, files: map<string, Source>,
                    mccOf: Codec, mncOf: Codec, path: string, k: Key)
    requires InputsOk(cmd, files) && ReadsConfigFile(cmd, files, path)
    requires FileAccepted(Store(map[], cmd), files[path])
    requires !IsLayerKey(k)
    ensures var out := ParseArgsSpec(init, cmd, files, mccOf, mncOf);
      var eff := Effective(cmd, files[path], k);
      && out.Configured?
      && (IsBound(k) && eff.Some? ==> k in out.args.fields && out.args.fields[k] == eff.value)
      && (!IsBound(k) ==>
            && (k in out.args.fields <==> k in init.fields)
            && (k in init.fields ==> out.args.fields[k] == init.fields[k]))
  {
    ReachesConfigure(init, cmd, files, mccOf, mncOf, path);
    var vm := Store(map[], cmd);
    ConfiguredOption(cmd, files[path], Notify(vm, init), mccOf, mncOf, k);
  }

  /** An option given on the command line keeps that value whatever the file says. */
  lemma CommandLineWins(init: AllArgs, cmd: Source, files: map<string, Source>,
                        mccOf: Codec, mncOf: Codec, path: string, k: Key)
    requires InputsOk(cmd, files) && ReadsConfigFile(cmd, files, path)
    requires FileAccepted(Store(map[], cmd), files[path])
    requires IsBound(k) && k in cmd
    ensures var out := ParseArgsSpec(init, cmd, files, mccOf, mncOf);
      out.Configured? && k in out.args.fields && out.args.fields[k] == cmd[k]
  {
    if IsLayerKey(k) {
      var s := if k.log.Level? then LevelSetting else HexLimitSetting;
      assert k == LayerKey(s, k.log.layer);
      LayerLogSetting(init, cmd, files, mccOf, mncOf, path, s, k.log.layer);
    } else {
      OptionValue(init, cmd, files, mccOf, mncOf, path, k);
    }
  }

  /** ConfiguredIdentifiers, for parse_args as a whole. */
  lemma IdentifiersFromText(init: AllArgs, cmd: Source, files: map<string, Source>,
                            mccOf: Codec, mncOf: Codec, path: string)
    requires InputsOk(cmd, files) && ReadsConfigFile(cmd, files, path)
    requires FileAccepted(Store(map[], cmd), files[path])
    ensures var out := ParseArgsSpec(init, cmd, files, mccOf, mncOf);
      var enbId := Effective(cmd, files[path], Enb(EnbId));
      var cellId := Effective(cmd, files[path], Enb(CellId));
      var tac := Effective(cmd, files[path], Enb(Tac));
      && out.Configured?
      && enbId.Some? && enbId.value.Str? && HexFits(enbId.value.s, 0x1_0000_0000)
      && cellId.Some? && cellId.value.Str? && HexFits(cellId.value.s, 0x1_0000)
      && tac.Some? && tac.value.Str? && HexFits(tac.value.s, 0x1_0000)
      && out.args.enbId == Hex.HexValue(enbId.value.s)
      && out.args.cellId == Hex.HexValue(cellId.value.s) % 0x100
      && out.args.tac == Hex.HexValue(tac.value.s)
  {
    ReachesConfigure(init, cmd, files, mccOf, mncOf, path);
    var vm := Store(map[], cmd);
    ConfiguredIdentifiers(cmd, files[path], Notify(vm, init), mccOf, mncOf);
  }

  /**
   * ConfiguredMccMnc, for parse_args as a whole: a code that does not
   * convert leaves the one in the record parse_args was given.
   */
  lemma MccMncFromText(init: AllArgs, cmd: Source, files: map<string, Source>,
                       mccOf: Codec, mncOf: Codec, path: string)
    requires InputsOk(cmd, files) && ReadsConfigFile(cmd, files, path)
    requires FileAccepted(Store(map[], cmd), files[path])
    ensures var out := ParseArgsSpec(init, cmd, files, mccOf, mncOf);
      var mcc := Effective(cmd, files[path], Enb(Mcc));
      var mnc := Effective(cmd, files[path], Enb(Mnc));
      && out.Configured?
      && mcc.Some? && mcc.value.Str? && mnc.Some? && mnc.value.Str?
      && out.args.mcc == (if mccOf(mcc.value.s).Some? then mccOf(mcc.value.s).value else init.mcc)
      && out.args.mnc == (if mncOf(mnc.value.s).Some? then mncOf(mnc.value.s).value else init.mnc)
      && out.warnings ==
           (if mccOf(mcc.value.s).None? then [BadMcc(mcc.value.s)] else [])
           + (if mncOf(mnc.value.s).None? then [BadMnc(mnc.value.s)] else [])
  {
    ReachesConfigure(init, cmd, files, mccOf, mncOf, path);
    var vm := Store(map[], cmd);
    ConfiguredMccMnc(cmd, files[path], Notify(vm, init), mccOf, mncOf);
  }
}
