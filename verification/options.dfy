/**
 * The option table of parse_args (srsenb/src/main.cc:59-196) and the
 * variables map that boost::program_options fills from it.
 *
 * Tokenising argv and the INI text is library work outside this model: a
 * parsed source is already a map from option to typed value.  What is
 * modelled is what `store` does with such a map (an explicitly stored value
 * is final, a later store never replaces it; a declared default fills every
 * option left without a value and yields to a later explicit value) and the
 * declared kinds and defaults of every option.
 */
module Options {
  import opened Prelude
  import Hex

  /** The seven protocol layers that carry their own log settings. */
  datatype Layer = Phy | Mac | Rlc | Pdcp | Rrc | Gtpu | S1ap

  /** [enb] enb_id, name, cell_id, tac, mcc, mnc, mme_addr, gtp_bind_addr, phy_cell_id, n_prb */
  datatype EnbOption = EnbId | EnbName | CellId | Tac | Mcc | Mnc | MmeAddr | GtpBindAddr | PhyCellId | NPrb

  /** [enb_files] sib_config, rr_config, drb_config */
  datatype EnbFilesOption = SibConfig | RrConfig | DrbConfig

  /**
   * [rf] dl_earfcn, ul_earfcn, rx_gain, tx_gain, dl_freq, ul_freq, device_name,
   * device_args, time_adv_nsamples, burst_preamble_us
   */
  datatype RfOption =
    | DlEarfcn | UlEarfcn | RxGain | TxGain | DlFreq | UlFreq
    | DeviceName | DeviceArgs | TimeAdvNsamples | BurstPreambleUs

  /** [pcap] enable, filename */
  datatype PcapOption = PcapEnable | PcapFilename

  /** [log] <layer>_level, <layer>_hex_limit, all_level, all_hex_limit, filename */
  datatype LogOption = Level(layer: Layer) | HexLimit(layer: Layer) | AllLevel | AllHexLimit | LogFilename

  /** [scheduler] pdsch_mcs, pdsch_max_mcs, pusch_mcs, pusch_max_mcs, nof_ctrl_symbols */
  datatype SchedulerOption = PdschMcs | PdschMaxMcs | PuschMcs | PuschMaxMcs | NofCtrlSymbols

  /**
   * [expert] metrics_period_secs, pregenerate_signals, pusch_max_its, tx_amplitude,
   * nof_phy_threads, link_failure_nof_err, max_prach_offset_us, equalizer_mode,
   * estimator_fil_w, rrc_inactivity_timer
   */
  datatype ExpertOption =
    | MetricsPeriodSecs | PregenerateSignals | PuschMaxIts | TxAmplitude | NofPhyThreads
    | LinkFailureNofErr | MaxPrachOffsetUs | EqualizerMode | EstimatorFilW | RrcInactivityTimer

  /** [rf_calibration] tx_corr_dc_gain, tx_corr_dc_phase, tx_corr_iq_i, tx_corr_iq_q */
  datatype CalibrationOption = TxCorrDcGain | TxCorrDcPhase | TxCorrIqI | TxCorrIqQ

  /**
   * The options, by section.  "help", "version" and the positional
   * "config_file" exist on the command line only; [gui] has one option, enable.
   */
  datatype Key =
    | Help | Version | ConfigFile
    | Enb(enb: EnbOption) | EnbFiles(files: EnbFilesOption) | Rf(rf: RfOption)
    | Pcap(pcap: PcapOption) | GuiEnable | Log(log: LogOption)
    | Scheduler(scheduler: SchedulerOption) | Expert(expert: ExpertOption)
    | RfCalibration(calibration: CalibrationOption)

  /** The C++ type each option is bound to. */
  datatype Kind = Text | U32 | I32 | Boolean | Float | Switch

  /** A typed option value; `Present` is the value of a switch without argument. */
  datatype Value = Str(s: string) | Num(n: int) | Flag(b: bool) | Real(r: real) | Present

  function KindOf(k: Key): Kind {
    match k
    case Help | Version => Switch
    case ConfigFile => Text
    case Enb(o) => if o == PhyCellId || o == NPrb then U32 else Text
    case EnbFiles(_) => Text
    case Rf(o) =>
      (match o
       case DlEarfcn | UlEarfcn => U32
       case RxGain | TxGain | DlFreq | UlFreq => Float
       case DeviceName | DeviceArgs | TimeAdvNsamples | BurstPreambleUs => Text)
    case Pcap(o) => if o == PcapEnable then Boolean else Text
    case GuiEnable => Boolean
    case Log(o) =>
      (match o
       case Level(_) | AllLevel | LogFilename => Text
       case HexLimit(_) | AllHexLimit => I32)
    case Scheduler(_) => I32
    case Expert(o) =>
      (match o
       case MetricsPeriodSecs | TxAmplitude | MaxPrachOffsetUs | EstimatorFilW => Float
       case PregenerateSignals => Boolean
       case PuschMaxIts | NofPhyThreads | LinkFailureNofErr => I32
       case EqualizerMode => Text
       case RrcInactivityTimer => U32)
    case RfCalibration(_) => Float
  }

  /** The options that may also come from the configuration file ("common"). */
  predicate IsCommon(k: Key) {
    !(k.Help? || k.Version? || k.ConfigFile?)
  }

  /**
   * The declared default of each option.  The fourteen per-layer log
   * options, "help", "version" and "config_file" have none.  Float defaults
   * are written as the decimal constants of the source.
   */
  function Default(k: Key): (d: Option<Value>)
    ensures d.Some? <==> HasDefault(k)
  {
    match k
    case Help | Version | ConfigFile => None
    case Enb(o) => Some(EnbDefault(o))
    case EnbFiles(o) => Some(EnbFilesDefault(o))
    case Rf(o) => Some(RfDefault(o))
    case Pcap(o) => Some(if o == PcapEnable then Flag(false) else Str("ue.pcap"))
    case GuiEnable => Some(Flag(false))
    case Log(o) =>
      (match o
       case Level(_) | HexLimit(_) => None
       case AllLevel => Some(Str("info"))
       case AllHexLimit => Some(Num(32))
       case LogFilename => Some(Str("/tmp/ue.log")))
    case Scheduler(o) => Some(Num(if o == NofCtrlSymbols then 3 else -1))
    case Expert(o) => Some(ExpertDefault(o))
    case RfCalibration(_) => Some(Real(0.0))
  }

  function EnbDefault(o: EnbOption): Value {
    match o
    case EnbId | CellId | Tac => Str("0x0")
    case EnbName => Str("srsenb01")
    case Mcc => Str("001")
    case Mnc => Str("01")
    case MmeAddr => Str("127.0.0.1")
    case GtpBindAddr => Str("192.168.3.1")
    case PhyCellId => Num(0)
    case NPrb => Num(25)
  }

  function EnbFilesDefault(o: EnbFilesOption): Value {
    match o
    case SibConfig => Str("sib.conf")
    case RrConfig => Str("rr.conf")
    case DrbConfig => Str("drb.conf")
  }

  function RfDefault(o: RfOption): Value {
    match o
    case DlEarfcn => Num(3400)
    case UlEarfcn => Num(0)
    case RxGain => Real(50.0)
    case TxGain => Real(70.0)
    case DlFreq | UlFreq => Real(-1.0)
    case DeviceName | DeviceArgs | TimeAdvNsamples | BurstPreambleUs => Str("auto")
  }

  function ExpertDefault(o: ExpertOption): Value {
    match o
    case MetricsPeriodSecs => Real(1.0)
    case PregenerateSignals => Flag(false)
    case PuschMaxIts => Num(4)
    case TxAmplitude => Real(0.6)
    case NofPhyThreads => Num(2)
    case LinkFailureNofErr => Num(50)
    case MaxPrachOffsetUs => Real(30.0)
    case EqualizerMode => Str("mmse")
    case EstimatorFilW => Real(0.1)
    case RrcInactivityTimer => Num(10000)
  }

  /** The options with a declared default: all but the three command-line-only options and the per-layer log options. */
  predicate HasDefault(k: Key) {
    !(k.Help? || k.Version? || k.ConfigFile? || (k.Log? && (k.log.Level? || k.log.HexLimit?)))
  }

  const LAYERS: set<Layer> := {Phy, Mac, Rlc, Pdcp, Rrc, Gtpu, S1ap}

  lemma AllLayers()
    ensures forall l: Layer :: l in LAYERS
  {
    forall l: Layer ensures l in LAYERS {
      match l
      case Phy => case Mac => case Rlc => case Pdcp => case Rrc => case Gtpu => case S1ap =>
    }
  }

  const ENB_KEYS: set<Key> :=
    {Enb(EnbId), Enb(EnbName), Enb(CellId), Enb(Tac), Enb(Mcc), Enb(Mnc),
     Enb(MmeAddr), Enb(GtpBindAddr), Enb(PhyCellId), Enb(NPrb)}
  const ENB_FILES_KEYS: set<Key> := {EnbFiles(SibConfig), EnbFiles(RrConfig), EnbFiles(DrbConfig)}
  const RF_KEYS: set<Key> :=
    {Rf(DlEarfcn), Rf(UlEarfcn), Rf(RxGain), Rf(TxGain), Rf(DlFreq), Rf(UlFreq),
     Rf(DeviceName), Rf(DeviceArgs), Rf(TimeAdvNsamples), Rf(BurstPreambleUs)}
  const PCAP_GUI_KEYS: set<Key> := {Pcap(PcapEnable), Pcap(PcapFilename), GuiEnable}
  const LOG_DEFAULTED_KEYS: set<Key> := {Log(AllLevel), Log(AllHexLimit), Log(LogFilename)}
  const SCHEDULER_KEYS: set<Key> :=
    {Scheduler(PdschMcs), Scheduler(PdschMaxMcs), Scheduler(PuschMcs),
     Scheduler(PuschMaxMcs), Scheduler(NofCtrlSymbols)}
  const EXPERT_KEYS: set<Key> :=
    {Expert(MetricsPeriodSecs), Expert(PregenerateSignals), Expert(PuschMaxIts),
     Expert(TxAmplitude), Expert(NofPhyThreads), Expert(LinkFailureNofErr),
     Expert(MaxPrachOffsetUs), Expert(EqualizerMode), Expert(EstimatorFilW),
     Expert(RrcInactivityTimer)}
  const CALIBRATION_KEYS: set<Key> :=
    {RfCalibration(TxCorrDcGain), RfCalibration(TxCorrDcPhase),
     RfCalibration(TxCorrIqI), RfCalibration(TxCorrIqQ)}

  /** Every option that has a declared default. */
  const DEFAULTED_KEYS: set<Key> :=
    ENB_KEYS + ENB_FILES_KEYS + RF_KEYS + PCAP_GUI_KEYS + LOG_DEFAULTED_KEYS
    + SCHEDULER_KEYS + EXPERT_KEYS + CALIBRATION_KEYS

  /** Text that converts to a number below `bound` with std::hex. */
  predicate HexFits(s: string, bound: nat) {
    Hex.IsHexText(s) && Hex.HexValue(s) < bound
  }

  /** A value that the option's C++ type holds. */
  predicate Fits(k: Key, v: Value) {
    match KindOf(k)
    case Text => v.Str?
    case U32 => v.Num? && 0 <= v.n < 0x1_0000_0000
    case I32 => v.Num? && -0x8000_0000 <= v.n < 0x8000_0000
    case Boolean => v.Flag?
    case Float => v.Real?
    case Switch => v.Present?
  }

  /** The options of one source after tokenising, each given at most once. */
  type Source = map<Key, Value>

  /** Every value of the source has its option's type. */
  predicate CommandLineOk(src: Source) {
    forall k | k in src :: Fits(k, src[k])
  }

  /**
   * parse_config_file is given the common options only, so a file naming
   * "help", "version" or "config_file" makes it throw.
   */
  predicate NamesCommonOnly(src: Source) {
    forall k | k in src :: IsCommon(k)
  }

  /** Every option with a declared default is listed in DEFAULTED_KEYS. */
  lemma DefaultedKeysComplete(k: Key)
    requires HasDefault(k)
    ensures k in DEFAULTED_KEYS
  {
    match k {
      case Enb(o) =>
        match o {
          case EnbId => case EnbName => case CellId => case Tac => case Mcc =>
          case Mnc => case MmeAddr => case GtpBindAddr => case PhyCellId => case NPrb =>
        }
        assert k in ENB_KEYS;
      case EnbFiles(o) =>
        match o { case SibConfig => case RrConfig => case DrbConfig => }
        assert k in ENB_FILES_KEYS;
      case Rf(o) =>
        match o {
          case DlEarfcn => case UlEarfcn => case RxGain => case TxGain => case DlFreq =>
          case UlFreq => case DeviceName => case DeviceArgs => case TimeAdvNsamples =>
          case BurstPreambleUs =>
        }
        assert k in RF_KEYS;
      case Pcap(o) =>
        match o { case PcapEnable => case PcapFilename => }
        assert k in PCAP_GUI_KEYS;
      case GuiEnable =>
        assert k in PCAP_GUI_KEYS;
      case Log(o) =>
        match o { case AllLevel => case AllHexLimit => case LogFilename => }
        assert k in LOG_DEFAULTED_KEYS;
      case Scheduler(o) =>
        match o {
          case PdschMcs => case PdschMaxMcs => case PuschMcs => case PuschMaxMcs =>
          case NofCtrlSymbols =>
        }
        assert k in SCHEDULER_KEYS;
      case Expert(o) =>
        match o {
          case MetricsPeriodSecs => case PregenerateSignals => case PuschMaxIts =>
          case TxAmplitude => case NofPhyThreads => case LinkFailureNofErr =>
          case MaxPrachOffsetUs => case EqualizerMode => case EstimatorFilW =>
          case RrcInactivityTimer =>
        }
        assert k in EXPERT_KEYS;
      case RfCalibration(o) =>
        match o { case TxCorrDcGain => case TxCorrDcPhase => case TxCorrIqI => case TxCorrIqQ => }
        assert k in CALIBRATION_KEYS;
    }
  }

  /** The default "0x0" of the three base-16 identifiers reads as zero. */
  lemma ZeroTextFits()
    ensures Hex.IsHexText("0x0") && Hex.HexValue("0x0") == 0
  {
    assert Hex.Digits("0x0") == "0";
    assert Hex.DigitsValue("0") == 0 by {
      assert "0"[..0] == [];
    }
  }

  /** Every declared default is a common option and fits its type. */
  lemma DefaultFits(k: Key)
    requires HasDefault(k)
    ensures IsCommon(k) && Fits(k, Default(k).value)
  {
    match k
    case Enb(o) => EnbDefaultFits(o);
    case EnbFiles(_) =>
    case Rf(o) => RfDefaultFits(o);
    case Pcap(_) =>
    case GuiEnable =>
    case Log(_) =>
    case Scheduler(_) =>
    case Expert(o) => ExpertDefaultFits(o);
    case RfCalibration(_) =>
  }

  lemma EnbDefaultFits(o: EnbOption)
    ensures Fits(Enb(o), EnbDefault(o))
  {
    match o
    case EnbId => case CellId => case Tac => case EnbName => case Mcc => case Mnc => case MmeAddr => case GtpBindAddr =>
    case PhyCellId => case NPrb =>
  }

  lemma RfDefaultFits(o: RfOption)
    ensures Fits(Rf(o), RfDefault(o))
  {
    match o
    case DlEarfcn => case UlEarfcn => case RxGain => case TxGain => case DlFreq =>
    case UlFreq => case DeviceName => case DeviceArgs => case TimeAdvNsamples =>
    case BurstPreambleUs =>
  }

  lemma ExpertDefaultFits(o: ExpertOption)
    ensures Fits(Expert(o), ExpertDefault(o))
  {
    match o
    case MetricsPeriodSecs => case PregenerateSignals => case PuschMaxIts =>
    case TxAmplitude => case NofPhyThreads => case LinkFailureNofErr =>
    case MaxPrachOffsetUs => case EqualizerMode => case EstimatorFilW =>
    case RrcInactivityTimer =>
  }

  /** A variables-map entry: the value and whether it is only the declared default. */
  datatype Entry = Entry(value: Value, defaulted: bool)

  /** bpo::variables_map; `vm.count(k)` is `k in vm`. */
  type VarMap = map<Key, Entry>

  predicate VarMapOk(vm: VarMap) {
    forall k | k in vm :: Fits(k, vm[k].value)
  }

  /** Every option with a declared default has a value. */
  ghost predicate HasAllDefaults(vm: VarMap) {
    forall k | HasDefault(k) :: k in vm
  }

  /** An earlier store gave k an explicit value: no later store replaces it. */
  predicate IsFinal(vm: VarMap, k: Key) {
    k in vm && !vm[k].defaulted
  }

  /**
   * The values of `src` that bpo::store converts have their option's type.
   * store skips an option that already holds an explicit value before it
   * converts the new text, and throws on a text it cannot convert.
   */
  predicate Converts(vm: VarMap, src: Source) {
    forall k | k in src && !IsFinal(vm, k) :: Fits(k, src[k])
  }

  /** The defaulted entry of every option with a declared default. */
  function DefaultEntries(): (d: VarMap)
    ensures forall k :: k in d <==> HasDefault(k)
    ensures forall k | HasDefault(k) :: d[k] == Entry(Default(k).value, true)
    ensures VarMapOk(d)
  {
    forall k | HasDefault(k) ensures k in DEFAULTED_KEYS && Fits(k, Default(k).value) {
      DefaultedKeysComplete(k);
      DefaultFits(k);
    }
    map k | k in DEFAULTED_KEYS && HasDefault(k) :: Entry(Default(k).value, true)
  }

  /**
   * The first half of bpo::store: each option of the source is stored unless
   * an earlier store already gave it an explicit value.
   */
  function StoreExplicit(vm: VarMap, src: Source): (r: VarMap)
    ensures forall k :: k in r <==> k in vm || k in src
    ensures forall k | IsFinal(vm, k) :: r[k] == vm[k]
    ensures forall k | k in src && !IsFinal(vm, k) :: r[k] == Entry(src[k], false)
    ensures forall k | k in vm && k !in src :: r[k] == vm[k]
    ensures VarMapOk(vm) && Converts(vm, src) ==> VarMapOk(r)
  {
    vm + map k | k in src && !IsFinal(vm, k) :: Entry(src[k], false)
  }

  /** The second half of bpo::store: every option still absent takes its default. */
  function FillDefaults(vm: VarMap): (r: VarMap)
    ensures forall k :: k in r <==> k in vm || HasDefault(k)
    ensures forall k | k in vm :: r[k] == vm[k]
    ensures forall k | k !in vm && HasDefault(k) :: r[k] == Entry(Default(k).value, true)
    ensures VarMapOk(vm) ==> VarMapOk(r)
    ensures HasAllDefaults(r)
  {
    vm + (DefaultEntries() - vm.Keys)
  }

  /** bpo::store of one parsed source into the variables map. */
  function Store(vm: VarMap, src: Source): (r: VarMap)
    ensures forall k :: k in r <==> k in vm || k in src || HasDefault(k)
    ensures forall k | IsFinal(vm, k) :: r[k] == vm[k]
    ensures forall k | k in src && !IsFinal(vm, k) :: r[k] == Entry(src[k], false)
    ensures forall k | k in vm && k !in src :: r[k] == vm[k]
    ensures forall k | k !in vm && k !in src && HasDefault(k) :: r[k] == Entry(Default(k).value, true)
    ensures VarMapOk(vm) && Converts(vm, src) ==> VarMapOk(r)
    ensures HasAllDefaults(r)
  {
    FillDefaults(StoreExplicit(vm, src))
  }

  /**
   * The variables map after the command line is stored (line 204) and then
   * the configuration file (line 236).  Every option takes its command-line
   * value if it has one, else its file value, else its default.  The file
   * values store converts are those of options not on the command line.
   */
  function CommandLineThenFile(cmd: Source, file: Source): (vm: VarMap)
    ensures forall k :: k in vm <==> k in cmd || k in file || HasDefault(k)
    ensures forall k | k in cmd :: vm[k] == Entry(cmd[k], false)
    ensures forall k | k !in cmd && k in file :: vm[k] == Entry(file[k], false)
    ensures forall k | k !in cmd && k !in file && HasDefault(k) :: vm[k] == Entry(Default(k).value, true)
    ensures forall k | k in file :: IsFinal(Store(map[], cmd), k) <==> k in cmd
    ensures CommandLineOk(cmd) && Converts(Store(map[], cmd), file) ==> VarMapOk(vm)
    ensures HasAllDefaults(vm)
  {
    Store(Store(map[], cmd), file)
  }

  /** A later store never drops a key. */
  lemma StoreKeepsKeys(vm: VarMap, src: Source)
    ensures vm.Keys <= Store(vm, src).Keys
  {
  }
}
