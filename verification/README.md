# srsenb entry point: argument parsing, console toggle and process lifecycle

This project models the entry point of the srsLTE eNodeB, `srsenb/src/main.cc`,
in Dafny, and proves what it promises.

- `parse_args` builds the eNodeB configuration from the command line and an
  INI-style configuration file through boost::program_options.
  - It ends the process early for `--help`, `--version`, a missing
    configuration file (exit code 0) and a file that does not open (exit code 1).
  - A value that boost cannot convert, or a file option unknown to boost,
    makes boost throw an exception that parse_args does not catch. A file
    value is converted only for an option that the command line did not give.
  - It gives a command-line value precedence over a file value, and a file
    value precedence over the declared default.
  - It reads the eNB identifier, the cell identifier and the tracking-area
    code as base-16 text. The cell identifier goes through a 16-bit integer
    and is narrowed to 8 bits.
  - It converts MCC and MNC without stopping when they do not convert.
  - It copies `log.all_level` and `log.all_hex_limit` onto each of the
    seven layers (PHY, MAC, RLC, PDCP, RRC, GTPU, S1AP) whose own option
    has no value.
- `input_loop` is the console thread. Each `t` flips the metrics trace and
  calls `toggle_print` with the new flag.
- `main` does the following:
  - installs the SIGINT handler and parses the arguments;
  - exits with 1 when the eNodeB fails to initialise;
  - starts the metrics and the console thread;
  - starts the GUI plot once when `gui.enable` is set;
  - after SIGINT, shuts down in a fixed order.

Modules:

- `Prelude`: Option and the fixed-width integers `u8`, `u16` and `u32`,
  plus the narrowing of a `uint16_t` to a `uint8_t`.
- `Hex`: base-16 text as `std::hex` extraction reads it. An optional `0x`
  prefix is allowed, then digits.
- `Options`: the option table of lines 59-196, with keys, C++ types and
  declared defaults. It also models the boost variables map and its
  `store` semantics.
  - An explicitly stored value is final.
  - A later source replaces only a defaulted value.
  - Declared defaults fill absent options.
  - `vm.count(k)` is `k in vm`.
- `Config`: `parse_args`. It is a specification function `ParseArgsSpec`,
  and the method `ParseArgs` follows the source statement by statement.
- `ConfigLemmas`: what `parse_args` promises, stated against the command
  line and the file rather than against the variables map.
- `Input`: `input_loop`, as written and as evidently intended.
- `Lifecycle`: `main`, as the sequence of calls it makes.

Several things are parameters, because the model cannot compute them:

- what the record `all_args_t` held before `parse_args` (`init`);
- the parsed command line (`cmd`);
- the files that open, each mapped to the options parsed from it (`files`);
- `srslte::string_to_mcc` and `string_to_mnc` (`mccOf`, `mncOf`);
- the result of `enb::init`;
- the number of passes the keep-alive loop makes before SIGINT;
- the characters the console thread extracts.

## Model

| member | source | states |
|---|---|---|
| Prelude.NarrowToU8 | srsenb/src/main.cc:249-251 | the cell identifier's uint8_t is congruent to the uint16_t modulo 256, and equal to it when it is below 256 |
| Hex.DigitsValueBound | srsenb/src/main.cc:242-256 | n hexadecimal digits hold a value below 16^n |
| Hex.ShortTextFitsU16 | srsenb/src/main.cc:247-256 | text with at most four digits after the prefix fits the uint16_t it is read into |
| Hex.HexRoundTrip | srsenb/src/main.cc:242-244 | reading base-16 text back gives the number written: the reading agrees with an independent writer |
| Options.Default | srsenb/src/main.cc:68-186 | an option has a declared default exactly when it is not help, version, config_file or one of the fourteen per-layer log options |
| Options.DefaultFits | srsenb/src/main.cc:68-186 | every declared default belongs to a common option and has its option's C++ type |
| Options.ZeroTextFits | srsenb/src/main.cc:70-73 | the default "0x0" of enb_id, cell_id and tac is hexadecimal text that reads as 0 |
| Options.DefaultEntries | srsenb/src/main.cc:68-186 | the defaults bpo::store fills in: exactly the options with a declared default, each marked as defaulted |
| Options.StoreExplicit | srsenb/src/main.cc:204 | a source's value is stored unless an earlier store gave the option an explicit value, which stays; other entries are untouched; the map stays well typed when every value it converts has its option's type |
| Options.FillDefaults | srsenb/src/main.cc:204 | an option still absent takes its default, marked defaulted; present entries are untouched; afterwards every defaulted option has a value |
| Options.Store | srsenb/src/main.cc:204 | bpo::store as a whole: keys, final entries kept, source values stored, defaults filled; a value for a final option is never converted |
| Options.CommandLineThenFile | srsenb/src/main.cc:204-236 | after storing the command line and then the file, each option holds its command-line value, else its file value, else its default; the file values the second store converts are exactly those of options not on the command line |
| Options.StoreKeepsKeys | srsenb/src/main.cc:236 | a later store never removes an option, so vm.count only grows |
| Config.Notify | srsenb/src/main.cc:205 | every bound field whose option has a value takes it; every other field and the five identifiers are unchanged |
| Config.LayerKey | srsenb/src/main.cc:102-115 | the per-layer log options are bound fields, have no default and are what the cascade may fill |
| Config.AllKey | srsenb/src/main.cc:117-118 | log.all_level and log.all_hex_limit are bound fields with a default, not per-layer options |
| Config.CascadeOf | srsenb/src/main.cc:268-316 | one cascade block: a layer whose option has no value takes the "all" field, the others keep theirs, nothing else changes |
| Config.CascadedUnique | srsenb/src/main.cc:268-316 | that description of a cascade block determines its result |
| Config.ApplyAll | srsenb/src/main.cc:268-316 | the loop over the layers in source order performs exactly one cascade block |
| Config.ApplyLogCascade | srsenb/src/main.cc:268-316 | the level block and then the hex-limit block give Cascade |
| Config.StoredIdentifierTexts | srsenb/src/main.cc:70-75 | once both stores are done, the five identifier options are present with text values |
| Config.Identifiers | srsenb/src/main.cc:240-265 | converting the identifiers touches no option-bound field |
| Config.ConvertIdentifiers | srsenb/src/main.cc:240-265 | the statement-by-statement conversion, with the uint16_t intermediate, computes Identifiers |
| Config.ParseArgs | srsenb/src/main.cc:51-317 | the statement-by-statement parse_args computes ParseArgsSpec: an uncaught exception when the command-line store throws, the exits, and otherwise Configure on the file that opens |
| Config.ApplyConfigFile | srsenb/src/main.cc:236-316 | storing and notifying the file, then the conversions and the cascade, compute Configure; a file the store rejects gives an uncaught exception |
| ConfigLemmas.Effective | srsenb/src/main.cc:204-236 | an option has no effective value exactly when it is on neither the command line nor in the file and has no default |
| ConfigLemmas.MergedIsEffective | srsenb/src/main.cc:204-236 | the merged variables map holds exactly the effective values |
| ConfigLemmas.CascadeResolvesLayers | srsenb/src/main.cc:268-316 | after both blocks, an unset layer holds the "all" field and a set layer keeps its field |
| ConfigLemmas.CascadeKeepsOtherFields | srsenb/src/main.cc:268-316 | the cascade changes no field other than the fourteen per-layer settings |
| ConfigLemmas.ReachesConfigure | srsenb/src/main.cc:204-238 | past the command-line store, the three checks and with a file that opens, parse_args stores the file and continues |
| ConfigLemmas.MergedLayerSetting | srsenb/src/main.cc:236-237 | the merged map holds the effective "all" value, and holds a layer's own option exactly when it has an effective value |
| ConfigLemmas.ConfiguredLayer | srsenb/src/main.cc:236-316 | each layer's level and hex limit are its own effective value, else the effective "all" value |
| ConfigLemmas.LayerLogSetting | srsenb/src/main.cc:268-316 | the same for parse_args as a whole, independent of the record it started from |
| ConfigLemmas.ConfiguredOption | srsenb/src/main.cc:236-237 | every other bound option holds its effective value; unbound fields keep their previous value |
| ConfigLemmas.MergedIdentifierTexts | srsenb/src/main.cc:236-256 | the effective identifier texts are the merged ones and fit their destinations |
| ConfigLemmas.ConfiguredIdentifiers | srsenb/src/main.cc:240-257 | enb_id and tac are the base-16 values of their effective text; cell_id is that value modulo 256 |
| ConfigLemmas.ConfiguredMccMnc | srsenb/src/main.cc:259-265 | MCC and MNC take their converted code, else keep the previous one; exactly one warning for each text that does not convert; parse_args still returns |
| ConfigLemmas.CodecsOnlyReachMccMnc | srsenb/src/main.cc:259-265 | the MCC/MNC conversion never changes whether lines 236-316 return, nor any other field or identifier |
| ConfigLemmas.EarlyExits | srsenb/src/main.cc:204-238 | a command line boost cannot convert throws; then help, then version, then a missing configuration file give exit code 0, and an unopenable file gives 1, whatever any file holds; parse_args configures exactly when none applies and the file store goes through |
| ConfigLemmas.ReachesConfigureOrExits | srsenb/src/main.cc:229-238 | with a configuration file named, parse_args exits with 1 when it does not open, throws when the file store does, and configures otherwise |
| ConfigLemmas.FileValueOfCommandLineOption | srsenb/src/main.cc:204-236 | whatever the file says for an option given on the command line, the file store goes through exactly when it did and the identifier texts to convert are the same |
| ConfigLemmas.MergedIgnoresFileValue | srsenb/src/main.cc:204-236 | the merged entry of every option is independent of the file's value for a command-line option |
| ConfigLemmas.OptionValue | srsenb/src/main.cc:204-237 | for parse_args as a whole, each bound option other than the layer settings holds its effective value; an unbound field keeps its value |
| ConfigLemmas.CommandLineWins | srsenb/src/main.cc:204-237 | an option given on the command line keeps that value whatever the file says, including the per-layer log options and a file value the store could not convert |
| ConfigLemmas.IdentifiersFromText | srsenb/src/main.cc:240-257 | ConfiguredIdentifiers for parse_args as a whole |
| ConfigLemmas.MccMncFromText | srsenb/src/main.cc:259-265 | ConfiguredMccMnc for parse_args as a whole; on failure the code is the one the record held before |
| Input.InputLoop | srsenb/src/main.cc:327-344 | the loop as written makes the toggle_print calls of ToggleCalls over the keys as read, and leaves do_metrics at FinalState |
| Input.ToggleCount | srsenb/src/main.cc:332-341 | one toggle_print call per 't' |
| Input.ToggleParity | srsenb/src/main.cc:333 | do_metrics ends flipped exactly when the number of 't' is odd |
| Input.ToggleAlternates | srsenb/src/main.cc:333-340 | the calls alternate, starting with the opposite of the initial flag |
| Input.LastCallIsFinalState | srsenb/src/main.cc:333-340 | the last call passes the flag the loop leaves behind |
| Input.EndOfInputRepeatsT | srsenb/src/main.cc:331-332 | as written, a failed extraction after a 't' adds one more toggle |
| Input.EndOfInputCounterexample | srsenb/src/main.cc:331-332 | 't' followed by end of input calls toggle_print(true) and then toggle_print(false) |
| Input.TypedToggleCalls | srsenb/src/main.cc:330-341 | the intended loop makes one call per 't' actually typed |
| Input.FailedReadsIgnored | srsenb/src/main.cc:331-332 | in the intended loop a failed extraction adds no call |
| Input.AsWrittenMatchesTyped | srsenb/src/main.cc:331-332 | as long as no extraction fails, the loop as written is the intended one |
| Lifecycle.RunEnb | srsenb/src/main.cc:346-379 | main, statement by statement, makes the calls of MainTrace |
| Lifecycle.ExitIsLastCall | srsenb/src/main.cc:346-379 | the process ends exactly once, as the last call: std::terminate when parse_args throws, otherwise exit with the parse_args code, 1 on init failure, or 0 |
| Lifecycle.InitFailureExits | srsenb/src/main.cc:355-357 | when enb::init fails, the next call is exit(1): no metrics, console thread, plot or shutdown calls |
| Lifecycle.PlotStartsOnce | srsenb/src/main.cc:362-370 | start_plot is made at most once, as the fifth call, exactly when init succeeded, gui.enable is set and the loop makes a pass; it follows the console thread and precedes the first sleep |
| Lifecycle.ShutdownOrder | srsenb/src/main.cc:360-378 | after a successful init the trace starts with the handler, init, metrics init and the console thread; it ends with cancel, metrics stop, eNodeB stop, cleanup and exit(0); between them come only the plot and sleeps |
| Lifecycle.ParseExitStopsMain | srsenb/src/main.cc:355 | help, version or a missing configuration file end main with exit(0) before the eNodeB is touched, or with std::terminate when the command line does not convert |
| Lifecycle.PlotIffGui | srsenb/src/main.cc:364-367 | start_plot is called exactly when init succeeds, the loop makes a pass and gui.enable is set |
| Lifecycle.PlotFollowsGuiOption | srsenb/src/main.cc:100 | for a configured run, the plot starts exactly when init succeeds, the loop makes a pass and the effective gui.enable is true |
| Lifecycle.MetricsInitThird | srsenb/src/main.cc:359 | after a successful init, the third call is metrics_stdout::init with the record's expert.metrics_period_secs |
| Lifecycle.MetricsGetPeriodOption | srsenb/src/main.cc:142-143 | for a configured run, metrics_stdout::init receives the effective expert.metrics_period_secs: command line, else file, else 1.0 |

The cascade of lines 268-291 and 293-316 writes out one statement for each
of the seven layers. `Config.ApplyAll` performs those seven statements as a
loop over `LAYER_ORDER`, in the source order. Each pass tests and assigns
exactly what the corresponding statement does.

## Findings

| source | as written | input that shows it | evidently intended | confidence | as-written member | corrected member |
|---|---|---|---|---|---|---|
| srsenb/src/main.cc:331-332 | at end of standard input `cin >> key` fails and leaves `key` unchanged, and the loop goes on testing it | the extractions 't' then end of input, with the trace off: toggle_print(true), then toggle_print(false); every further pass toggles again | a failed extraction toggles nothing | medium; not executed | Input.EndOfInputCounterexample | Input.TypedToggleCalls |

`Input.EndOfInputRepeatsT` states the general case of this finding.
`Input.FailedReadsIgnored` proves that the corrected loop ignores failed
extractions. `Input.AsWrittenMatchesTyped` proves that the two loops agree
while no extraction fails. `Input.InputLoop` models the loop as written.

## Left out

- The tokenising of the command line and of the configuration file by boost is not modelled. This covers option spelling, short options, the positional `config_file`, `section.key` naming and INI syntax. The model starts from the parsed options, each given at most once.
- Config.ParseArgs: requires `Config.InputsOk`, which says that when parse_args reaches the conversions, the effective enb_id, cell_id and tac texts are an optional `0x` or `0X` prefix followed by hexadecimal digits, with a value that fits the integer read into. `std::hex` extraction of any other text is outside the model: leading blanks, a sign, characters after the digits, no digits at all, or a value that does not fit. Inputs that exit or throw before the conversions are not restricted.
- Config.ConvertIdentifiers: requires the same of the texts it converts, for the same reason.
- An exception thrown by boost is modelled only as the outcome `Uncaught`, after which the process terminates. Its type and message are not modelled, and neither is an option unknown on the command line, because the model starts from parsed options.
- The rules of `srslte::string_to_mcc` and `string_to_mnc` are not modelled, because their code is not part of this model. They are parameters, and a failed conversion is taken to leave the previous code unchanged.
- The `config_file` global that notify writes is not modelled as a field. Its value is the path that parse_args opens.
- Float options are stored as `real` with the source's decimal constants. No single-precision rounding is modelled.
- No console text is modelled: usage, the version numbers, the banner, the warnings' wording and the trace prompts. The MCC/MNC messages are kept only as the `Warning` values.
- Concurrency and signals are not modelled. The console thread and the keep-alive loop are modelled separately. SIGINT is modelled only through the number of keep-alive passes and the extractions the console thread performs before `running` is cleared.
- `sleep(1)` is a call in the trace. Its duration is not modelled.
- The internals of the eNodeB (`enb::init`, `start_plot`, `stop`, `cleanup`) and of `metrics_stdout` are not modelled. Only the calls made to them, in order, are modelled.
- The unused `signals_pregenerated` local and the `enb::get_instance` singleton are not modelled, because neither affects behaviour.
