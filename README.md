# tbs command dispatcher, modelled in Dafny

`tbs` is a command-line shortcut over `adb`, the Android device bridge. The
user gives a short command (`pull config`, `push config`, `clear log`,
`am register <phone> <token>`, `am rx [--dui …] [--address …] [--signal …]`).
The tool turns it into a fixed, ordered list of steps. Each step is either a
templated command line run through `shell` or a file handed to the platform's
default opener through `open`. The steps run one after another, and the first
failing step ends the run. The process exit code says whether every step
succeeded.

The model has four modules:

- `TextSplit` (`text_split.dfy`): splitting a line on a character, the way
  `str::split(' ')` does it (empty pieces kept, at least one piece), and
  joining pieces back together. It proves the round trips between the two and
  counts the pieces.
- `Cli` (`cli.dfy`): the parsed command as datatypes (`Command` with
  `PullCommand`, `PushCommand`, `ClearCommand`, `AmCommand`), and `Rx`, which
  fills in the defaults of the `rx` flags (dui `30`, address `1`, signal `5`).
- `Process` (`process.dfy`): `shell` as a method. It splits the line into a
  program and its arguments (`Argv`), builds a `ProcessCommand` object
  (program plus collected arguments, updated in place by `Args`), and turns
  the spawn/wait/status outcome into `Ok` or `Err`. It also models `open`.
- `Dispatch` (`dispatch.dfy`, `dispatch_properties.dfy`): `Steps` (command to
  ordered steps) and `Execute`, the specification of `run`: run each step only
  if all earlier steps succeeded. `RunSteps`, `Run` and `Invoke` are methods
  that loop over the steps, consume an outcome oracle and stop at the first
  failure. `ExitCodeOf` maps the result to the exit code. The properties
  module proves, per command, which steps run and what the `adb` argument
  vectors are.

The operating system is an oracle. Each step gets one `Outcome`. A `shell`
step gets a `SpawnResult`: the spawn failed, the wait failed, or the child
exited with a status that is or is not success. An `open` step gets whether
the opener succeeded. `Run` requires one outcome per step, of that step's
kind.

Each templated command line is written as its list of words (`RegisterWords`,
`RxWords`, `PullConfigWords`, …) joined with single spaces. This is the same
string as the `format!` text in `src/main.rs`: that text is these words with
one space between neighbours and each interpolated value in its hole. Writing
the lines this way lets the argv lemmas work on the words. These lemmas show
the known weakness of the templating: a value with a space in it reaches
`adb` as several arguments (`RegisterSpaceSplitsValue`, `TemplateArgvLength`).

The model covers only what the code does:

- `pull log` has an empty body. It resets no local `Log` directory and pulls
  nothing.
- `am rx` runs `am start` with `--es` string extras. It does not run
  `startservice` with `--ei` integer extras.
- There are no Vidyo/Zoom call commands, and so no meeting-parameter
  validation.

## Model

| member | source | states |
|---|---|---|
| `TextSplit.Split` | src/main.rs:124-125 | splitting always yields at least one piece, even for an empty line, so taking the program name never fails; no piece contains the separator |
| `TextSplit.JoinSplit` | src/main.rs:124-126 | joining the pieces with the separator gives back the original line: no character is lost or reordered |
| `TextSplit.SplitConcat` | src/main.rs:124-126 | the pieces of `a + " " + b` are the pieces of `a` followed by the pieces of `b` |
| `TextSplit.SplitJoin` | src/main.rs:124-126 | splitting a space-joined list of words gives the words back when no word contains a space |
| `TextSplit.SplitJoinEach` | src/main.rs:124-126 | splitting a space-joined list gives each word's own pieces, in order |
| `TextSplit.SplitLength` | src/main.rs:124-126 | a line with n spaces splits into n + 1 pieces |
| `TextSplit.SplitEachLength` | src/main.rs:124-126 | a list of words yields at least as many pieces as words, and exactly as many iff no word contains a space |
| `Process.Argv` | src/main.rs:124-126 | the program is the first piece and the arguments are the remaining pieces in order: joining program and arguments with spaces reproduces the line; the argument count equals the number of spaces; no program or argument contains a space |
| `Process.ProcessCommand.constructor` | src/main.rs:127 | a new command names the program and has no arguments |
| `Process.ProcessCommand.Args` | src/main.rs:128-130 | appends the arguments after those already collected and leaves the program unchanged |
| `Process.Shell` | src/main.rs:123-144 | launches the line's program with the line's arguments; the result is `Ok` iff the spawn succeeded, the wait succeeded and the exit status is success; a spawn error, a wait error or an unsuccessful status each give `Err` |
| `Process.Open` | src/main.rs:146-148 | `Ok` iff the opener succeeds; any opener error becomes `Err` |
| `Cli.Rx` | src/main.rs:70-80 | each `rx` flag keeps the value given, and an omitted dui, address or signal becomes `30`, `1` or `5` |
| `Dispatch.RegisterWords` | src/main.rs:113 | the `register` line has 14 words starting with `adb`, and its last six are `--es phone <phone> --es token <token>`: each value fills one word |
| `Dispatch.RxWords` | src/main.rs:116 | the `rx` line has 17 words starting with `adb`, and its last nine are `--es dui <dui> --es address <address> --es signal <signal>`: each value fills one word |
| `Dispatch.Steps` | src/main.rs:92-119 | every command has at most two steps; only `pull log` has none; the only file ever opened is `config.json`, as the last step of `pull config` |
| `Dispatch.Execute` | src/main.rs:91-121 | a run carries out at most all the steps; a successful run carries out all of them; a failed run carries out at least one |
| `Dispatch.ExecuteStopsAtFirstFailure` | src/main.rs:91-121 | the run is `Ok` iff every step succeeds; step i is carried out iff every earlier step succeeded; on `Err` the last step carried out is the first one that failed |
| `Dispatch.RunSteps` | src/main.rs:91-121 | the loop over the steps agrees with `Execute`: same result, same number of steps carried out, and the effects are those of that prefix of the steps in order |
| `Dispatch.Run` | src/main.rs:91-121 | `run` on a command carries out a prefix of the command's steps as `Execute` prescribes, and returns `Ok` iff every step succeeded |
| `Dispatch.ExitCodeOf` | src/main.rs:83-89 | the exit code is SUCCESS iff `run` returned `Ok`, and FAILURE iff it returned `Err` |
| `Dispatch.Invoke` | src/main.rs:83-89 | the tool exits with SUCCESS iff every step of the command succeeded, after carrying out the steps `Execute` prescribes |
| `DispatchProperties.PullConfigOpensOnlyAfterPull` | src/main.rs:94-97 | `pull config` opens `config.json` only if the `adb pull` succeeded, and succeeds iff both the pull and the open did |
| `DispatchProperties.PushConfigBroadcastsOnlyAfterPush` | src/main.rs:101-104 | `push config` sends the broadcast only if the `adb push` succeeded, and succeeds iff both did |
| `DispatchProperties.PullLogDoesNothing` | src/main.rs:98 | `pull log` has no steps and always returns `Ok` |
| `DispatchProperties.SingleStepCommands` | src/main.rs:106-118 | `clear log`, `am register` and `am rx` are one `shell` step each, and succeed iff that process succeeds |
| `DispatchProperties.PullConfigSteps` | src/main.rs:94-97 | `pull config` is exactly two steps: the shell line `adb pull /sdcard/TBS/config.json`, then opening `config.json` |
| `DispatchProperties.PushConfigSteps` | src/main.rs:101-104 | `push config` is exactly two shell lines: `adb push config.json /sdcard/TBS/`, then `adb shell am broadcast -a com.mobilehelp.action.config.updated` |
| `DispatchProperties.ClearLogSteps` | src/main.rs:107-109 | `clear log` is exactly one shell line, `adb shell rm -rf /sdcard/TBS/Log/*` |
| `DispatchProperties.PullConfigArgv` | src/main.rs:95 | the first step of `pull config` launches `adb` with arguments `pull /sdcard/TBS/config.json` |
| `DispatchProperties.PushConfigArgv` | src/main.rs:102 | the first step of `push config` launches `adb` with arguments `push config.json /sdcard/TBS/` |
| `DispatchProperties.BroadcastArgv` | src/main.rs:103 | the second step of `push config` launches `adb` with arguments `shell am broadcast -a com.mobilehelp.action.config.updated` |
| `DispatchProperties.ClearLogArgv` | src/main.rs:108 | the step of `clear log` launches `adb` with arguments `shell rm -rf /sdcard/TBS/Log/*` |
| `DispatchProperties.TemplateArgvLength` | src/main.rs:124-126 | a templated line gives at least as many program-plus-argument entries as the template has words, and exactly as many iff no word holds a space |
| `DispatchProperties.RegisterArgv` | src/main.rs:113 | with space-free phone and token, the step of `am register` launches `adb` with the 13 arguments `shell am start -n com.mobilehelp.alert/.ui.registration.WelcomeActivity -a com.mobilehelp.auto.register --es phone <phone> --es token <token>` |
| `DispatchProperties.RegisterSpaceSplitsValue` | src/main.rs:113 | the step of `am register` passes at least 13 arguments, and exactly 13 iff neither phone nor token contains a space; a space in either gives extra arguments |
| `DispatchProperties.RxArgv` | src/main.rs:116 | with space-free values, the step of `am rx` launches `adb` with the 16 arguments `shell am start -n com.mobilehelp.stub.i2c/.services.I2CService -a fake --es dui <dui> --es address <address> --es signal <signal>` |
| `DispatchProperties.RxFlagsArgv` | src/main.rs:72-79 | with space-free values given, the step of `am rx` parsed from its flags launches `adb` with the `rx` template's arguments, each extra carrying the value given, or `30`, `1`, `5` for a dui, address or signal left out |
| `DispatchProperties.ExitCodeReportsRun` | src/main.rs:83-89 | the exit code is SUCCESS iff every step succeeded; `pull config` whose pull fails exits with FAILURE after one step, without trying to open the file |

## Left out

- Command-line parsing (src/main.rs:8-14, 84): the model starts from a parsed `Command`, and `Cli.Rx` supplies the `rx` defaults. A malformed command line or `--help` makes `Cli::parse` exit before `run`, with clap's own status (2 on an error). The SUCCESS/FAILURE of `Invoke` covers parsed commands only.
- Spawning and waiting for processes (src/main.rs:131-137) and the default opener (src/main.rs:147): these are operating-system effects. Their outcomes are the oracle inputs `SpawnResult` and the `open` flag.
- The message printed when a spawn fails (src/main.rs:139): console output with no effect on the result, unless writing to stdout fails, which panics instead of returning `Err`.
- The `str_split_remainder` feature attribute (src/main.rs:1): it has no behaviour.
- `Dispatch.ExitCodeOf`: the exit code is the abstract SUCCESS or FAILURE value, not a number. Its numeric value depends on the platform.
- `Dispatch.Run`: the source writes each command's steps out in line, each followed by `?`. The model lists the steps per command (`Steps`) and loops over that list. The order in which steps run and where a run stops are the same.
