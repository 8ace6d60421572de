/** `run` and `main` of the `tbs` tool: each command stands for a fixed,
    ordered list of steps; the steps are carried out one after another and
    the first failing step ends the run (the `?` after every step), and the
    process exit code says whether the run succeeded.

    The world is an oracle with one `Outcome` per step: what spawning and
    waiting gave for a `shell` step, whether the opener succeeded for an
    `open` step. */
module Dispatch {
  import opened TextSplit
  import opened Cli
  import opened Process

  /** One step of `run`: a command line handed to `shell`, or a file handed
      to `open`. */
  datatype Step = ShellStep(line: string) | OpenStep(path: string)

  /** What the world does when a step is carried out. */
  datatype Outcome = ShellOutcome(spawn: SpawnResult) | OpenOutcome(opens: bool)

  /** What a carried-out step did: the program and argument vector the
      spawn was attempted with, or a file handed to the opener. */
  datatype Effect = Spawn(invocation: Invocation) | OpenFile(path: string)

  /** The result of a run and how many steps it carried out. */
  datatype Report = Report(result: Result, attempted: nat)

  datatype ExitCode = Success | Failure

  // The command lines of `run`. Every template is a list of words written
  // with single spaces between them; the words are those of the line's
  // text, with each interpolated value as one word.

  const PullConfigWords: seq<string> := ["adb", "pull", "/sdcard/TBS/config.json"]
  const ConfigFile: string := "config.json"
  const PushConfigWords: seq<string> := ["adb", "push", "config.json", "/sdcard/TBS/"]
  const BroadcastWords: seq<string> :=
    ["adb", "shell", "am", "broadcast", "-a", "com.mobilehelp.action.config.updated"]
  const ClearLogWords: seq<string> := ["adb", "shell", "rm", "-rf", "/sdcard/TBS/Log/*"]

  /** `adb shell am start -n com.mobilehelp.alert/.ui.registration.WelcomeActivity
      -a com.mobilehelp.auto.register --es phone {phone} --es token {token}`:
      the phone and the token fill the last word of each `--es` extra. */
  function RegisterWords(phone: string, token: string): (words: seq<string>)
    ensures |words| == 14 && words[0] == "adb"
    ensures words[8..] == ["--es", "phone", phone, "--es", "token", token]
  {
    ["adb", "shell", "am", "start",
     "-n", "com.mobilehelp.alert/.ui.registration.WelcomeActivity",
     "-a", "com.mobilehelp.auto.register",
     "--es", "phone", phone, "--es", "token", token]
  }

  /** `adb shell am start -n com.mobilehelp.stub.i2c/.services.I2CService
      -a fake --es dui {dui} --es address {address} --es signal {signal}`:
      the three values fill the last word of each `--es` extra. */
  function RxWords(dui: string, address: string, signal: string): (words: seq<string>)
    ensures |words| == 17 && words[0] == "adb"
    ensures words[8..] == ["--es", "dui", dui, "--es", "address", address, "--es", "signal", signal]
  {
    ["adb", "shell", "am", "start",
     "-n", "com.mobilehelp.stub.i2c/.services.I2CService",
     "-a", "fake",
     "--es", "dui", dui, "--es", "address", address, "--es", "signal", signal]
  }

  /** A command line: the words with one space between neighbours. */
  function Line(words: seq<string>): (line: string)
    requires |words| >= 1
  {
    Join(words, ' ')
  }

  /** The steps `run` carries out for a command, in order. Every command has
      at most two steps, only `pull log` has none, and the only file opened
      is `config.json`, as the last step of `pull config`. */
  function Steps(c: Command): (steps: seq<Step>)
    ensures |steps| <= 2
    ensures steps == [] <==> c == Pull(PullLog)
    ensures forall k :: 0 <= k < |steps| && steps[k].OpenStep? ==>
              c == Pull(PullConfig) && k == |steps| - 1 && steps[k].path == "config.json"
  {
    match c
    case Pull(PullConfig) => [ShellStep(Line(PullConfigWords)), OpenStep(ConfigFile)]
    case Pull(PullLog) => []
    case Push(PushConfig) => [ShellStep(Line(PushConfigWords)), ShellStep(Line(BroadcastWords))]
    case Clear(ClearLog) => [ShellStep(Line(ClearLogWords))]
    case AM(Register(phone, token)) => [ShellStep(Line(RegisterWords(phone, token)))]
    case AM(RX(dui, address, signal)) => [ShellStep(Line(RxWords(dui, address, signal)))]
  }

  /** Whether carrying out `step` in a world that does `o` succeeds. */
  predicate Succeeds(step: Step, o: Outcome)
  {
    match step
    case ShellStep(_) => o == ShellOutcome(Spawned(Exited(true)))
    case OpenStep(_) => o == OpenOutcome(true)
  }

  /** The oracle has one outcome per step, of the step's own kind. */
  predicate Fits(steps: seq<Step>, oracle: seq<Outcome>)
  {
    |oracle| == |steps| &&
    forall i :: 0 <= i < |steps| ==> (steps[i].ShellStep? <==> oracle[i].ShellOutcome?)
  }

  /** Whether the first `n` steps all succeed. */
  predicate AllSucceed(steps: seq<Step>, oracle: seq<Outcome>, n: nat)
    requires n <= |steps| && n <= |oracle|
  {
    forall j :: 0 <= j < n ==> Succeeds(steps[j], oracle[j])
  }

  /** Carrying out steps in order, each one only if every earlier step
      succeeded: the specification of `run`. */
  function Execute(steps: seq<Step>, oracle: seq<Outcome>): (rep: Report)
    requires |oracle| == |steps|
    ensures rep.attempted <= |steps|
    ensures rep.result == Ok ==> rep.attempted == |steps|
    ensures rep.result == Err ==> rep.attempted >= 1
    decreases |steps|
  {
    if |steps| == 0 then Report(Ok, 0)
    else if !Succeeds(steps[0], oracle[0]) then Report(Err, 1)
    else
      var rest := Execute(steps[1..], oracle[1..]);
      Report(rest.result, rest.attempted + 1)
  }

  /** What carrying out each of `steps` does. */
  function Effects(steps: seq<Step>): (effects: seq<Effect>)
    ensures |effects| == |steps|
    ensures forall i :: 0 <= i < |steps| ==> effects[i] == EffectOf(steps[i])
  {
    seq(|steps|, i requires 0 <= i < |steps| => EffectOf(steps[i]))
  }

  function EffectOf(step: Step): Effect
  {
    match step
    case ShellStep(line) => Spawn(Argv(line))
    case OpenStep(path) => OpenFile(path)
  }

  /** A run stops at its first failing step: it succeeds exactly when every
      step succeeds, it carries out step `i` exactly when every step before
      `i` succeeded, and when it fails, the last step it carried out is the
      one that failed. */
  lemma {:induction false} ExecuteStopsAtFirstFailure(steps: seq<Step>, oracle: seq<Outcome>)
    requires |oracle| == |steps|
    ensures Execute(steps, oracle).result == Ok <==> AllSucceed(steps, oracle, |steps|)
    ensures forall i :: 0 <= i < |steps| ==>
              (i < Execute(steps, oracle).attempted <==> AllSucceed(steps, oracle, i))
    ensures Execute(steps, oracle).result == Err ==>
              var n := Execute(steps, oracle).attempted;
              AllSucceed(steps, oracle, n - 1) && !Succeeds(steps[n - 1], oracle[n - 1])
    decreases |steps|
  {
    if |steps| > 0 {
      var rest, orest := steps[1..], oracle[1..];
      ExecuteStopsAtFirstFailure(rest, orest);
      forall i | 1 <= i <= |steps|
        ensures AllSucceed(steps, oracle, i) <==>
                  Succeeds(steps[0], oracle[0]) && AllSucceed(rest, orest, i - 1)
      {
        if AllSucceed(steps, oracle, i) {
          forall j | 0 <= j < i - 1 ensures Succeeds(rest[j], orest[j]) {
            assert Succeeds(steps[j + 1], oracle[j + 1]);
          }
        }
        if Succeeds(steps[0], oracle[0]) && AllSucceed(rest, orest, i - 1) {
          forall j | 0 <= j < i ensures Succeeds(steps[j], oracle[j]) {
            if j > 0 { assert Succeeds(rest[j - 1], orest[j - 1]); }
          }
        }
      }
    }
  }

  /** Carrying out steps in order, stopping at the first that fails: a
      prefix of the steps is carried out, all of them when the run
      succeeds, up to and including the first failing one when it fails. */
  method RunSteps(steps: seq<Step>, oracle: seq<Outcome>) returns (r: Result, effects: seq<Effect>)
    requires Fits(steps, oracle)
    ensures Report(r, |effects|) == Execute(steps, oracle)
    ensures |effects| <= |steps| && effects == Effects(steps[..|effects|])
    ensures r == Ok <==> AllSucceed(steps, oracle, |steps|)
  {
    ExecuteStopsAtFirstFailure(steps, oracle);
    effects := [];
    var i := 0;
    while i < |steps|
      invariant 0 <= i <= |steps|
      invariant effects == Effects(steps[..i])
      invariant AllSucceed(steps, oracle, i)
    {
      var stepResult;
      match steps[i] {
        case ShellStep(line) =>
          var launched;
          stepResult, launched := Shell(line, oracle[i].spawn);
          effects := effects + [Spawn(launched)];
        case OpenStep(path) =>
          stepResult := Open(path, oracle[i].opens);
          effects := effects + [OpenFile(path)];
      }
      assert steps[..i + 1] == steps[..i] + [steps[i]];
      if stepResult == Err {
        return Err, effects;
      }
      i := i + 1;
    }
    assert steps[..i] == steps;
    r := Ok;
  }

  /** `run`: carry out the command's steps in order, stopping at the first
      that fails. */
  method Run(c: Command, oracle: seq<Outcome>) returns (r: Result, effects: seq<Effect>)
    requires Fits(Steps(c), oracle)
    ensures Report(r, |effects|) == Execute(Steps(c), oracle)
    ensures |effects| <= |Steps(c)| && effects == Effects(Steps(c)[..|effects|])
    ensures r == Ok <==> AllSucceed(Steps(c), oracle, |Steps(c)|)
  {
    r, effects := RunSteps(Steps(c), oracle);
  }

  /** `main`: the exit code reports whether `run` succeeded. */
  function ExitCodeOf(r: Result): (code: ExitCode)
    ensures code == Success <==> r == Ok
    ensures code == Failure <==> r == Err
  {
    match r
    case Ok => Success
    case Err => Failure
  }

  /** The whole tool on an already-parsed command: the exit code is success
      exactly when every step of the command succeeded. */
  method Invoke(c: Command, oracle: seq<Outcome>) returns (code: ExitCode, effects: seq<Effect>)
    requires Fits(Steps(c), oracle)
    ensures code == Success <==> AllSucceed(Steps(c), oracle, |Steps(c)|)
    ensures |effects| == Execute(Steps(c), oracle).attempted
    ensures effects == Effects(Steps(c)[..|effects|])
  {
    var r;
    r, effects := Run(c, oracle);
    code := ExitCodeOf(r);
  }
}
