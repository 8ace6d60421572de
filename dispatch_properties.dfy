/** What `run` does for each command: which steps run in which order,
    and the argument vectors the templated command lines turn into. */
module DispatchProperties {
  import opened TextSplit
  import opened Cli
  import opened Process
  import opened Dispatch

  const ShellSucceeds := ShellOutcome(Spawned(Exited(true)))

  /** `pull config`: the file is opened only when the `adb pull` succeeded,
      and the run succeeds only when both the pull and the open did. */
  lemma PullConfigOpensOnlyAfterPull(oracle: seq<Outcome>)
    requires Fits(Steps(Pull(PullConfig)), oracle)
    ensures Steps(Pull(PullConfig))[1] == OpenStep("config.json")
    ensures Execute(Steps(Pull(PullConfig)), oracle).attempted == 2 <==> oracle[0] == ShellSucceeds
    ensures Execute(Steps(Pull(PullConfig)), oracle).result == Ok <==>
              oracle[0] == ShellSucceeds && oracle[1] == OpenOutcome(true)
  {
    var steps := Steps(Pull(PullConfig));
    ExecuteStopsAtFirstFailure(steps, oracle);
    assert AllSucceed(steps, oracle, 1) <==> oracle[0] == ShellSucceeds;
  }

  /** `push config`: the broadcast is sent only when the `adb push`
      succeeded, and the run succeeds only when both did. */
  lemma PushConfigBroadcastsOnlyAfterPush(oracle: seq<Outcome>)
    requires Fits(Steps(Push(PushConfig)), oracle)
    ensures Execute(Steps(Push(PushConfig)), oracle).attempted == 2 <==> oracle[0] == ShellSucceeds
    ensures Execute(Steps(Push(PushConfig)), oracle).result == Ok <==>
              oracle[0] == ShellSucceeds && oracle[1] == ShellSucceeds
  {
    var steps := Steps(Push(PushConfig));
    ExecuteStopsAtFirstFailure(steps, oracle);
    assert AllSucceed(steps, oracle, 1) <==> oracle[0] == ShellSucceeds;
  }

  /** `pull log` has no steps: it launches nothing and always succeeds. */
  lemma PullLogDoesNothing(oracle: seq<Outcome>)
    requires Fits(Steps(Pull(PullLog)), oracle)
    ensures Steps(Pull(PullLog)) == []
    ensures Execute(Steps(Pull(PullLog)), oracle) == Report(Ok, 0)
  {
  }

  /** The one-step commands succeed exactly when their one `adb` process
      is spawned, waited for and exits successfully. */
  lemma SingleStepCommands(c: Command, oracle: seq<Outcome>)
    requires c.Clear? || c.AM?
    requires Fits(Steps(c), oracle)
    ensures |Steps(c)| == 1 && Steps(c)[0].ShellStep?
    ensures Execute(Steps(c), oracle) ==
              if oracle[0] == ShellSucceeds then Report(Ok, 1) else Report(Err, 1)
  {
    assert Steps(c)[1..] == [];
  }

  // Writing a short list of words out with single spaces between them.

  lemma Join3(a: string, b: string, c: string)
    ensures Join([a, b, c], ' ') == a + " " + b + " " + c
  {
    JoinCons(b, [c], ' ');
    assert [b, c] == [b] + [c];
    JoinCons(a, [b, c], ' ');
    assert [a, b, c] == [a] + [b, c];
  }

  lemma Join4(a: string, b: string, c: string, d: string)
    ensures Join([a, b, c, d], ' ') == a + " " + b + " " + c + " " + d
  {
    Join3(b, c, d);
    JoinCons(a, [b, c, d], ' ');
    assert [a, b, c, d] == [a] + [b, c, d];
  }

  lemma Join5(a: string, b: string, c: string, d: string, e: string)
    ensures Join([a, b, c, d, e], ' ') == a + " " + b + " " + c + " " + d + " " + e
  {
    Join4(b, c, d, e);
    JoinCons(a, [b, c, d, e], ' ');
    assert [a, b, c, d, e] == [a] + [b, c, d, e];
  }

  lemma Join6(a: string, b: string, c: string, d: string, e: string, f: string)
    ensures Join([a, b, c, d, e, f], ' ') == a + " " + b + " " + c + " " + d + " " + e + " " + f
  {
    Join5(b, c, d, e, f);
    JoinCons(a, [b, c, d, e, f], ' ');
    assert [a, b, c, d, e, f] == [a] + [b, c, d, e, f];
  }

  /** The broadcast line up to its action, whatever the action is. */
  lemma BroadcastPrefix(action: string)
    ensures Join(["adb", "shell", "am", "broadcast", "-a", action], ' ') ==
              "adb shell am broadcast -a " + action
  {
    Join6("adb", "shell", "am", "broadcast", "-a", action);
  }

  lemma BroadcastAction()
    ensures "adb shell am broadcast -a " + "com.mobilehelp.action.config.updated" ==
              "adb shell am broadcast -a com.mobilehelp.action.config.updated"
  {
  }

  /** `pull config` runs `adb pull /sdcard/TBS/config.json`, then opens
      `config.json`. */
  lemma PullConfigSteps()
    ensures Steps(Pull(PullConfig)) ==
              [ShellStep("adb pull /sdcard/TBS/config.json"), OpenStep("config.json")]
  {
    PullConfigLine();
  }

  lemma PullConfigLine()
    ensures Line(PullConfigWords) == "adb pull /sdcard/TBS/config.json"
  {
    var w := PullConfigWords;
    assert Join(w[1..], ' ') == "pull" + " " + "/sdcard/TBS/config.json";
  }

  /** `push config` runs `adb push config.json /sdcard/TBS/`, then the
      `config.updated` broadcast. */
  lemma PushConfigSteps()
    ensures Steps(Push(PushConfig)) ==
              [ShellStep("adb push config.json /sdcard/TBS/"),
               ShellStep("adb shell am broadcast -a com.mobilehelp.action.config.updated")]
  {
    Join4("adb", "push", "config.json", "/sdcard/TBS/");
    BroadcastPrefix("com.mobilehelp.action.config.updated");
    BroadcastAction();
    assert Line(PushConfigWords) == "adb push config.json /sdcard/TBS/";
    assert Line(BroadcastWords) == "adb shell am broadcast -a com.mobilehelp.action.config.updated";
  }

  /** `clear log` runs one remote `rm -rf` of the device's log directory. */
  lemma ClearLogSteps()
    ensures Steps(Clear(ClearLog)) == [ShellStep("adb shell rm -rf /sdcard/TBS/Log/*")]
  {
    Join5("adb", "shell", "rm", "-rf", "/sdcard/TBS/Log/*");
    assert Line(ClearLogWords) == "adb shell rm -rf /sdcard/TBS/Log/*";
  }

  /** `pull config` first launches `adb` with `pull /sdcard/TBS/config.json`. */
  lemma PullConfigArgv()
    ensures EffectOf(Steps(Pull(PullConfig))[0]) ==
              Spawn(Invocation("adb", ["pull", "/sdcard/TBS/config.json"]))
  {
    var w := PullConfigWords;
    assert ' ' !in w[0] && ' ' !in w[1] && ' ' !in w[2];
    WordsArgv(w);
  }

  /** `push config` first launches `adb` with `push config.json /sdcard/TBS/`. */
  lemma PushConfigArgv()
    ensures EffectOf(Steps(Push(PushConfig))[0]) ==
              Spawn(Invocation("adb", ["push", "config.json", "/sdcard/TBS/"]))
  {
    var w := PushConfigWords;
    assert ' ' !in w[0] && ' ' !in w[1] && ' ' !in w[2] && ' ' !in w[3];
    WordsArgv(w);
  }

  /** `push config` then launches the `config.updated` broadcast. */
  lemma BroadcastArgv()
    ensures EffectOf(Steps(Push(PushConfig))[1]) ==
              Spawn(Invocation("adb", ["shell", "am", "broadcast", "-a", "com.mobilehelp.action.config.updated"]))
  {
    var w := BroadcastWords;
    assert ' ' !in w[0] && ' ' !in w[1] && ' ' !in w[2] && ' ' !in w[3] && ' ' !in w[4] && ' ' !in w[5];
    WordsArgv(w);
  }

  /** `clear log` launches one remote `rm -rf` of the device's log files. */
  lemma ClearLogArgv()
    ensures EffectOf(Steps(Clear(ClearLog))[0]) ==
              Spawn(Invocation("adb", ["shell", "rm", "-rf", "/sdcard/TBS/Log/*"]))
  {
    var w := ClearLogWords;
    assert ' ' !in w[0] && ' ' !in w[1] && ' ' !in w[2] && ' ' !in w[3] && ' ' !in w[4];
    WordsArgv(w);
  }

  /** The `register` template's own words hold no space: its words are
      space-free exactly when phone and token are. */
  lemma RegisterWordsSpaceFree(phone: string, token: string)
    ensures NoneContains(RegisterWords(phone, token), ' ') <==> ' ' !in phone && ' ' !in token
  {
    var w := RegisterWords(phone, token);
    assert ' ' !in w[0] && ' ' !in w[1] && ' ' !in w[2] && ' ' !in w[3] && ' ' !in w[4];
    assert ' ' !in w[5] && ' ' !in w[6] && ' ' !in w[7] && ' ' !in w[8] && ' ' !in w[9];
    assert ' ' !in w[11] && ' ' !in w[12];
    assert w[10] == phone && w[13] == token;
  }

  /** The `rx` template's own words hold no space: its words are space-free
      exactly when the three values are. */
  lemma RxWordsSpaceFree(dui: string, address: string, signal: string)
    ensures NoneContains(RxWords(dui, address, signal), ' ') <==>
              ' ' !in dui && ' ' !in address && ' ' !in signal
  {
    var w := RxWords(dui, address, signal);
    assert ' ' !in w[0] && ' ' !in w[1] && ' ' !in w[2] && ' ' !in w[3] && ' ' !in w[4];
    assert ' ' !in w[5] && ' ' !in w[6] && ' ' !in w[7] && ' ' !in w[8] && ' ' !in w[9];
    assert ' ' !in w[11] && ' ' !in w[12] && ' ' !in w[14] && ' ' !in w[15];
    assert w[10] == dui && w[13] == address && w[16] == signal;
  }

  /** Words without spaces, written with single spaces between them, come
      back out of `shell` as program and arguments. */
  lemma WordsArgv(words: seq<string>)
    requires |words| >= 1 && NoneContains(words, ' ')
    ensures Argv(Line(words)) == Invocation(words[0], words[1..])
  {
    SplitJoin(words, ' ');
  }

  /** A templated line yields exactly its template's words as program and
      arguments when no value holds a space, and more pieces otherwise. */
  lemma TemplateArgvLength(words: seq<string>)
    requires |words| >= 1
    ensures 1 + |Argv(Line(words)).args| >= |words|
    ensures 1 + |Argv(Line(words)).args| == |words| <==> NoneContains(words, ' ')
  {
    SplitJoinEach(words, ' ');
    SplitEachLength(words, ' ');
  }

  /** `am register` with space-free phone and token launches `adb` with the
      template's words, ending in `--es phone <phone> --es token <token>`. */
  lemma RegisterArgv(phone: string, token: string)
    requires ' ' !in phone && ' ' !in token
    ensures EffectOf(Steps(AM(Register(phone, token)))[0]) ==
              Spawn(Invocation("adb", ["shell", "am", "start",
                                       "-n", "com.mobilehelp.alert/.ui.registration.WelcomeActivity",
                                       "-a", "com.mobilehelp.auto.register",
                                       "--es", "phone", phone, "--es", "token", token]))
  {
    RegisterWordsSpaceFree(phone, token);
    WordsArgv(RegisterWords(phone, token));
  }

  /** A space inside the phone or the token is not kept inside one
      argument: `adb` then receives more than the template's 13 arguments.
      The argument count is 13 exactly when both values are space-free. */
  lemma RegisterSpaceSplitsValue(phone: string, token: string)
    ensures |Argv(Steps(AM(Register(phone, token)))[0].line).args| >= 13
    ensures |Argv(Steps(AM(Register(phone, token)))[0].line).args| == 13 <==>
              ' ' !in phone && ' ' !in token
  {
    RegisterWordsSpaceFree(phone, token);
    TemplateArgvLength(RegisterWords(phone, token));
  }

  /** `am rx` with space-free values launches `adb` with the template's
      words, ending in the three string extras with the values given. */
  lemma RxArgv(dui: string, address: string, signal: string)
    requires ' ' !in dui && ' ' !in address && ' ' !in signal
    ensures EffectOf(Steps(AM(RX(dui, address, signal)))[0]) ==
              Spawn(Invocation("adb", ["shell", "am", "start",
                                       "-n", "com.mobilehelp.stub.i2c/.services.I2CService",
                                       "-a", "fake",
                                       "--es", "dui", dui, "--es", "address", address,
                                       "--es", "signal", signal]))
  {
    RxWordsSpaceFree(dui, address, signal);
    WordsArgv(RxWords(dui, address, signal));
  }

  /** `am rx` as parsed from its flags: each string extra carries the value
      given on the command line, or its default (dui 30, address 1,
      signal 5) when the flag was left out. */
  lemma RxFlagsArgv(dui: Option<string>, address: Option<string>, signal: Option<string>)
    requires dui.Some? ==> ' ' !in dui.value
    requires address.Some? ==> ' ' !in address.value
    requires signal.Some? ==> ' ' !in signal.value
    ensures EffectOf(Steps(AM(Rx(dui, address, signal)))[0]) ==
              Spawn(Invocation("adb", ["shell", "am", "start",
                                       "-n", "com.mobilehelp.stub.i2c/.services.I2CService",
                                       "-a", "fake",
                                       "--es", "dui", if dui.Some? then dui.value else "30",
                                       "--es", "address", if address.Some? then address.value else "1",
                                       "--es", "signal", if signal.Some? then signal.value else "5"]))
  {
    var c := Rx(dui, address, signal);
    assert c == RX(c.dui, c.address, c.signal);
    assert ' ' !in DefaultDui && ' ' !in DefaultAddress && ' ' !in DefaultSignal;
    RxArgv(c.dui, c.address, c.signal);
  }

  /** The exit code of the tool is success exactly when every step of the
      command succeeded; in particular `pull config` whose pull fails exits
      with failure without trying to open the file. */
  lemma ExitCodeReportsRun(c: Command, oracle: seq<Outcome>)
    requires |oracle| == |Steps(c)|
    ensures ExitCodeOf(Execute(Steps(c), oracle).result) == Success <==>
              AllSucceed(Steps(c), oracle, |Steps(c)|)
    ensures c == Pull(PullConfig) && oracle[0] != ShellSucceeds ==>
              ExitCodeOf(Execute(Steps(c), oracle).result) == Failure &&
              Execute(Steps(c), oracle).attempted == 1
  {
    ExecuteStopsAtFirstFailure(Steps(c), oracle);
  }
}
