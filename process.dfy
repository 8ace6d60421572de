/** Launching one external program from a command line (`shell`) and
    handing a file to the platform's default opener (`open`).

    The operating system is not part of this model: whether the spawn
    succeeds, whether waiting for the child succeeds and whether the child
    exits successfully are an input (`SpawnResult`), and so is whether the
    opener succeeds. */
module Process {
  import opened TextSplit

  /** `Result<(), ()>`: a step either succeeds or fails, with no payload. */
  datatype Result = Ok | Err

  /** What waiting for a spawned child gives: an error, or its exit status
      (`success` is whether the status counts as success). */
  datatype WaitResult = WaitError | Exited(success: bool)

  /** What spawning gives: an error, or a child to wait for. */
  datatype SpawnResult = SpawnError | Spawned(wait: WaitResult)

  /** A program name with its argument vector, as handed to the spawn. */
  datatype Invocation = Invocation(program: string, args: seq<string>)

  /** How `shell` reads a command line: the first piece between single
      spaces names the program and the remaining pieces, in order, are its
      arguments. The pieces and their separators make up the whole line. */
  function Argv(line: string): (inv: Invocation)
    ensures Join([inv.program] + inv.args, ' ') == line
    ensures |inv.args| == Count(line, ' ')
    ensures ' ' !in inv.program
    ensures forall k :: 0 <= k < |inv.args| ==> ' ' !in inv.args[k]
  {
    var pieces := Split(line, ' ');
    JoinSplit(line, ' ');
    SplitLength(line, ' ');
    assert [pieces[0]] + pieces[1..] == pieces;
    Invocation(pieces[0], pieces[1..])
  }

  /** A process about to be launched: the program and the arguments
      collected so far. */
  class ProcessCommand {
    var program: string
    var args: seq<string>

    constructor (program: string)
      ensures this.program == program && args == []
    {
      this.program := program;
      args := [];
    }

    /** Appends arguments after those already collected. */
    method Args(more: seq<string>)
      modifies this
      ensures program == old(program)
      ensures args == old(args) + more
    {
      args := args + more;
    }
  }

  /** `shell`: launch the program a command line names, wait for it, and
      succeed only when it started, was waited for and exited successfully.
      `launched` is the program and argument vector the spawn was
      attempted with, whether or not a process came of it. */
  method Shell(line: string, spawn: SpawnResult) returns (r: Result, launched: Invocation)
    ensures launched == Argv(line)
    ensures Join([launched.program] + launched.args, ' ') == line
    ensures r == Ok <==> spawn.Spawned? && spawn.wait.Exited? && spawn.wait.success
    ensures spawn.SpawnError? ==> r == Err
    ensures spawn == Spawned(WaitError) ==> r == Err
    ensures spawn == Spawned(Exited(false)) ==> r == Err
  {
    var split := Split(line, ' ');
    var program := split[0];
    var args := split[1..];
    var cmd := new ProcessCommand(program);
    if |args| > 0 {
      cmd.Args(args);
    }
    var ok;
    match spawn {
      case Spawned(child) =>
        match child {
          case Exited(status) => ok := status;
          case WaitError => ok := false;
        }
      case SpawnError =>
        ok := false;
    }
    launched := Invocation(cmd.program, cmd.args);
    r := if ok then Ok else Err;
  }

  /** `open`: hand a file to the default opener; any error of the opener
      becomes `Err`. */
  function Open(path: string, opens: bool): (r: Result)
    ensures r == Ok <==> opens
  {
    if opens then Ok else Err
  }
}
