/** The parsed command of the `tbs` tool.

    The command-line parser itself is not part of this model: a `Command`
    value is what the parser hands to `run`, with the defaults of the `rx`
    flags already filled in (see `Rx`). */
module Cli {

  /** `tbs pull …`: get files from the device. */
  datatype PullCommand = PullConfig | PullLog

  /** `tbs push …`: push files to the device. */
  datatype PushCommand = PushConfig

  /** `tbs clear …`: remove files from the device. */
  datatype ClearCommand = ClearLog

  /** `tbs am …`: activity manager commands. */
  datatype AmCommand =
    | Register(phone: string, token: string)
    | RX(dui: string, address: string, signal: string)

  /** The top-level verb with its sub-command. */
  datatype Command =
    | Pull(pull: PullCommand)
    | Push(push: PushCommand)
    | Clear(clear: ClearCommand)
    | AM(am: AmCommand)

  datatype Option<T> = None | Some(value: T)

  /** Defaults the parser gives the three `rx` flags. */
  const DefaultDui := "30"
  const DefaultAddress := "1"
  const DefaultSignal := "5"

  /** The `rx` sub-command as parsed: a flag given on the command line keeps
      its value, and a flag left out takes its default. */
  function Rx(dui: Option<string>, address: Option<string>, signal: Option<string>): (c: AmCommand)
    ensures c.RX?
    ensures dui.Some? ==> c.dui == dui.value
    ensures dui.None? ==> c.dui == "30"
    ensures address.Some? ==> c.address == address.value
    ensures address.None? ==> c.address == "1"
    ensures signal.Some? ==> c.signal == signal.value
    ensures signal.None? ==> c.signal == "5"
  {
    RX(if dui.Some? then dui.value else DefaultDui,
       if address.Some? then address.value else DefaultAddress,
       if signal.Some? then signal.value else DefaultSignal)
  }
}
