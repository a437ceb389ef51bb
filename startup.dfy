/**
 * Startup port resolution: `finalize_args` in src/main.rs. The port lister and the user are oracle
 * inputs: `listing` is what `Port::available_ports` answers, `input` the lines the user types at the
 * console prompt.
 */
module Startup {
  import opened Prelude
  import opened Arg
  import opened Tui

  /** The program's top-level errors. */
  datatype AppErr = Aborted | NoAvailablePorts | SerialPortError(msg: string) | AudioDeviceError(msg: string)

  /** What the port lister answered: the ports it found, or its error text. */
  type Listing = Result<seq<PortInfo>, string>

  /**
   * The end of startup: `finalize_args` returned its result, or it is still waiting at the prompt
   * because no decisive line has been typed.
   */
  datatype Startup = Resolved(result: Result<Args, AppErr>) | StillPrompting

  /**
   * `finalize_args`: a port given on the command line is kept as it is; otherwise the port lister is
   * consulted and the user picks one of the ports it found. The source wraps this in a `loop`, but
   * every path through its body returns, so the loop never runs a second time.
   */
  method FinalizeArgs(args: Args, listing: Listing, input: seq<string>) returns (r: Startup)
    ensures args.port.Some? ==> r == Resolved(Ok(args))
    ensures args.port.None? && listing.Err? ==> r == Resolved(Err(SerialPortError(listing.error)))
    ensures args.port.None? && listing == Ok([]) ==> r == Resolved(Err(NoAvailablePorts))
    ensures args.port.None? && listing.Ok? && listing.value != [] ==>
      match Select(listing.value, input)
      case Quit => r == Resolved(Err(Aborted))
      case Chosen(p) => r == Resolved(Ok(args.(port := Some(p.portName))))
      case NoDecision => r == StillPrompting
    ensures r.Resolved? && r.result.Ok? ==>
      r.result.value.Error().None? && r.result.value == args.(port := r.result.value.port)
    ensures args.port.None? && r.Resolved? && r.result.Ok? ==>
      listing.Ok? && exists p :: p in listing.value && r.result.value.port == Some(p.portName)
  {
    var a := args;
    match a.Error()
    case None =>
      return Resolved(Ok(a));
    case Some(PortNotSpecified) =>
      match listing
      case Ok(ports) =>
        if ports == [] {
          return Resolved(Err(NoAvailablePorts));
        }
        var port, _ := AskPort(ports, input);
        match port {
          case Quit =>
            return Resolved(Err(Aborted));
          case NoDecision =>
            return StillPrompting;
          case Chosen(p) =>
            a := a.(port := Some(p.portName));
            return Resolved(Ok(a));
        }
      case Err(e) =>
        return Resolved(Err(SerialPortError(e)));
  }

  /** The arguments every unit test of `finalize_args` starts from, with the given port. */
  function TestArgs(port: Option<string>): Args {
    Args(port, Jsonl, None, 1, None)
  }

  /** Unit test `not_specify_port_no_available_ports`. */
  method NoPortAndNoAvailablePorts() returns (r: Startup)
    ensures r == Resolved(Err(NoAvailablePorts))
  {
    r := FinalizeArgs(TestArgs(None), Ok([]), []);
  }

  /** Unit test `port_is_specified_by_args`: the lister's empty answer is never looked at. */
  method PortSpecifiedByArgs() returns (r: Startup)
    ensures r.Resolved? && r.result.Ok? && r.result.value.port == Some("Port0")
  {
    r := FinalizeArgs(TestArgs(Some("Port0")), Ok([]), []);
  }

  /** Unit test `port_is_not_specified_but_quit`; the test double's `None` answer is typing "q" here. */
  method PortNotSpecifiedButQuit() returns (r: Startup)
    ensures r == Resolved(Err(Aborted))
  {
    var ports := [PortInfo("port0", Unknown)];
    TypedQQuits(ports);
    assert Select(ports, ["q\n"]) == Quit;
    r := FinalizeArgs(TestArgs(None), Ok(ports), ["q\n"]);
  }

  /** Unit test `select_port`; the test double's answer "port1" is typing "2" here. */
  method SelectSecondPort() returns (r: Startup)
    ensures r.Resolved? && r.result.Ok? && r.result.value.port == Some("port1")
  {
    var ports := [PortInfo("port0", Unknown), PortInfo("port1", Unknown)];
    TypedNumberPicks(ports, 2);
    assert Decimal(2) + "\n" == "2\n";
    assert Select(ports, ["2\n"]) == Chosen(ports[1]);
    r := FinalizeArgs(TestArgs(None), Ok(ports), ["2\n"]);
  }
}
