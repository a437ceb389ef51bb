/** The command-line arguments of the program (src/arg.rs). Parsing itself is done by clap and is not modelled. */
module Arg {
  import opened Prelude

  /** The only output format the program knows. */
  datatype OutputFormat = Jsonl

  /** Why the arguments cannot be used as they are; a missing port is the only reason. */
  datatype ArgsErr = PortNotSpecified

  datatype Args = Args(
    port: Option<string>,
    outputFormat: OutputFormat,
    voiceboxUrl: Option<string>,
    voiceboxSpeaker: nat,
    audioOutputDeviceName: Option<string>)
  {
    /** What is still missing before the program can start: exactly a missing port. */
    function Error(): (r: Option<ArgsErr>)
      ensures r.Some? <==> port.None?
      ensures r.Some? ==> r.value == PortNotSpecified
    {
      if port.None? then Some(PortNotSpecified) else None
    }
  }

  /** Declared default of `--output-format`. */
  const DefaultOutputFormat: OutputFormat := Jsonl

  /** Declared default of `--voicebox-speaker`. */
  const DefaultVoiceboxSpeaker: nat := 1

  /** The arguments clap produces when no flag is given on the command line. */
  function DefaultArgs(): (a: Args)
    ensures a.Error() == Some(PortNotSpecified)
    ensures a.outputFormat == Jsonl && a.voiceboxSpeaker == 1
    ensures a.voiceboxUrl.None? && a.audioOutputDeviceName.None?
  {
    Args(None, DefaultOutputFormat, None, DefaultVoiceboxSpeaker, None)
  }
}
