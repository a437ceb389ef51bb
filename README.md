# m6000m-rs in Dafny

A model of the core of m6000m-rs, a reader for a digital multimeter whose serial protocol is ES51986.
It covers four parts:

- **Startup.** `Args::error` and the argument defaults (`arg.dfy`), the interactive port prompt `Tui::ask_port` and its test double (`tui.dfy`), and `finalize_args` with its four unit tests (`startup.dfy`).
- **Serial reader.** The worker that reads 64-byte chunks from the serial port, forwards them to the main thread and sends a break signal after a silence of more than three seconds: `launch_serialport_worker`, `send_break_if_needed` and `send_break` (`reader.dfy`).
- **Dispatch.** The subscriber registry that `main` builds, and `main`'s loop that decodes each chunk and hands every record to every subscriber in registration order (`dispatch.dfy`).
- **Subscribers.** The standard-output recorder, and the spoken readout with its drain-to-latest mailbox `last_msg`, its URL trim and its phrase table (`subscriber.dfy`).

The two `std::sync::mpsc` channels of the program are one class, `Mpsc.Channel` (`mpsc.dfy`). It holds the queue of pending messages and whether each end is still held. The interface of the external ES51986 decoder that the program consumes is `es51986.dfy`.

Nothing in the environment is executed. Each external input becomes a parameter:

- the console lines the user types;
- the port lister's answer;
- what each serial read returns;
- the clock readings, as integers in milliseconds;
- whether `set_break` and `clear_break` succeed;
- the decoder, as a function from a chunk to its decode results.

Modelling choices:

- `usize` is 64 bits wide. `str::parse::<usize>` accepts an optional leading `+` and rejects values above 2^64-1.
- `str::trim` strips the Unicode White_Space characters.
- `Instant::elapsed` saturates at zero.
- An end of input at the port prompt is modelled as the outcome `NoDecision`, which `finalize_args` turns into `StillPrompting`. The console build would prompt forever at that point, because `read_line` then yields an empty line and an empty line is invalid.
- The unit tests of `finalize_args` use the test build's `Tui`, which returns a preset answer. The scenario methods in `startup.dfy` give the same answers through the console prompt instead: typing `q` stands for the preset `None`, and typing `2` stands for the preset `port1`.
- The phrase table maps the unprefixed unit (`PrefixUnit::None`) to the same word as nano, as the source does. `Subscriber.PrefixWordsCollideOnlyForNano` proves that this is the only collision, and `Subscriber.PhraseDeterminesReading` proves that the phrase determines the reading up to it.

## Model

| member | source | states |
|---|---|---|
| Arg.Args.Error | src/arg.rs:29-35 | The arguments are unusable exactly when no port is given, and the reason is then `PortNotSpecified`. |
| Arg.DefaultArgs | src/arg.rs:10-26 | With no flags, the port is missing (so `Error` reports it), the format is JSONL, the speaker is 1, and there is no voice URL and no audio device. |
| Tui.TrimStartIsSuffix | src/tui.rs:28 | Trimming the front keeps a suffix of the line. Everything dropped is white space, and what is kept does not start with white space. |
| Tui.TrimEndIsPrefix | src/tui.rs:28 | Trimming the end keeps a prefix of the line. Everything dropped is white space, and what is kept does not end with white space. |
| Tui.Trim | src/tui.rs:28 | The trimmed line is never longer than the line, and it neither starts nor ends with white space. |
| Tui.TrimIsInfix | src/tui.rs:28 | The trimmed line is one contiguous piece of the line, and everything on either side of it is white space. |
| Tui.AllDigitsAt | src/tui.rs:32 | The recursive all-digits test holds exactly when every character of the text is a decimal digit. |
| Tui.ParseUsizeAccepts | src/tui.rs:32 | A `usize` parse succeeds only on an optional `+` followed by at least one character, all of them digits, and its value fits in 64 bits. |
| Tui.ParseUsize | src/tui.rs:32 | A parsed value always fits in a 64-bit `usize`, and an empty text or a lone `+` never parses. |
| Tui.DecimalValue | src/tui.rs:32 | The decimal spelling of n reads back as n. |
| Tui.ParseUsizeRoundTrip | src/tui.rs:32 | Every number that fits in a `usize` parses back from its decimal spelling, with or without a leading `+`. |
| Tui.Classify | src/tui.rs:28-49 | A line can only ever pick one of the offered ports. |
| Tui.ClassifyMeaning | src/tui.rs:28-49 | Both directions on the trimmed line. It quits exactly when the line is "q". It picks exactly when the line parses to a number from 1 to the number of ports, and it then picks entry n-1. |
| Tui.TypedNumberPicks | src/tui.rs:26-42 | Typing an entry's number followed by the newline that `read_line` keeps picks that entry. |
| Tui.TypedQQuits | src/tui.rs:26-30 | Typing "q" followed by a newline quits. |
| Tui.FirstDecisionIsFirstDecisive | src/tui.rs:19-51 | From position k, the verdict scan decides nothing exactly when every later verdict is invalid. Otherwise it returns the decision of the first verdict that is not invalid. |
| Tui.Select | src/tui.rs:19-51 | The prompt's answer is always one of the offered ports. |
| Tui.SelectIsFirstDecisiveLine | src/tui.rs:19-51 | The prompt decides nothing exactly when every line is invalid. Otherwise its answer is the verdict of the first line that is not invalid, and every line before that one is invalid. |
| Tui.DecisiveStep | src/tui.rs:28-50 | An invalid line leaves the decision to the following lines, and any other line decides. |
| Tui.AskPort | src/tui.rs:18-52 | The console prompt returns the decision of the first decisive line. That line is the last one it read, and every line it read before it was invalid. When no line decides, it has read all the input. |
| Tui.TuiDouble.AskPort | src/tui.rs:57-60 | The test double records the ports it was offered and returns its preset answer unchanged. |
| Startup.FinalizeArgs | src/main.rs:38-66 | Error paths: a lister error becomes `SerialPortError` with its text, an empty port list becomes `NoAvailablePorts`, and a "q" at the prompt becomes `Aborted`. A port given on the command line is kept untouched. On success the arguments are unchanged apart from the port, `Error` is `None`, and a prompted port is one of the listed ports. |
| Startup.NoPortAndNoAvailablePorts | src/main.rs:244-257 | No port and an empty port list give `NoAvailablePorts`. |
| Startup.PortSpecifiedByArgs | src/main.rs:259-273 | A port given on the command line is the port returned. |
| Startup.PortNotSpecifiedButQuit | src/main.rs:275-293 | Quitting at the prompt gives `Aborted`. |
| Startup.SelectSecondPort | src/main.rs:295-324 | Choosing the second of two listed ports sets the port to "port1". |
| Reader.Next | src/main.rs:123-152 | One worker turn. A nonempty read forwards exactly its bytes and resets the time of last reception. A break is sent only after an idle read, only when strictly more than the timeout has elapsed, and it resets the time. An idle read with no break due changes nothing. The process exits exactly on a read error, a failed `set_break`, or a send to a gone consumer. |
| Reader.ClearBreakFailureIsHarmless | src/main.rs:95-102 | A failing `clear_break` never changes what a turn does. |
| Reader.Run | src/main.rs:123-153 | A run over n events completes at most n turns, and it stops early exactly when the process exits. |
| Reader.RunForwardsEveryChunk | src/main.rs:124-135 | While the consumer lives, the chunks forwarded by the completed turns are exactly the nonempty reads, in order, with no loss, duplication or reordering. The worker then stops only on a read error or a failed `set_break`. |
| Reader.BreaksAreSpaced | src/main.rs:105-116 | On a clock that never runs backwards, the first break comes more than the timeout after the start, and each later break comes more than the timeout after the previous break completed. |
| Reader.MonotoneFromEarlier | src/main.rs:121-146 | A clock that is monotone from some time is also monotone from any earlier time. |
| Reader.SendBreak | src/main.rs:84-103 | The worker survives a break exactly when `set_break` succeeds, and the result of `clear_break` does not matter. |
| Reader.SendBreakIfNeeded | src/main.rs:105-116 | A break is sent exactly when strictly more than the timeout has elapsed. The process exits exactly when a break is due and `set_break` fails. |
| Reader.SerialWorker.constructor | src/main.rs:119-122 | The worker starts with a 64-byte buffer, and the clock at spawn is its time of last reception. |
| Reader.SerialWorker.Turn | src/main.rs:124-152 | One turn of the task is `Next`. The read's bytes land at the front of the buffer, the channel gains exactly the forwarded chunk, and the time of last reception is updated. |
| Reader.SerialWorker.IdleTurn | src/main.rs:136-146 | An idle read runs the keepalive rule. The time of last reception moves to the post-break clock only when a break was sent. |
| Mpsc.Channel.Send | src/data_subscriber.rs:202 | A send delivers exactly its message at the back of the queue while the receiver lives. Otherwise it fails and changes nothing. |
| Mpsc.Channel.TryRecv | src/data_subscriber.rs:54-57 | `try_recv` takes the oldest message. On an empty queue it answers `Empty` while a sender lives and `Disconnected` after. |
| Mpsc.Channel.Recv | src/main.rs:223 | `recv` takes the oldest message. On an empty queue it blocks while a sender lives and fails after. |
| Mpsc.Channel.constructor | src/main.rs:119 | `mpsc::channel()` (also at data_subscriber.rs:167) opens an empty channel with both ends held. |
| Mpsc.Channel.DropSender | src/data_subscriber.rs:37-41 | Dropping the sender (the subscriber that owns it going away) keeps the pending messages, and the receiver is left as it was. |
| Mpsc.Channel.DropReceiver | src/data_subscriber.rs:172-175 | Dropping the receiver (the worker leaving its loop) discards what was still queued, and the sender is left as it was. |
| Subscriber.LineFor | src/data_subscriber.rs:27-30 | The recorder's line carries the record itself and its primary value. |
| Subscriber.StdoutDataSubscriber.constructor | src/data_subscriber.rs:18-20 | The recorder keeps the chosen output format and has written nothing yet. |
| Subscriber.StdoutDataSubscriber.OnData | src/data_subscriber.rs:23-35 | Each record appends exactly one line, its own, to what was written. |
| Subscriber.PrefixWord | src/data_subscriber.rs:187-194 | Every prefix word is nonempty and starts with a non-ASCII character. |
| Subscriber.BaseWord | src/data_subscriber.rs:195-201 | Every base-unit word is nonempty and starts with a non-ASCII character. |
| Subscriber.Phrase | src/data_subscriber.rs:202 | The phrase starts with the reading's digits, and the character right after them is non-ASCII, so the unit words follow directly. |
| Subscriber.PrefixWordsCollideOnlyForNano | src/data_subscriber.rs:187-194 | Two prefixes are spoken alike exactly when they are equal or are the unprefixed case and nano. |
| Subscriber.BaseWordLastCharIsUnique | src/data_subscriber.rs:195-201 | Base-unit words end in pairwise distinct characters, so each base unit has its own word. |
| Subscriber.FirstNonAsciiAfterAscii | src/data_subscriber.rs:202 | In an ASCII text followed by a word starting with a non-ASCII character, the first non-ASCII character is where the word begins. |
| Subscriber.AsciiHeadDetermined | src/data_subscriber.rs:202 | An ASCII head followed by a non-ASCII-led tail can be split in only one way. |
| Subscriber.PhraseDeterminesReading | src/data_subscriber.rs:185-202 | When two readings with ASCII digits give the same phrase, they have the same digits and the same base unit, and prefixes that are spoken alike. |
| Subscriber.TrimTrailingSlash | src/data_subscriber.rs:162-166 | The base URL loses its final "/" exactly when it ends in one, and nothing else changes. |
| Subscriber.VoiceboxDataSubscriber.constructor | src/data_subscriber.rs:161-180 | The subscriber keeps the trimmed URL and the speaker, and it owns a fresh, empty mailbox with both ends held. |
| Subscriber.VoiceboxDataSubscriber.OnData | src/data_subscriber.rs:183-204 | A record with a primary value enqueues exactly its phrase, and one without a value enqueues nothing. The send never fails while the subscriber lives. |
| Subscriber.VoiceboxDataSubscriber.LastMsg | src/data_subscriber.rs:49-63 | Once the sender is gone the answer is Disconnected, even with messages pending. With a live sender it is the newest pending message, and the mailbox is left empty. It blocks on an empty mailbox. |
| Subscriber.VoiceboxDataSubscriber.WorkerTurn | src/data_subscriber.rs:169-177 | The worker speaks the latest message. It stops, dropping the receiver, only on Disconnected, and it never stops while the sender lives. The mailbox is left empty unless the worker is still waiting, and the sender's state is untouched. |
| Subscriber.OnlyTheLatestIsSpoken | src/data_subscriber.rs:49-63 | Of three phrases queued while the worker was busy, only the last is spoken. |
| Dispatch.Contribution | src/main.rs:225-231 | A decode result contributes one record exactly when it is `Ok`, and that record is the decoded value. An error contributes nothing. |
| Dispatch.RecordsAreOkValues | src/main.rs:224-231 | The records of a chunk are exactly the values of its `Ok` decode results, in the decoder's order, none lost and none repeated. Errors leave no trace. |
| Dispatch.RecordsUpToAreOkValues | src/main.rs:224-231 | The records among the first k results are the `Ok` values among them, in order. |
| Dispatch.Fanout | src/main.rs:227-229 | A record reaches subscribers 0 to n-1, once each, in registration order. |
| Dispatch.DeliveryLogUpToLength | src/main.rs:224-233 | The first k results make n calls per record among them. |
| Dispatch.DeliveryLogUpToAt | src/main.rs:224-233 | Among the first k results, the i-th record reaches subscriber j at call n*i+j. |
| Dispatch.DeliveryLogAt | src/main.rs:224-233 | Every record reaches every subscriber, record by record, each in registration order: the i-th record reaches subscriber j at call n*i+j. Decode errors deliver nothing. |
| Dispatch.JsonLinesAt | src/main.rs:224-229 | The recorder writes exactly one line per record, and the i-th line is the i-th record's. |
| Dispatch.JsonLinesAppend | src/main.rs:224-229 | The lines for two record runs in a row are the lines of the first run followed by those of the second. |
| Dispatch.PhrasesAppend | src/main.rs:224-229 | The phrases for two record runs in a row are the phrases of the first run followed by those of the second. |
| Dispatch.Registry.constructor | src/main.rs:210-220 | The recorder is registered first, in the chosen format. The spoken readout is registered second exactly when a voice URL was given, with the trimmed URL and the speaker. |
| Dispatch.Registry.Dispatch | src/main.rs:224-233 | The calls made form the delivery log. The recorder gains the lines of all records, and the mailbox gains the phrases of all records that have a value. |
| Dispatch.Registry.DispatchNext | src/main.rs:224-233 | Dispatching result i extends the output produced for results 0 to i-1 to the output for results 0 to i. |
| Dispatch.Registry.DispatchOne | src/main.rs:225-231 | A record is delivered to everyone, and an error delivers nothing and writes nothing. |
| Dispatch.Registry.DeliverToAll | src/main.rs:227-229 | The record reaches every subscriber in order. The recorder gains its line, and the mailbox gains its phrase when the record has a value. |
| Dispatch.MainTurn | src/main.rs:222-234 | The oldest chunk is decoded and dispatched. An empty channel blocks while the reader lives and panics after. In either case the channel stays empty and nothing is written. Neither end of the channel is dropped by the turn. |

## Left out

- Speech synthesis and playback (`speak`, src/data_subscriber.rs:65-159). This is HTTP and audio I/O. The worker only hands the message over (`Speak(msg)`).
- Threads and scheduling. Each thread's loop is modelled one turn at a time, and the channels are shared state between turns. No interleaving is modelled.
- Real time and the one-second sleeps of `send_break`. Clock readings are parameters.
- Opening the serial port with its settings (`open_serialport`: 19200 baud, 7 data bits, odd parity, one stop bit, one-second timeout). This is device I/O.
- Choosing the audio output device (`pick_audio_output_device` and its `AudioDeviceError`). This is audio-host I/O. `AppErr.AudioDeviceError` exists but is never produced.
- The ES51986 decoder. It is an external crate and is not part of this model. It is a per-chunk parameter, so the state the parser keeps across chunks is not modelled.
- JSON serialisation and the `unwrap` on a failed stdout write. The recorder's output is the sequence of `Jsonl` values.
- Command-line parsing by clap, logging, the `Display` text of `AppErr`, and the prompt's `eprintln!` messages. These are text output only.
- `Tui.AskPort`: the panic of `read_line(..).unwrap()` on an I/O error is not modelled, because input lines are given.
- `Reader.Run`: the consumer's liveness is fixed for the whole run. A consumer that disappears midway is covered turn by turn by `Reader.Next`.
- `Subscriber.VoiceboxDataSubscriber.OnData`: it requires that the worker still holds the mailbox's receiver. The worker only drops it after the sender is gone, which cannot happen while the subscriber exists.
