/**
 * The two data subscribers of src/data_subscriber.rs: the standard-output recorder and the spoken
 * readout, with the spoken readout's drain-to-latest mailbox. The HTTP synthesis and audio playback of
 * a message (`speak`) are not modelled: the worker hands the message over and that is all.
 */
module Subscriber {
  import opened Prelude
  import opened Es51986
  import Arg
  import Mpsc

  /** One line of structured output: the record and its primary value. */
  datatype Jsonl = Jsonl(raw: Output, value: Option<OutputValue>)

  /** The line the recorder writes for one record. */
  function LineFor(data: Output): (line: Jsonl)
    ensures line.raw == data && line.value == GetValue(data)
  {
    Jsonl(data, GetValue(data))
  }

  /** A subscriber that writes each record to standard output; `written` is what it wrote, in order. */
  class StdoutDataSubscriber {
    const format: Arg.OutputFormat
    var written: seq<Jsonl>

    constructor (format: Arg.OutputFormat)
      ensures this.format == format && written == []
    {
      this.format := format;
      written := [];
    }

    /** Writes exactly one line for the record: the record itself and its primary value. */
    method OnData(data: Output)
      modifies this
      ensures written == old(written) + [LineFor(data)]
    {
      match format
      case Jsonl =>
        var json := Jsonl(data, GetValue(data));
        written := written + [json];
    }
  }

  /** The spoken word for a unit prefix. The unprefixed case has the same word as nano. */
  function PrefixWord(p: PrefixUnit): (w: string)
    ensures w != [] && w[0] as int >= 128
  {
    match p
    case Mega => "メガ"
    case Kilo => "キロ"
    case None => "ナノ"
    case Millis => "ミリ"
    case Micro => "マイクロ"
    case Nano => "ナノ"
  }

  /** The spoken word for a base unit. */
  function BaseWord(b: BaseUnit): (w: string)
    ensures w != [] && w[0] as int >= 128
  {
    match b
    case Ampere => "アンペア"
    case Volt => "ボルト"
    case Ohm => "オーム"
    case Hearts => "ヘルツ"
    case Farad => "ファラッド"
  }

  /** The phrase spoken for a primary value: its digits, then the prefix word, then the base-unit word. */
  function Phrase(v: OutputValue): (p: string)
    ensures |v.digits| < |p| && p[..|v.digits|] == v.digits
    ensures p[|v.digits|] as int >= 128
  {
    v.digits + PrefixWord(v.valueUnit.prefixUnit) + BaseWord(v.valueUnit.baseUnit)
  }

  /** Two prefixes are spoken alike exactly when they are equal or are the unprefixed case and nano. */
  lemma PrefixWordsCollideOnlyForNano(p: PrefixUnit, q: PrefixUnit)
    ensures PrefixWord(p) == PrefixWord(q) <==> p == q || {p, q} == {PrefixUnit.None, Nano}
  {
    if PrefixWord(p) == PrefixWord(q) && p != q {
      assert PrefixWord(p)[0] == PrefixWord(q)[0];
      assert |PrefixWord(p)| == |PrefixWord(q)|;
    }
  }

  /** Every base unit has its own word; each word ends in a character no other word ends in. */
  lemma BaseWordLastCharIsUnique(a: BaseUnit, b: BaseUnit)
    ensures BaseWord(a)[|BaseWord(a)| - 1] == BaseWord(b)[|BaseWord(b)| - 1] <==> a == b
  {
  }

  predicate IsAscii(s: string) {
    forall i :: 0 <= i < |s| ==> s[i] as int < 128
  }

  /** The index of the first non-ASCII character of `s`, or its length. */
  function FirstNonAscii(s: string): (i: nat)
    ensures i <= |s|
  {
    if s == [] then 0 else if s[0] as int >= 128 then 0 else 1 + FirstNonAscii(s[1..])
  }

  lemma {:induction false} FirstNonAsciiAfterAscii(x: string, u: string)
    requires IsAscii(x) && u != [] && u[0] as int >= 128
    ensures FirstNonAscii(x + u) == |x|
  {
    if x != [] {
      assert (x + u)[1..] == x[1..] + u;
      FirstNonAsciiAfterAscii(x[1..], u);
    }
  }

  /** An ASCII string followed by a string that starts with a non-ASCII character splits only one way. */
  lemma AsciiHeadDetermined(x: string, u: string, y: string, t: string)
    requires IsAscii(x) && IsAscii(y)
    requires u != [] && u[0] as int >= 128 && t != [] && t[0] as int >= 128
    requires x + u == y + t
    ensures x == y && u == t
  {
    FirstNonAsciiAfterAscii(x, u);
    FirstNonAsciiAfterAscii(y, t);
    assert x == (x + u)[..|x|];
    assert y == (y + t)[..|y|];
    assert u == (x + u)[|x|..];
    assert t == (y + t)[|y|..];
  }

  /**
   * The spoken phrase is unambiguous except for the nano word: when the digits are plain ASCII (as
   * the meter's digits are), equal phrases come from equal digits, equal base units and prefixes
   * that are spoken alike.
   */
  lemma PhraseDeterminesReading(v: OutputValue, w: OutputValue)
    requires IsAscii(v.digits) && IsAscii(w.digits)
    requires Phrase(v) == Phrase(w)
    ensures v.digits == w.digits
    ensures v.valueUnit.baseUnit == w.valueUnit.baseUnit
    ensures PrefixWord(v.valueUnit.prefixUnit) == PrefixWord(w.valueUnit.prefixUnit)
  {
    var pv, bv := PrefixWord(v.valueUnit.prefixUnit), BaseWord(v.valueUnit.baseUnit);
    var pw, bw := PrefixWord(w.valueUnit.prefixUnit), BaseWord(w.valueUnit.baseUnit);
    var uv, uw := pv + bv, pw + bw;
    assert v.digits == w.digits && uv == uw by {
      assert Phrase(v) == v.digits + uv;
      assert Phrase(w) == w.digits + uw;
      assert uv[0] == pv[0] && uw[0] == pw[0];
      AsciiHeadDetermined(v.digits, uv, w.digits, uw);
    }
    assert v.valueUnit.baseUnit == w.valueUnit.baseUnit by {
      assert uv[|uv| - 1] == bv[|bv| - 1] && uw[|uw| - 1] == bw[|bw| - 1];
      BaseWordLastCharIsUnique(v.valueUnit.baseUnit, w.valueUnit.baseUnit);
    }
    assert pv == uv[..|pv|] && pw == uw[..|pw|];
  }

  /** `VoiceboxDataSubscriber::new` drops one trailing '/' from the synthesis service's base URL. */
  function TrimTrailingSlash(url: string): (r: string)
    ensures url == r + "/" || url == r
    ensures url == r + "/" <==> url != [] && url[|url| - 1] == '/'
  {
    if url != [] && url[|url| - 1] == '/' then url[..|url| - 1] else url
  }

  /** What `last_msg` gives the worker; `Waiting` stands for a `recv` still blocked on an empty mailbox. */
  datatype LastMsg = Latest(msg: string) | Disconnected | Waiting

  /**
   * Drain-to-latest: the newest pending message while the sender lives; Disconnected once the sender
   * is gone (even if messages were still pending); Waiting on an empty mailbox with a live sender.
   */
  function DrainToLatest(pending: seq<string>, senderAlive: bool): LastMsg {
    if !senderAlive then Disconnected
    else if pending == [] then Waiting
    else Latest(pending[|pending| - 1])
  }

  /** What the worker does after one call of `last_msg`. */
  datatype WorkerAction = Speak(msg: string) | Stop | Idle

  /** The spoken-readout subscriber: its base URL, speaker id and the sending end of its mailbox. */
  class VoiceboxDataSubscriber {
    const url: string
    const speaker: nat
    const tx: Mpsc.Channel<string>

    /**
     * The subscriber holds the mailbox's sender, and the worker holding the receiver only gives it up
     * after the sender is gone: both ends are alive as long as the subscriber is.
     */
    ghost predicate Valid()
      reads this, tx
    {
      tx.senderAlive && tx.receiverAlive
    }

    /** `new`: trims the URL and opens an empty mailbox (the worker is spawned on its receiving end). */
    constructor (url: string, speaker: nat)
      ensures Valid() && fresh(tx) && tx.queue == []
      ensures this.url == TrimTrailingSlash(url) && this.speaker == speaker
    {
      this.url := TrimTrailingSlash(url);
      this.speaker := speaker;
      this.tx := new Mpsc.Channel();
    }

    /**
     * `on_data`: a record with a primary value enqueues exactly its phrase; a record without one
     * enqueues nothing. The send cannot fail while the subscriber is valid.
     */
    method OnData(data: Output)
      requires Valid()
      modifies tx
      ensures Valid()
      ensures tx.queue == old(tx.queue) + match GetValue(data)
        case Some(v) => [Phrase(v)]
        case None => []
    {
      var value := GetValue(data);
      if value.Some? {
        var v := value.value;
        var prefixUnit := PrefixWord(v.valueUnit.prefixUnit);
        var baseUnit := BaseWord(v.valueUnit.baseUnit);
        var ok := tx.Send(v.digits + prefixUnit + baseUnit);
        assert ok;
      }
    }

    /**
     * `last_msg`: waits for one message, then takes every message already queued, keeping the last.
     * The mailbox is left empty unless the call is still waiting.
     */
    static method LastMsg(rx: Mpsc.Channel<string>) returns (r: LastMsg)
      modifies rx
      ensures r == DrainToLatest(old(rx.queue), old(rx.senderAlive))
      ensures rx.queue == if r.Waiting? then old(rx.queue) else []
      ensures rx.senderAlive == old(rx.senderAlive) && rx.receiverAlive == old(rx.receiverAlive)
    {
      var first := rx.Recv();
      match first {
        case Closed =>
          return Disconnected;
        case Blocked =>
          return Waiting;
        case Got(msg) =>
          var lastMsg := msg;
          while true
            invariant rx.senderAlive == old(rx.senderAlive) && rx.receiverAlive == old(rx.receiverAlive)
            invariant |rx.queue| < |old(rx.queue)|
            invariant rx.queue == old(rx.queue)[|old(rx.queue)| - |rx.queue|..]
            invariant lastMsg == old(rx.queue)[|old(rx.queue)| - |rx.queue| - 1]
            decreases |rx.queue|
          {
            var next := rx.TryRecv();
            match next {
              case Message(m) =>
                lastMsg := m;
              case Empty =>
                return Latest(lastMsg);
              case Disconnected =>
                return Disconnected;
            }
          }
      }
    }

    /**
     * One pass of the worker's loop: the latest message is handed to the synthesis service; on
     * Disconnected the worker ends and drops the receiver.
     */
    static method WorkerTurn(rx: Mpsc.Channel<string>) returns (act: WorkerAction)
      modifies rx
      ensures act == match DrainToLatest(old(rx.queue), old(rx.senderAlive))
        case Latest(m) => Speak(m)
        case Disconnected => Stop
        case Waiting => Idle
      ensures rx.queue == if act.Idle? then old(rx.queue) else []
      ensures rx.senderAlive == old(rx.senderAlive)
      ensures rx.receiverAlive == (old(rx.receiverAlive) && !act.Stop?)
      ensures old(rx.senderAlive) ==> !act.Stop?
    {
      var r := LastMsg(rx);
      match r {
        case Latest(msg) =>
          // the message is handed to the synthesis service
          act := Speak(msg);
        case Disconnected =>
          // the disconnect is logged; the worker leaves its loop, dropping the receiver
          rx.DropReceiver();
          act := Stop;
        case Waiting =>
          act := Idle;
      }
    }
  }

  /** Three phrases queued while the worker was busy: only the last one is spoken. */
  lemma OnlyTheLatestIsSpoken(a: string, b: string, c: string)
    ensures DrainToLatest([a, b, c], true) == Latest(c)
  {
  }
}
