/**
 * The dispatch loop of `main` (src/main.rs): the subscriber registry built at startup, and the turn
 * that takes one chunk from the frame channel, decodes it and hands every decoded record to every
 * subscriber in registration order. The decoder is a parameter: a function from a chunk to its
 * decode results.
 */
module Dispatch {
  import opened Prelude
  import opened Es51986
  import opened Subscriber
  import Arg
  import Mpsc

  /** One result of the decoder: a record, or a decode error (only logged). */
  type DecodeResult = Result<Output, string>

  /** A registered subscriber. */
  datatype Sink = StdoutSink(s: StdoutDataSubscriber) | VoiceSink(v: VoiceboxDataSubscriber)

  /** One call of `on_data`: which subscriber (its registration index) received which record. */
  datatype Delivery = Delivery(subscriber: nat, record: Output)

  /** What one decode result contributes to the records: its record, or nothing for an error. */
  function Contribution(result: DecodeResult): (rs: seq<Output>)
    ensures |rs| <= 1 && (result.Ok? <==> rs != [])
    ensures result.Ok? ==> rs == [result.value]
  {
    if result.Ok? then [result.value] else []
  }

  /** The records among the first k decode results, in order. */
  function RecordsUpTo(results: seq<DecodeResult>, k: nat): (rs: seq<Output>)
    requires k <= |results|
    ensures |rs| <= k
  {
    if k == 0 then [] else RecordsUpTo(results, k - 1) + Contribution(results[k - 1])
  }

  /** The records among the decode results, in order. */
  function Records(results: seq<DecodeResult>): seq<Output> {
    RecordsUpTo(results, |results|)
  }

  /** The values of the successful decode results, read front to back. */
  function OkValues(results: seq<DecodeResult>): seq<Output> {
    if results == [] then []
    else Contribution(results[0]) + OkValues(results[1..])
  }

  lemma {:induction false} OkValuesSnoc(results: seq<DecodeResult>, x: DecodeResult)
    ensures OkValues(results + [x]) == OkValues(results) + Contribution(x)
    decreases |results|
  {
    if results == [] {
      assert OkValues([x]) == Contribution(x) + OkValues([]);
    } else {
      assert (results + [x])[1..] == results[1..] + [x];
      OkValuesSnoc(results[1..], x);
      AppendAssoc(Contribution(results[0]), OkValues(results[1..]), Contribution(x));
    }
  }

  lemma {:induction false} RecordsUpToAreOkValues(results: seq<DecodeResult>, k: nat)
    requires k <= |results|
    ensures RecordsUpTo(results, k) == OkValues(results[..k])
  {
    if k > 0 {
      RecordsUpToAreOkValues(results, k - 1);
      assert results[..k] == results[..k - 1] + [results[k - 1]];
      OkValuesSnoc(results[..k - 1], results[k - 1]);
    }
  }

  /**
   * The records of a chunk are the values of its successful decode results, in the decoder's order,
   * none lost and none repeated; decode errors leave no trace.
   */
  lemma RecordsAreOkValues(results: seq<DecodeResult>)
    ensures Records(results) == OkValues(results)
  {
    RecordsUpToAreOkValues(results, |results|);
    assert results[..|results|] == results;
  }

  /** One record handed to subscribers 0 .. n-1, in that order. */
  function Fanout(n: nat, r: Output): (ds: seq<Delivery>)
    ensures |ds| == n && forall j :: 0 <= j < n ==> ds[j] == Delivery(j, r)
  {
    seq(n, (j: int) requires 0 <= j < n => Delivery(j, r))
  }

  /** The calls of `on_data` made for one decode result with `n` subscribers. */
  function Deliveries(n: nat, result: DecodeResult): seq<Delivery> {
    if result.Ok? then Fanout(n, result.value) else []
  }

  /** The calls of `on_data` made for the first k decode results with `n` subscribers. */
  function DeliveryLogUpTo(n: nat, results: seq<DecodeResult>, k: nat): seq<Delivery>
    requires k <= |results|
  {
    if k == 0 then [] else DeliveryLogUpTo(n, results, k - 1) + Deliveries(n, results[k - 1])
  }

  /** The calls of `on_data` made for a sequence of decode results with `n` subscribers. */
  function DeliveryLog(n: nat, results: seq<DecodeResult>): seq<Delivery> {
    DeliveryLogUpTo(n, results, |results|)
  }

  /** The delivery log of the first k results holds one call per record and subscriber. */
  lemma {:induction false} DeliveryLogUpToLength(n: nat, results: seq<DecodeResult>, k: nat)
    requires k <= |results|
    ensures |DeliveryLogUpTo(n, results, k)| == n * |RecordsUpTo(results, k)|
  {
    if k > 0 {
      DeliveryLogUpToLength(n, results, k - 1);
      var m := |RecordsUpTo(results, k - 1)|;
      if results[k - 1].Ok? {
        assert |RecordsUpTo(results, k)| == m + 1;
        MulSucc(n, m);
      } else {
        assert |RecordsUpTo(results, k)| == m;
      }
    }
  }

  /** The delivery log position of subscriber j's call for record i, among the first k results. */
  lemma {:induction false} DeliveryLogUpToAt(n: nat, results: seq<DecodeResult>, k: nat, i: nat, j: nat)
    requires k <= |results| && i < |RecordsUpTo(results, k)| && j < n
    ensures n * i + j < |DeliveryLogUpTo(n, results, k)|
    ensures DeliveryLogUpTo(n, results, k)[n * i + j] == Delivery(j, RecordsUpTo(results, k)[i])
  {
    DeliveryLogUpToLength(n, results, k);
    DeliveryLogUpToLength(n, results, k - 1);
    var recs := RecordsUpTo(results, k - 1);
    var prefix := DeliveryLogUpTo(n, results, k - 1);
    var last := results[k - 1];
    if i < |recs| {
      DeliveryLogUpToAt(n, results, k - 1, i, j);
      IndexBelow(n, i, j, |recs|);
      assert RecordsUpTo(results, k)[i] == recs[i];
    } else {
      assert last.Ok? && i == |recs|;
      assert Fanout(n, last.value)[j] == Delivery(j, last.value);
    }
  }

  /**
   * The delivery log is every record times every subscriber, record-major: the i-th record reaches
   * subscriber j at position n * i + j, so each record reaches all subscribers, in registration order,
   * before the next record reaches any; decode errors deliver nothing.
   */
  lemma DeliveryLogAt(n: nat, results: seq<DecodeResult>, i: nat, j: nat)
    requires i < |Records(results)| && j < n
    ensures |DeliveryLog(n, results)| == n * |Records(results)|
    ensures n * i + j < |DeliveryLog(n, results)|
    ensures DeliveryLog(n, results)[n * i + j] == Delivery(j, Records(results)[i])
  {
    DeliveryLogUpToLength(n, results, |results|);
    DeliveryLogUpToAt(n, results, |results|, i, j);
  }

  /** Position j of block i lies before block k when i < k. */
  lemma IndexBelow(n: nat, i: nat, j: nat, k: nat)
    requires i < k && j < n
    ensures n * i + j < n * k
  {
    assert n * i + n <= n * k by { MulMono(i + 1, k, n); }
  }

  lemma MulSucc(n: nat, m: nat)
    ensures n * (m + 1) == n * m + n
  {
  }

  lemma MulMono(a: nat, b: nat, n: nat)
    requires a <= b
    ensures n * a <= n * b
  {
  }

  /** The lines the recorder writes for a sequence of records. */
  function JsonLines(records: seq<Output>): seq<Jsonl> {
    if records == [] then [] else JsonLines(records[..|records| - 1]) + [LineFor(records[|records| - 1])]
  }

  /** The recorder writes exactly one line per record, the i-th line being the i-th record's. */
  lemma {:induction false} JsonLinesAt(records: seq<Output>)
    ensures |JsonLines(records)| == |records|
    ensures forall i :: 0 <= i < |records| ==> JsonLines(records)[i] == LineFor(records[i])
  {
    if records != [] {
      var init := records[..|records| - 1];
      JsonLinesAt(init);
      forall i | 0 <= i < |records|
        ensures JsonLines(records)[i] == LineFor(records[i])
      {
        if i < |init| {
          assert records[i] == init[i];
        }
      }
    }
  }

  /** The phrases the spoken readout enqueues for a sequence of records: one per record with a value. */
  function Phrases(records: seq<Output>): seq<string> {
    if records == [] then []
    else
      var v := GetValue(records[|records| - 1]);
      Phrases(records[..|records| - 1]) + match v
        case Some(value) => [Phrase(value)]
        case None => []
  }

  lemma {:induction false} JsonLinesAppend(a: seq<Output>, b: seq<Output>)
    ensures JsonLines(a + b) == JsonLines(a) + JsonLines(b)
    decreases |b|
  {
    if b != [] {
      var b' := b[..|b| - 1];
      assert (a + b)[..|a + b| - 1] == a + b';
      JsonLinesAppend(a, b');
    } else {
      assert a + b == a;
    }
  }

  lemma {:induction false} PhrasesAppend(a: seq<Output>, b: seq<Output>)
    ensures Phrases(a + b) == Phrases(a) + Phrases(b)
    decreases |b|
  {
    if b != [] {
      var b' := b[..|b| - 1];
      assert (a + b)[..|a + b| - 1] == a + b';
      PhrasesAppend(a, b');
    } else {
      assert a + b == a;
    }
  }

  lemma AppendAssoc<T>(a: seq<T>, b: seq<T>, c: seq<T>)
    ensures (a + b) + c == a + (b + c)
  {
  }

  /** The subscribers `main` registers: the recorder first, then the spoken readout when a URL was given. */
  class Registry {
    const stdout: StdoutDataSubscriber
    const voice: Option<VoiceboxDataSubscriber>

    ghost predicate Valid()
      reads this, if voice.Some? then {voice.value, voice.value.tx} else {}
    {
      voice.Some? ==> voice.value.Valid()
    }

    /** The registration order. */
    function Subscribers(): seq<Sink>
      reads this
    {
      [StdoutSink(stdout)] + if voice.Some? then [VoiceSink(voice.value)] else []
    }

    /**
     * The registry `main` builds from the arguments (choosing the audio device is not modelled): the
     * recorder in the chosen output format, then a spoken readout for `--voicebox-url` if given.
     */
    constructor (args: Arg.Args)
      ensures Valid() && fresh(stdout)
      ensures stdout.format == args.outputFormat && stdout.written == []
      ensures voice.Some? <==> args.voiceboxUrl.Some?
      ensures voice.Some? ==>
        && fresh(voice.value) && fresh(voice.value.tx) && voice.value.tx.queue == []
        && voice.value.url == TrimTrailingSlash(args.voiceboxUrl.value)
        && voice.value.speaker == args.voiceboxSpeaker
      ensures Subscribers()[0] == StdoutSink(stdout)
      ensures |Subscribers()| == if args.voiceboxUrl.Some? then 2 else 1
    {
      var out := new StdoutDataSubscriber(args.outputFormat);
      var v: Option<VoiceboxDataSubscriber> := Option.None;
      if args.voiceboxUrl.Some? {
        var vb := new VoiceboxDataSubscriber(args.voiceboxUrl.value, args.voiceboxSpeaker);
        v := Some(vb);
      }
      stdout := out;
      voice := v;
    }

    /**
     * The inner loops of `main`: each record is handed to every subscriber in registration order;
     * each decode error is only logged. Returns the calls made.
     */
    method Dispatch(results: seq<DecodeResult>) returns (log: seq<Delivery>)
      requires Valid()
      modifies stdout, if voice.Some? then {voice.value.tx} else {}
      ensures Valid()
      ensures log == DeliveryLog(|Subscribers()|, results)
      ensures stdout.written == old(stdout.written) + JsonLines(Records(results))
      ensures voice.Some? ==> voice.value.tx.queue == old(voice.value.tx.queue) + Phrases(Records(results))
    {
      log := [];
      for i := 0 to |results|
        invariant Valid()
        invariant log == DeliveryLogUpTo(|Subscribers()|, results, i)
        invariant stdout.written == old(stdout.written) + JsonLines(RecordsUpTo(results, i))
        invariant voice.Some? ==>
          voice.value.tx.queue == old(voice.value.tx.queue) + Phrases(RecordsUpTo(results, i))
      {
        var calls := DispatchNext(results, i, old(stdout.written), if voice.Some? then old(voice.value.tx.queue) else []);
        log := log + calls;
      }
    }

    /** Iteration i of `Dispatch`: the results before i are dispatched, result i is dispatched next. */
    method DispatchNext(results: seq<DecodeResult>, i: nat, ghost written0: seq<Jsonl>, ghost queue0: seq<string>)
      returns (calls: seq<Delivery>)
      requires Valid() && i < |results|
      requires stdout.written == written0 + JsonLines(RecordsUpTo(results, i))
      requires voice.Some? ==> voice.value.tx.queue == queue0 + Phrases(RecordsUpTo(results, i))
      modifies stdout, if voice.Some? then {voice.value.tx} else {}
      ensures Valid()
      ensures calls == Deliveries(|Subscribers()|, results[i])
      ensures stdout.written == written0 + JsonLines(RecordsUpTo(results, i + 1))
      ensures voice.Some? ==> voice.value.tx.queue == queue0 + Phrases(RecordsUpTo(results, i + 1))
    {
      ghost var done := RecordsUpTo(results, i);
      ghost var next := Contribution(results[i]);
      calls := DispatchOne(results[i]);
      JsonLinesAppend(done, next);
      AppendAssoc(written0, JsonLines(done), JsonLines(next));
      PhrasesAppend(done, next);
      AppendAssoc(queue0, Phrases(done), Phrases(next));
    }

    /** One decode result: a record goes to every subscriber; an error is only logged. */
    method DispatchOne(result: DecodeResult) returns (calls: seq<Delivery>)
      requires Valid()
      modifies stdout, if voice.Some? then {voice.value.tx} else {}
      ensures Valid()
      ensures calls == Deliveries(|Subscribers()|, result)
      ensures stdout.written == old(stdout.written) + JsonLines(Contribution(result))
      ensures voice.Some? ==> voice.value.tx.queue == old(voice.value.tx.queue) + Phrases(Contribution(result))
    {
      match result {
        case Ok(out) =>
          assert [out][..0] == [];
          calls := DeliverToAll(out);
        case Err(e) =>
          // the decode error is only logged
          calls := [];
      }
    }

    /** The innermost loop of `main`: `on_data` on each subscriber in registration order. */
    method DeliverToAll(out: Output) returns (calls: seq<Delivery>)
      requires Valid()
      modifies stdout, if voice.Some? then {voice.value.tx} else {}
      ensures Valid()
      ensures calls == Fanout(|Subscribers()|, out)
      ensures stdout.written == old(stdout.written) + [LineFor(out)]
      ensures voice.Some? ==> voice.value.tx.queue == old(voice.value.tx.queue) + Phrases([out])
    {
      var subs := Subscribers();
      calls := [];
      for j := 0 to |subs|
        invariant Valid()
        invariant calls == Fanout(j, out)
        invariant stdout.written == old(stdout.written) + if j > 0 then [LineFor(out)] else []
        invariant voice.Some? ==>
          voice.value.tx.queue == old(voice.value.tx.queue) + if j > 1 then Phrases([out]) else []
      {
        match subs[j] {
          case StdoutSink(s) =>
            s.OnData(out);
          case VoiceSink(v) =>
            v.OnData(out);
            assert [out][..0] == [];
        }
        calls := calls + [Delivery(j, out)];
      }
    }
  }

  /** One pass of `main`'s loop: a chunk was dispatched, the channel was closed, or `recv` is still pending. */
  datatype MainStep = Dispatched(chunk: seq<byte>, log: seq<Delivery>) | Panicked | Pending

  /**
   * One pass of `main`'s loop: receive the oldest chunk from the frame channel, decode it, dispatch
   * its results. A closed channel makes `unwrap` panic.
   */
  method MainTurn(reg: Registry, rx: Mpsc.Channel<seq<byte>>, decode: seq<byte> -> seq<DecodeResult>) returns (s: MainStep)
    requires reg.Valid()
    modifies rx, reg.stdout, if reg.voice.Some? then {reg.voice.value.tx} else {}
    ensures reg.Valid()
    ensures rx.senderAlive == old(rx.senderAlive) && rx.receiverAlive == old(rx.receiverAlive)
    ensures old(rx.queue) == [] ==> rx.queue == [] && s == (if old(rx.senderAlive) then Pending else Panicked)
    ensures old(rx.queue) == [] ==> unchanged(reg.stdout) && (reg.voice.Some? ==> unchanged(reg.voice.value.tx))
    ensures old(rx.queue) != [] ==>
      && rx.queue == old(rx.queue)[1..]
      && var results := decode(old(rx.queue)[0]);
      && s == Dispatched(old(rx.queue)[0], DeliveryLog(|reg.Subscribers()|, results))
      && reg.stdout.written == old(reg.stdout.written) + JsonLines(Records(results))
      && (reg.voice.Some? ==> reg.voice.value.tx.queue == old(reg.voice.value.tx.queue) + Phrases(Records(results)))
  {
    var received := rx.Recv();
    match received {
      case Got(chunk) =>
        var log := reg.Dispatch(decode(chunk));
        s := Dispatched(chunk, log);
      case Closed =>
        s := Panicked;
      case Blocked =>
        s := Pending;
    }
  }
}
