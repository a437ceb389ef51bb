/**
 * The interactive port prompt (src/tui.rs). The console build reads one line of standard input per
 * prompt; here standard input is the sequence of lines the user types. The test build replaces the
 * prompt with a double that records the offered ports and returns a preset answer.
 */
module Tui {
  import opened Prelude

  /** The kind of a serial port, as the port lister reports it (USB details are not kept). */
  datatype PortKind = UsbPort | PciPort | BluetoothPort | Unknown

  /** One entry of the port lister's answer. */
  datatype PortInfo = PortInfo(portName: string, portType: PortKind)

  /** Rust's `char::is_whitespace`: the Unicode White_Space property. */
  predicate IsWhitespace(c: char) {
    c as int in WhiteSpaceCodes
  }

  /** The code points with the White_Space property. */
  const WhiteSpaceCodes: set<int> := {0x09, 0x0A, 0x0B, 0x0C, 0x0D, 0x20, 0x85, 0xA0, 0x1680,
    0x2000, 0x2001, 0x2002, 0x2003, 0x2004, 0x2005, 0x2006, 0x2007, 0x2008, 0x2009, 0x200A,
    0x2028, 0x2029, 0x202F, 0x205F, 0x3000}

  /** Drops the leading white space of `s`. */
  function TrimStart(s: string): string
    decreases |s|
  {
    if s != [] && IsWhitespace(s[0]) then TrimStart(s[1..]) else s
  }

  /** `TrimStart` keeps a suffix of `s` with no white space in front, and drops only white space. */
  lemma {:induction false} TrimStartIsSuffix(s: string)
    ensures |TrimStart(s)| <= |s| && TrimStart(s) == s[|s| - |TrimStart(s)|..]
    ensures forall k :: 0 <= k < |s| - |TrimStart(s)| ==> IsWhitespace(s[k])
    ensures TrimStart(s) != [] ==> !IsWhitespace(TrimStart(s)[0])
    decreases |s|
  {
    if s != [] && IsWhitespace(s[0]) {
      TrimStartIsSuffix(s[1..]);
      var r := TrimStart(s);
      assert s[1..][|s| - 1 - |r|..] == s[|s| - |r|..];
      forall k | 0 <= k < |s| - |r|
        ensures IsWhitespace(s[k])
      {
        if k > 0 {
          assert s[k] == s[1..][k - 1];
        }
      }
    }
  }

  /** Drops the trailing white space of `s`. */
  function TrimEnd(s: string): string
    decreases |s|
  {
    if s != [] && IsWhitespace(s[|s| - 1]) then TrimEnd(s[..|s| - 1]) else s
  }

  /** `TrimEnd` keeps a prefix of `s` with no white space at its end, and drops only white space. */
  lemma {:induction false} TrimEndIsPrefix(s: string)
    ensures |TrimEnd(s)| <= |s| && TrimEnd(s) == s[..|TrimEnd(s)|]
    ensures forall k :: |TrimEnd(s)| <= k < |s| ==> IsWhitespace(s[k])
    ensures TrimEnd(s) != [] ==> !IsWhitespace(TrimEnd(s)[|TrimEnd(s)| - 1])
    decreases |s|
  {
    if s != [] && IsWhitespace(s[|s| - 1]) {
      TrimEndIsPrefix(s[..|s| - 1]);
      var r := TrimEnd(s);
      assert s[..|s| - 1][..|r|] == s[..|r|];
      forall k | |r| <= k < |s|
        ensures IsWhitespace(s[k])
      {
        if k < |s| - 1 {
          assert s[k] == s[..|s| - 1][k];
        }
      }
    }
  }

  /** `str::trim`: never longer than the line, and neither starting nor ending with white space. */
  function Trim(s: string): (r: string)
    ensures |r| <= |s|
    ensures r != [] ==> !IsWhitespace(r[0]) && !IsWhitespace(r[|r| - 1])
  {
    TrimStartIsSuffix(s);
    TrimEndIsPrefix(TrimStart(s));
    TrimEnd(TrimStart(s))
  }

  /**
   * `Trim` keeps one contiguous piece of the line and drops only white space on either side of it:
   * the piece starts where `TrimStart` stopped.
   */
  lemma TrimIsInfix(s: string)
    ensures |TrimStart(s)| <= |s|
    ensures var k := |s| - |TrimStart(s)|;
      && 0 <= k && k + |Trim(s)| <= |s| && Trim(s) == s[k..k + |Trim(s)|]
      && (forall i :: 0 <= i < k ==> IsWhitespace(s[i]))
      && (forall i :: k + |Trim(s)| <= i < |s| ==> IsWhitespace(s[i]))
  {
    var t := TrimStart(s);
    var k := |s| - |t|;
    TrimStartIsSuffix(s);
    TrimEndIsPrefix(t);
    var r := TrimEnd(t);
    assert r == t[..|r|];
    forall i | k + |r| <= i < |s|
      ensures IsWhitespace(s[i])
    {
      assert s[i] == t[i - k];
    }
  }

  /** The largest `usize` on a 64-bit target. */
  const UsizeMax: nat := 0xFFFF_FFFF_FFFF_FFFF

  predicate IsDigit(c: char) {
    '0' <= c <= '9'
  }

  /** Every character of `s` is a decimal digit (checked from the end, as `DigitsValue` reads it). */
  predicate AllDigits(s: string) {
    s == [] || (IsDigit(s[|s| - 1]) && AllDigits(s[..|s| - 1]))
  }

  lemma {:induction false} AllDigitsAt(s: string)
    ensures AllDigits(s) <==> forall i :: 0 <= i < |s| ==> IsDigit(s[i])
  {
    if s != [] {
      var init := s[..|s| - 1];
      AllDigitsAt(init);
      assert forall i :: 0 <= i < |init| ==> init[i] == s[i];
    }
  }

  /** The number a string of decimal digits denotes. */
  function DigitsValue(ds: string): nat
    requires AllDigits(ds)
  {
    if ds == [] then 0 else DigitsValue(ds[..|ds| - 1]) * 10 + (ds[|ds| - 1] as int - '0' as int)
  }

  /**
   * `str::parse::<usize>()`: an optional leading '+', then at least one decimal digit, and a value
   * that fits in a `usize`. Anything else (empty, a lone '+', a '-', any other character, overflow)
   * is an error.
   */
  function ParseUsize(s: string): (r: Option<nat>)
    ensures r.Some? ==> r.value <= UsizeMax
    ensures s == [] || s == "+" ==> r.None?
  {
    if s == [] then None
    else
      var digits := if s[0] == '+' then s[1..] else s;
      if digits == [] || !AllDigits(digits) then None
      else if DigitsValue(digits) > UsizeMax then None
      else Some(DigitsValue(digits))
  }

  /**
   * What `ParseUsize` accepts: a value that fits in a `usize`, spelt with at least one character
   * besides an optional leading '+', every one of them a decimal digit.
   */
  lemma ParseUsizeAccepts(s: string)
    ensures ParseUsize(s).Some? ==> ParseUsize(s).value <= UsizeMax
    ensures ParseUsize(s).Some? ==>
      s != [] && s != "+" && forall i :: (if s[0] == '+' then 1 else 0) <= i < |s| ==> IsDigit(s[i])
  {
    if s != [] {
      var digits := if s[0] == '+' then s[1..] else s;
      AllDigitsAt(digits);
      if s[0] == '+' {
        assert forall i :: 1 <= i < |s| ==> s[i] == digits[i - 1];
      }
    }
  }

  /** The decimal spelling of `n`, without sign or leading zeros: what a user types to pick entry `n`. */
  function Decimal(n: nat): (s: string)
    ensures s != [] && AllDigits(s) && IsDigit(s[0])
  {
    if n < 10 then [('0' as int + n) as char] else Decimal(n / 10) + [('0' as int + n % 10) as char]
  }

  lemma {:induction false} DecimalValue(n: nat)
    ensures DigitsValue(Decimal(n)) == n
  {
    if n >= 10 {
      var s := Decimal(n);
      assert s[..|s| - 1] == Decimal(n / 10);
      DecimalValue(n / 10);
    }
  }

  /** Every number a `usize` can hold is read back from its decimal spelling, with or without a '+'. */
  lemma ParseUsizeRoundTrip(n: nat)
    requires n <= UsizeMax
    ensures ParseUsize(Decimal(n)) == Some(n)
    ensures ParseUsize("+" + Decimal(n)) == Some(n)
  {
    DecimalValue(n);
    var s := Decimal(n);
    assert s[0] != '+' by { assert IsDigit(s[0]); }
    assert ("+" + s)[1..] == s;
  }

  /** What one line of input means to the prompt. */
  datatype LineVerdict = QuitRequested | Picked(port: PortInfo) | Invalid

  /**
   * The verdict on one input line: "q" quits, a number from 1 to the number of ports picks that
   * entry (counting from 1), and anything else (0, a number past the list, a non-number) is invalid
   * and makes the prompt ask again.
   */
  function Classify(ports: seq<PortInfo>, line: string): (v: LineVerdict)
    ensures v.Picked? ==> v.port in ports
  {
    var inp := Trim(line);
    if inp == "q" then QuitRequested
    else match ParseUsize(inp)
      case Some(n) => if n < 1 || |ports| < n then Invalid else Picked(ports[n - 1])
      case None => Invalid
  }

  /**
   * The verdict on a line, stated on its trimmed text: it quits exactly when that text is "q", and
   * picks exactly when that text parses to an entry number, picking the entry so numbered.
   */
  lemma ClassifyMeaning(ports: seq<PortInfo>, line: string)
    ensures Classify(ports, line).QuitRequested? <==> Trim(line) == "q"
    ensures Classify(ports, line).Picked? <==>
      Trim(line) != "q" && ParseUsize(Trim(line)).Some? && 1 <= ParseUsize(Trim(line)).value <= |ports|
    ensures Classify(ports, line).Picked? ==>
      Classify(ports, line).port == ports[ParseUsize(Trim(line)).value - 1]
  {
  }

  /** Typing the number of an entry, followed by the newline `read_line` keeps, picks that entry. */
  lemma TypedNumberPicks(ports: seq<PortInfo>, n: nat)
    requires 1 <= n <= |ports| && n <= UsizeMax
    ensures Classify(ports, Decimal(n) + "\n") == Picked(ports[n - 1])
  {
    var d := Decimal(n);
    assert !IsWhitespace(d[0]) by { assert IsDigit(d[0]); }
    assert !IsWhitespace(d[|d| - 1]) by { assert IsDigit(d[|d| - 1]); }
    assert TrimStart(d + "\n") == d + "\n";
    assert (d + "\n")[..|d|] == d;
    assert TrimEnd(d + "\n") == d;
    ParseUsizeRoundTrip(n);
  }

  /** Typing "q", followed by the newline `read_line` keeps, quits. */
  lemma TypedQQuits(ports: seq<PortInfo>)
    ensures Classify(ports, "q\n") == QuitRequested
  {
    assert TrimStart("q\n") == "q\n";
    assert "q\n"[..1] == "q";
    assert TrimEnd("q\n") == "q";
  }

  /** The outcome of prompting until a decisive line arrives. */
  datatype Selection = Chosen(port: PortInfo) | Quit | NoDecision

  /** The verdict on each input line, in order. */
  function Verdicts(ports: seq<PortInfo>, lines: seq<string>): seq<LineVerdict> {
    seq(|lines|, i requires 0 <= i < |lines| => Classify(ports, lines[i]))
  }

  /** The decision a verdict makes on its own (an invalid line decides nothing). */
  function Decision(v: LineVerdict): Selection {
    match v
    case QuitRequested => Quit
    case Picked(p) => Chosen(p)
    case Invalid => NoDecision
  }

  /** The decision made by the first verdict from index `k` on that is not invalid. */
  function FirstDecision(vs: seq<LineVerdict>, k: nat): (sel: Selection)
    ensures sel.Chosen? ==> Picked(sel.port) in vs
    decreases |vs| - k
  {
    if k >= |vs| then NoDecision
    else if vs[k].Invalid? then FirstDecision(vs, k + 1)
    else Decision(vs[k])
  }

  /**
   * From index `k` on, no decision is made exactly when every verdict is invalid; otherwise the
   * decision is that of the first verdict that is not invalid, all verdicts before it being invalid.
   */
  lemma {:induction false} FirstDecisionIsFirstDecisive(vs: seq<LineVerdict>, k: nat)
    ensures FirstDecision(vs, k).NoDecision? <==> forall i :: k <= i < |vs| ==> vs[i].Invalid?
    ensures !FirstDecision(vs, k).NoDecision? ==>
      exists j :: k <= j < |vs| && !vs[j].Invalid? && (forall i :: k <= i < j ==> vs[i].Invalid?)
        && FirstDecision(vs, k) == Decision(vs[j])
    decreases |vs| - k
  {
    if k < |vs| {
      if vs[k].Invalid? {
        FirstDecisionIsFirstDecisive(vs, k + 1);
        if !FirstDecision(vs, k + 1).NoDecision? {
          var j :| k + 1 <= j < |vs| && !vs[j].Invalid? && (forall i :: k + 1 <= i < j ==> vs[i].Invalid?)
            && FirstDecision(vs, k + 1) == Decision(vs[j]);
          assert forall i :: k <= i < j ==> vs[i].Invalid?;
        }
      }
    }
  }

  /**
   * The prompt's decision on a sequence of input lines: the verdict of the first line that is not
   * invalid, or NoDecision when every line is invalid (the console build would then go on prompting
   * forever, since `read_line` at end of input yields an empty line, which is invalid).
   */
  function Select(ports: seq<PortInfo>, lines: seq<string>): (sel: Selection)
    ensures sel.Chosen? ==> sel.port in ports
  {
    var vs := Verdicts(ports, lines);
    var sel := FirstDecision(vs, 0);
    assert sel.Chosen? ==> sel.port in ports by {
      if sel.Chosen? {
        var i :| 0 <= i < |vs| && vs[i] == Picked(sel.port);
        assert Classify(ports, lines[i]) == Picked(sel.port);
      }
    }
    sel
  }

  /**
   * The prompt comes to no decision exactly when every line is invalid; otherwise its decision is
   * the verdict of the first line that is not invalid, all lines before it being invalid.
   */
  lemma SelectIsFirstDecisiveLine(ports: seq<PortInfo>, lines: seq<string>)
    ensures Select(ports, lines).NoDecision? <==>
      forall i :: 0 <= i < |lines| ==> Classify(ports, lines[i]).Invalid?
    ensures !Select(ports, lines).NoDecision? ==>
      exists j :: 0 <= j < |lines| && !Classify(ports, lines[j]).Invalid?
        && (forall i :: 0 <= i < j ==> Classify(ports, lines[i]).Invalid?)
        && Select(ports, lines) == Decision(Classify(ports, lines[j]))
  {
    var vs := Verdicts(ports, lines);
    FirstDecisionIsFirstDecisive(vs, 0);
    assert forall i :: 0 <= i < |lines| ==> vs[i] == Classify(ports, lines[i]);
  }

  /** One step of the prompt: line k decides, unless it is invalid and the decision is left to the rest. */
  lemma DecisiveStep(ports: seq<PortInfo>, lines: seq<string>, k: nat)
    requires k < |lines|
    ensures FirstDecision(Verdicts(ports, lines), k) ==
      if Classify(ports, lines[k]).Invalid? then FirstDecision(Verdicts(ports, lines), k + 1)
      else Decision(Classify(ports, lines[k]))
  {
    assert Verdicts(ports, lines)[k] == Classify(ports, lines[k]);
  }

  /**
   * `Tui::ask_port` of the console build: reads lines until one is "q" or a valid entry number
   * (the verdict on each line is `Classify`).
   * Returns the decision and how many lines were read; the last line read is the first decisive one,
   * every line before it being invalid.
   */
  method AskPort(ports: seq<PortInfo>, input: seq<string>) returns (sel: Selection, consumed: nat)
    ensures sel == Select(ports, input)
    ensures consumed <= |input|
    ensures sel.NoDecision? ==> consumed == |input|
    ensures sel.Quit? ==> 0 < consumed && Classify(ports, input[consumed - 1]).QuitRequested?
    ensures sel.Chosen? ==> 0 < consumed && Classify(ports, input[consumed - 1]) == Picked(sel.port)
    ensures forall i :: 0 <= i < consumed - 1 ==> Classify(ports, input[i]).Invalid?
  {
    consumed := 0;
    while consumed < |input|
      invariant consumed <= |input|
      invariant Select(ports, input) == FirstDecision(Verdicts(ports, input), consumed)
      invariant forall i :: 0 <= i < consumed ==> Classify(ports, input[i]).Invalid?
    {
      var line := input[consumed];
      var verdict := Classify(ports, line);
      DecisiveStep(ports, input, consumed);
      consumed := consumed + 1;
      match verdict {
        case QuitRequested =>
          return Quit, consumed;
        case Picked(p) =>
          return Chosen(p), consumed;
        case Invalid =>
          // out of range or not a number: the prompt explains and asks again
      }
    }
    return NoDecision, consumed;
  }

  /** The test build's prompt: it records the ports it was offered and answers with a preset value. */
  class TuiDouble {
    var availablePorts: Option<seq<PortInfo>>
    var portToReturn: Option<PortInfo>

    constructor (availablePorts: Option<seq<PortInfo>>, portToReturn: Option<PortInfo>)
      ensures this.availablePorts == availablePorts && this.portToReturn == portToReturn
    {
      this.availablePorts := availablePorts;
      this.portToReturn := portToReturn;
    }

    method AskPort(ports: seq<PortInfo>) returns (r: Option<PortInfo>)
      modifies this
      ensures availablePorts == Some(ports)
      ensures portToReturn == old(portToReturn) && r == portToReturn
    {
      availablePorts := Some(ports);
      r := portToReturn;
    }
  }
}
