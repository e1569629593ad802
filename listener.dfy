/** The guitar's serial listener (`ListenerGuitarra`): each line read from the
    serial port is parsed as `<digits>;<1|0>`, compared with the previous
    accepted sample, and when the code stayed within the tolerance and the
    on/off flag flipped, the new sample is handed to every registered
    callback in registration order. Callbacks are opaque ids; what a
    callback does with a sample is the business of its owner. */
module GuitarListener {
  import opened Wrappers
  import opened PyText
  import opened SerialPorts

  /** One decoded sample: the sensor code and whether the fret is pressed. */
  datatype NotaGuitarra = NotaGuitarra(codigo: int, on: bool)

  /** What `readline().decode()` yields: the text of the line, or a
      `UnicodeDecodeError`. */
  datatype Line = Decoded(text: string) | Undecodable

  /** Stands for one registered callback function. */
  type CallbackId = nat

  /** One callback invocation `c(ret)`. */
  datatype Dispatch = Dispatch(callback: CallbackId, nota: NotaGuitarra)

  /** The value handed to the `range` setter: a Python `float`, or anything
      else (an `int`, a string, ...). */
  datatype RangeArg = FloatArg(x: real) | NotFloat

  datatype PortError = CannotOpen

  function Abs(x: real): (r: real)
    ensures r >= 0.0 && (r == x || r == -x)
  {
    if x < 0.0 then -x else x
  }

  // ---------------------------------------------------------------------
  // Parsing one line
  // ---------------------------------------------------------------------

  /** The parse in `_loop`: split on `;`, strip each piece, require exactly
      two pieces, a numeric first piece and a second piece that is `"1"` or
      `"0"`; anything else is skipped (`None`). */
  function ParseLine(line: Line): (r: Option<NotaGuitarra>)
    ensures r.Some? ==> r.value.codigo >= 0
  {
    match line
    case Undecodable => None
    case Decoded(text) =>
      var campos := Split(text, ';');
      if |campos| != 2 then None
      else
        var identificador := Strip(campos[0]);
        var pressionado := Strip(campos[1]);
        if !IsNumeric(identificador) then None
        else if pressionado != "1" && pressionado != "0" then None
        else Some(NotaGuitarra(DigitsValue(identificador), pressionado == "1"))
  }

  function Flag(on: bool): string {
    if on then "1" else "0"
  }

  /** The line the guitar sends for a sample, with any whitespace around
      either field (the line terminator included). */
  function Format(n: NotaGuitarra, a: string, b: string, c: string, d: string): string
    requires n.codigo >= 0
  {
    a + ToDigits(n.codigo) + b + ";" + c + Flag(n.on) + d
  }

  /** The parse of a line with exactly one separator, given the text on
      either side of it. */
  lemma ParseFields(left: string, right: string)
    requires ';' !in left && ';' !in right
    ensures var id, fl := Strip(left), Strip(right);
      ParseLine(Decoded(left + [';'] + right)) ==
        if IsNumeric(id) && (fl == "1" || fl == "0")
        then Some(NotaGuitarra(DigitsValue(id), fl == "1"))
        else None
  {
    SplitTwoFields(left + [';'] + right, left, right, ';');
  }

  /** Every sample the guitar can send is read back as that sample, whatever
      whitespace surrounds its fields. */
  lemma {:induction false} ParseFormat(n: NotaGuitarra, a: string, b: string, c: string, d: string)
    requires n.codigo >= 0
    requires AllSpace(a) && AllSpace(b) && AllSpace(c) && AllSpace(d)
    ensures ParseLine(Decoded(Format(n, a, b, c, d))) == Some(n)
  {
    var digits := ToDigits(n.codigo);
    var flag := Flag(n.on);
    var left := a + digits + b;
    var right := c + flag + d;
    assert Format(n, a, b, c, d) == left + [';'] + right;
    assert ';' !in a && ';' !in b && ';' !in c && ';' !in d;
    assert ';' !in digits by {
      forall i | 0 <= i < |digits| ensures digits[i] != ';' {
        assert IsDigit(digits[i]);
      }
    }
    assert IsDigit(digits[|digits| - 1]);
    StripPadded(a, digits, b);
    StripPadded(c, flag, d);
    ParseFields(left, right);
  }

  /** A one-digit code and its flag, unpadded. */
  lemma ParseOneDigit(c: char, f: char)
    requires IsDigit(c) && (f == '0' || f == '1')
    ensures ParseLine(Decoded([c, ';', f])) == Some(NotaGuitarra(c as int - '0' as int, f == '1'))
  {
    assert [c] + [';'] + [f] == [c, ';', f];
    assert "" + [c] + "" == [c];
    assert "" + [f] + "" == [f];
    StripPadded("", [c], "");
    StripPadded("", [f], "");
    assert DigitsValue([c]) == c as int - '0' as int by {
      assert [c][..0] == [];
    }
    ParseFields([c], [f]);
  }

  /** A line whose separator count is not exactly one is skipped. */
  lemma ParseNeedsOneSeparator(text: string)
    requires CountChar(text, ';') != 1
    ensures ParseLine(Decoded(text)) == None
  {
  }

  /** A line with exactly one separator, at `i`, is accepted iff the
      stripped text before it is numeric and the stripped text after it is
      `"1"` or `"0"`; the code is the value of the digits and the sample is
      on iff the flag is `"1"`. */
  lemma ParseAtSeparator(text: string, i: nat)
    requires i < |text| && text[i] == ';'
    requires ';' !in text[..i] && ';' !in text[i + 1..]
    ensures var id, fl := Strip(text[..i]), Strip(text[i + 1..]);
      ParseLine(Decoded(text)) ==
        if IsNumeric(id) && (fl == "1" || fl == "0")
        then Some(NotaGuitarra(DigitsValue(id), fl == "1"))
        else None
  {
    assert text == text[..i] + [';'] + text[i + 1..];
    ParseFields(text[..i], text[i + 1..]);
  }

  // ---------------------------------------------------------------------
  // Edge detection and fan-out
  // ---------------------------------------------------------------------

  /** The dispatch condition: a previous sample exists, its code is strictly
      within `range` of the new code, and the on/off flag flipped. */
  predicate IsEdge(buffer: Option<NotaGuitarra>, nota: NotaGuitarra, range: real) {
    buffer.Some?
    && Abs((buffer.value.codigo - nota.codigo) as real) < range
    && buffer.value.on != nota.on
  }

  /** With integer codes and a tolerance of at most 0.5 (all the `range`
      setter allows), an edge is a flip of the flag on the same code, and a
      tolerance of 0 admits no edge at all. */
  lemma EdgeOnIntegerCodes(b: NotaGuitarra, n: NotaGuitarra, range: real)
    requires 0.0 <= range <= 0.5
    ensures IsEdge(Some(b), n, range) <==> (range > 0.0 && b.codigo == n.codigo && b.on != n.on)
  {
    var d := b.codigo - n.codigo;
    if d != 0 {
      assert Abs(d as real) >= 1.0;
    }
  }

  /** Calling every registered callback with the sample: one call per
      registration, in registration order. */
  function FanOut(callbacks: seq<CallbackId>, nota: NotaGuitarra): (r: seq<Dispatch>)
    ensures |r| == |callbacks|
    ensures forall i :: 0 <= i < |r| ==> r[i] == Dispatch(callbacks[i], nota)
    decreases |callbacks|
  {
    if callbacks == [] then []
    else [Dispatch(callbacks[0], nota)] + FanOut(callbacks[1..], nota)
  }

  /** The buffer after a line and the callback invocations it caused. */
  datatype Outcome = Outcome(buffer: Option<NotaGuitarra>, dispatches: seq<Dispatch>)

  /** One iteration of `_loop`: a skipped line changes nothing; an accepted
      one dispatches on an edge and always becomes the new buffer. */
  function Step(buffer: Option<NotaGuitarra>, range: real, callbacks: seq<CallbackId>, line: Line): Outcome {
    match ParseLine(line)
    case None => Outcome(buffer, [])
    case Some(nota) =>
      Outcome(Some(nota), if IsEdge(buffer, nota, range) then FanOut(callbacks, nota) else [])
  }

  /** `_loop` over the lines `lines`, read in order. */
  function Run(buffer: Option<NotaGuitarra>, range: real, callbacks: seq<CallbackId>, lines: seq<Line>): Outcome
    decreases |lines|
  {
    if lines == [] then Outcome(buffer, [])
    else
      var before := Run(buffer, range, callbacks, lines[..|lines| - 1]);
      var last := Step(before.buffer, range, callbacks, lines[|lines| - 1]);
      Outcome(last.buffer, before.dispatches + last.dispatches)
  }

  /** Lines that fail to parse leave the buffer as it was and call nothing. */
  lemma {:induction false} RunNoise(buffer: Option<NotaGuitarra>, range: real, callbacks: seq<CallbackId>, lines: seq<Line>)
    requires forall i :: 0 <= i < |lines| ==> ParseLine(lines[i]).None?
    ensures Run(buffer, range, callbacks, lines) == Outcome(buffer, [])
    decreases |lines|
  {
    if lines != [] {
      RunNoise(buffer, range, callbacks, lines[..|lines| - 1]);
    }
  }

  /** Every invocation is addressed to a registered callback and carries a
      sample whose code came off the wire (so it is non-negative). */
  predicate WellAddressed(ds: seq<Dispatch>, callbacks: seq<CallbackId>) {
    forall i :: 0 <= i < |ds| ==> ds[i].callback in callbacks && ds[i].nota.codigo >= 0
  }

  lemma {:induction false} RunDispatches(buffer: Option<NotaGuitarra>, range: real, callbacks: seq<CallbackId>, lines: seq<Line>)
    ensures WellAddressed(Run(buffer, range, callbacks, lines).dispatches, callbacks)
    decreases |lines|
  {
    if lines != [] {
      var init := lines[..|lines| - 1];
      RunDispatches(buffer, range, callbacks, init);
      var before := Run(buffer, range, callbacks, init);
      var last := Step(before.buffer, range, callbacks, lines[|lines| - 1]);
      assert WellAddressed(last.dispatches, callbacks) by {
        var p := ParseLine(lines[|lines| - 1]);
        if last.dispatches != [] {
          assert p.Some? && last.dispatches == FanOut(callbacks, p.value);
        }
      }
      var all := before.dispatches + last.dispatches;
      forall i | 0 <= i < |all| ensures all[i].callback in callbacks && all[i].nota.codigo >= 0 {
        if i >= |before.dispatches| {
          assert all[i] == last.dispatches[i - |before.dispatches|];
        } else {
          assert all[i] == before.dispatches[i];
        }
      }
    }
  }

  /** One more line at the end. */
  lemma RunSnoc(buffer: Option<NotaGuitarra>, range: real, callbacks: seq<CallbackId>, xs: seq<Line>, x: Line)
    ensures var before := Run(buffer, range, callbacks, xs);
      var last := Step(before.buffer, range, callbacks, x);
      Run(buffer, range, callbacks, xs + [x]) == Outcome(last.buffer, before.dispatches + last.dispatches)
  {
    assert (xs + [x])[..|xs|] == xs;
  }

  /** Two lines in a row. */
  lemma RunTwo(buffer: Option<NotaGuitarra>, range: real, callbacks: seq<CallbackId>, l1: Line, l2: Line)
    ensures var s1 := Step(buffer, range, callbacks, l1);
      var s2 := Step(s1.buffer, range, callbacks, l2);
      Run(buffer, range, callbacks, [l1, l2]) == Outcome(s2.buffer, s1.dispatches + s2.dispatches)
  {
    var s1 := Step(buffer, range, callbacks, l1);
    RunSnoc(buffer, range, callbacks, [], l1);
    assert [] + [l1] == [l1];
    assert [] + s1.dispatches == s1.dispatches;
    RunSnoc(buffer, range, callbacks, [l1], l2);
    assert [l1] + [l2] == [l1, l2];
  }

  /** The first accepted line only fills the buffer: nothing is dispatched
      while there is no previous sample. */
  lemma FirstSampleNeverDispatches(range: real, callbacks: seq<CallbackId>, line: Line)
    ensures Run(None, range, callbacks, [line]).dispatches == []
  {
    assert [line][..0] == [];
  }

  /** A release then a press of the same one-digit code (`"k;0"` then
      `"k;1"`) under tolerance 0.5: the second line is an edge and every
      callback receives `(k, True)`. */
  lemma ScenarioPressSameCode(callbacks: seq<CallbackId>, c: char)
    requires IsDigit(c)
    ensures Run(None, 0.5, callbacks, [Decoded([c, ';', '0']), Decoded([c, ';', '1'])])
         == Outcome(Some(NotaGuitarra(c as int - '0' as int, true)),
                    FanOut(callbacks, NotaGuitarra(c as int - '0' as int, true)))
  {
    ParseOneDigit(c, '0');
    ParseOneDigit(c, '1');
    RunTwo(None, 0.5, callbacks, Decoded([c, ';', '0']), Decoded([c, ';', '1']));
  }

  /** `"1;0"` then `"9;1"` under tolerance 0.5: the codes are too far apart,
      nothing is dispatched, and `(9, on)` becomes the buffer. */
  lemma ScenarioFarCode(callbacks: seq<CallbackId>)
    ensures Run(None, 0.5, callbacks, [Decoded("1;0"), Decoded("9;1")])
         == Outcome(Some(NotaGuitarra(9, true)), [])
  {
    ParseOneDigit('1', '0');
    ParseOneDigit('9', '1');
    RunTwo(None, 0.5, callbacks, Decoded("1;0"), Decoded("9;1"));
  }

  // ---------------------------------------------------------------------
  // The tolerance setter
  // ---------------------------------------------------------------------

  function Distance(x: real, y: real): real {
    Abs(x - y)
  }

  /** The `range` setter's clamp of a float into [0, 0.5]: the point of
      [0, 0.5] nearest to `x`. */
  function ClampRange(x: real): (r: real)
    ensures 0.0 <= r <= 0.5
    ensures 0.0 <= x <= 0.5 ==> r == x
    ensures forall y :: 0.0 <= y <= 0.5 ==> Distance(x, r) <= Distance(x, y)
  {
    if x > 0.5 then 0.5 else if x < 0.0 then 0.0 else x
  }

  // ---------------------------------------------------------------------
  // The listener object
  // ---------------------------------------------------------------------

  class ListenerGuitarra {
    /** `_input_port` (`None` is `null`) */
    var inputPort: SerialPort?
    /** `_callbacks`, in registration order */
    var callbacks: seq<CallbackId>
    /** `_range`, the edge tolerance */
    var range: real
    /** `_running` */
    var running: bool
    /** whether `_thread` holds a thread (is not `None`) */
    var hasThread: bool
    /** `_nota_buffer`, the previous accepted sample */
    var notaBuffer: Option<NotaGuitarra>

    /** The tolerance lies in [0, 0.5], and a thread exists exactly while the
        listener runs, so there is never a second one. */
    ghost predicate Valid()
      reads this
    {
      0.0 <= range <= 0.5 && running == hasThread
    }

    /** The loop's condition `_running and _input_port.is_open` (with no
        port the thread dies at once on the attribute lookup). */
    predicate Active()
      reads this, inputPort
    {
      running && inputPort != null && inputPort.isOpen
    }

    constructor ()
      ensures Valid()
      ensures inputPort == null && callbacks == [] && range == 0.5
      ensures !running && !hasThread && notaBuffer == None
    {
      inputPort := null;
      callbacks := [];
      range := 0.5;
      running := false;
      hasThread := false;
      notaBuffer := None;
    }

    /** The `range` setter: a float is clamped into [0, 0.5]; any other
        value is ignored. */
    method SetRange(value: RangeArg)
      requires Valid()
      modifies this`range
      ensures Valid()
      ensures range == if value.FloatArg? then ClampRange(value.x) else old(range)
    {
      if value.FloatArg? {
        if value.x > 0.5 {
          range := 0.5;
        } else if value.x < 0.0 {
          range := 0.0;
        } else {
          range := value.x;
        }
      }
    }

    /** The `input_port` setter: opens the port if it is closed (failing when
        the device does not exist, with nothing changed), then closes the
        port held so far and keeps the new one. Re-assigning the port already
        held therefore leaves it closed. */
    method SetInputPort(port: SerialPort) returns (r: Result<(), PortError>)
      modifies this`inputPort, port, inputPort
      ensures r.Failure? <==> (!old(port.isOpen) && !port.available)
      ensures r.Failure? ==> inputPort == old(inputPort) && port.isOpen == old(port.isOpen)
      ensures r.Failure? && old(inputPort) != null ==> old(inputPort).isOpen == old(inputPort.isOpen)
      ensures r.Success? ==> inputPort == port
      ensures r.Success? && old(inputPort) != null ==> !old(inputPort).isOpen
      ensures r.Success? ==> (port.isOpen <==> old(inputPort) != port)
    {
      if !port.isOpen {
        var ok := port.Open();
        if !ok {
          return Failure(CannotOpen);
        }
      }
      if inputPort != null {
        inputPort.Close();
      }
      inputPort := port;
      r := Success(());
    }

    /** The `callback` setter: appends to the registry, never replaces. */
    method RegisterCallback(id: CallbackId)
      modifies this`callbacks
      ensures callbacks == old(callbacks) + [id]
    {
      callbacks := callbacks + [id];
    }

    /** `stop()` only takes and releases the lock: it changes nothing. */
    method Stop()
      requires Valid()
      ensures Valid()
    {
    }

    /** One iteration of `_loop` for a line read from the port. */
    method ProcessLine(line: Line) returns (out: seq<Dispatch>)
      modifies this`notaBuffer
      ensures Outcome(notaBuffer, out) == Step(old(notaBuffer), range, callbacks, line)
      ensures ParseLine(line).None? ==> notaBuffer == old(notaBuffer) && out == []
      ensures ParseLine(line).Some? ==> notaBuffer == ParseLine(line)
      ensures ParseLine(line).Some? && IsEdge(old(notaBuffer), ParseLine(line).value, range) ==>
        |out| == |callbacks| &&
        forall i :: 0 <= i < |out| ==> out[i] == Dispatch(callbacks[i], ParseLine(line).value)
      ensures ParseLine(line).Some? && !IsEdge(old(notaBuffer), ParseLine(line).value, range) ==> out == []
    {
      out := [];
      var parsed := ParseLine(line);
      if parsed.None? {
        return;
      }
      var ret := parsed.value;
      if notaBuffer.Some? {
        if Abs((notaBuffer.value.codigo - ret.codigo) as real) < range && notaBuffer.value.on != ret.on {
          for i := 0 to |callbacks|
            invariant |out| == i
            invariant forall k :: 0 <= k < i ==> out[k] == Dispatch(callbacks[k], ret)
          {
            out := out + [Dispatch(callbacks[i], ret)];
          }
        }
      }
      notaBuffer := Some(ret);
    }

    /** `_loop` while the listener runs and its port is open, over the lines
        the port delivers; otherwise it does nothing. */
    method Loop(lines: seq<Line>) returns (out: seq<Dispatch>)
      modifies this`notaBuffer
      ensures Active() ==> Outcome(notaBuffer, out) == Run(old(notaBuffer), range, callbacks, lines)
      ensures !Active() ==> notaBuffer == old(notaBuffer) && out == []
    {
      out := [];
      ghost var start := notaBuffer;
      var i := 0;
      while Active() && i < |lines|
        invariant 0 <= i <= |lines|
        invariant Active() ==> Outcome(notaBuffer, out) == Run(start, range, callbacks, lines[..i])
        invariant !Active() ==> notaBuffer == start && out == []
        decreases |lines| - i
      {
        ghost var before := Outcome(notaBuffer, out);
        var fired := ProcessLine(lines[i]);
        assert lines[..i + 1][..i] == lines[..i];
        assert lines[..i + 1][i] == lines[i];
        RunSnoc(start, range, callbacks, lines[..i], lines[i]);
        out := out + fired;
        i := i + 1;
      }
      assert Active() ==> lines[..i] == lines;
    }

    /** `start()`: only when not running and no thread exists does it mark the
        listener running and create the thread; otherwise it is a no-op. */
    method Start()
      requires Valid()
      modifies this`running, this`hasThread
      ensures Valid()
      ensures running && hasThread
      ensures old(running) ==> running == old(running) && hasThread == old(hasThread)
    {
      if !running && !hasThread {
        running := true;
        hasThread := true;
      }
    }

    /** `close()`: when running, clears the flag and drops the (joined)
        thread. */
    method Close()
      requires Valid()
      modifies this`running, this`hasThread
      ensures Valid()
      ensures !running && !hasThread
    {
      if running {
        running := false;
        hasThread := false;
      }
    }
  }
}
