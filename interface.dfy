/** The guitar interface (`InterfaceGuitarra`): it owns a listener, turns the
    keys of its code -> note-name dictionary into integer codes, and resolves
    every sample the listener hands it into the named notes bound within its
    tolerance. */
module GuitarInterface {
  import opened Wrappers
  import opened PyText
  import opened SerialPorts
  import opened GuitarListener

  /** What the game receives: a note name and whether it is pressed. */
  datatype NotaProcessada = NotaProcessada(nome: string, on: bool)

  /** A key of the code -> name dictionary: a Python number (an `int` or a
      finite `float`) or a string. */
  datatype Key = Number(x: real) | Text(s: string)

  /** The binding dictionary, in insertion order. */
  type Bindings = seq<(Key, string)>

  datatype ConfigError = InvalidRange | InvalidKey(key: Key)

  /** A dictionary never holds two equal keys. */
  predicate DistinctKeys(d: Bindings) {
    forall i, j :: 0 <= i < j < |d| ==> d[i].0 != d[j].0
  }

  /** `int(x)` for a float: rounds toward zero. */
  function Truncate(x: real): (r: int)
    ensures 0.0 <= x ==> r as real <= x < r as real + 1.0
    ensures x < 0.0 ==> r as real - 1.0 < x <= r as real
  {
    if x >= 0.0 then x.Floor else -((-x).Floor)
  }

  /** `int(key)`, `None` where Python raises `ValueError`. */
  function IntOf(k: Key): Option<int> {
    match k
    case Number(x) => Some(Truncate(x))
    case Text(s) => ParseInt(s)
  }

  predicate AllConvertible(d: Bindings) {
    forall i :: 0 <= i < |d| ==> IntOf(d[i].0).Some?
  }

  /** The codes `atribui_notas` appends: `int(key)` for each key in order, up
      to the first key that does not convert. */
  function ConvertedPrefix(d: Bindings): (r: seq<int>)
    ensures |r| <= |d|
    decreases |d|
  {
    if d == [] then []
    else
      match IntOf(d[0].0)
      case None => []
      case Some(v) => [v] + ConvertedPrefix(d[1..])
  }

  /** The codes appended are the keys' conversions, position by position;
      all keys were converted iff every key converts, and otherwise the key
      after the last code is the first one that does not convert. */
  lemma {:induction false} ConvertedPrefixSpec(d: Bindings)
    ensures var r := ConvertedPrefix(d);
      && (forall i :: 0 <= i < |r| ==> IntOf(d[i].0) == Some(r[i]))
      && (AllConvertible(d) <==> |r| == |d|)
      && (|r| < |d| ==> IntOf(d[|r|].0).None?)
    decreases |d|
  {
    if d != [] && IntOf(d[0].0).Some? {
      ConvertedPrefixSpec(d[1..]);
      assert forall i :: 1 <= i < |d| ==> d[i] == d[1..][i - 1];
    }
  }

  /** One step of the conversion, at position `i`. */
  lemma ConvertedPrefixAt(d: Bindings, i: int)
    requires 0 <= i < |d|
    ensures ConvertedPrefix(d[i..]) ==
      match IntOf(d[i].0)
      case None => []
      case Some(v) => [v] + ConvertedPrefix(d[i + 1..])
  {
    assert d[i..][0] == d[i];
    assert d[i..][1..] == d[i + 1..];
  }

  /** `_dicionario[valor]`: the name bound to the numeric key equal to
      `valor`, `None` where Python raises `KeyError`. */
  function Lookup(d: Bindings, valor: int): (r: Option<string>)
    ensures r.Some? ==> (Number(valor as real), r.value) in d
    ensures r.None? ==> forall i :: 0 <= i < |d| ==> d[i].0 != Number(valor as real)
    decreases |d|
  {
    if d == [] then None
    else if d[0].0 == Number(valor as real) then Some(d[0].1)
    else
      var r := Lookup(d[1..], valor);
      assert forall i :: 1 <= i < |d| ==> d[i] == d[1..][i - 1];
      r
  }

  /** The resolver's tolerance test, inclusive (unlike the listener's). */
  predicate InRange(codigo: int, valor: int, range: real) {
    Abs((codigo - valor) as real) <= range
  }

  /** What `_callback` does with one sample: the notes it passed to the
      game's callback, and whether it then stopped on a `KeyError`. */
  datatype Resolution = Resolution(emitted: seq<NotaProcessada>, keyError: bool)

  /** `_callback`: scan the bound codes in list order and, for each one
      within `range` of the sample's code, emit its name with the sample's
      on/off flag. A bound code with no numeric dictionary key raises
      `KeyError` at that point. */
  function Resolve(valores: seq<int>, d: Bindings, range: real, nota: NotaGuitarra): (r: Resolution)
    ensures |r.emitted| <= |valores|
    ensures forall i :: 0 <= i < |r.emitted| ==> r.emitted[i].on == nota.on
    ensures r.keyError <==>
      exists i :: 0 <= i < |valores| && InRange(nota.codigo, valores[i], range) && Lookup(d, valores[i]).None?
    decreases |valores|
  {
    if valores == [] then Resolution([], false)
    else
      assert forall i :: 1 <= i < |valores| ==> valores[i] == valores[1..][i - 1];
      if InRange(nota.codigo, valores[0], range) then
        match Lookup(d, valores[0])
        case None => Resolution([], true)
        case Some(nome) =>
          var rest := Resolve(valores[1..], d, range, nota);
          Resolution([NotaProcessada(nome, nota.on)] + rest.emitted, rest.keyError)
      else Resolve(valores[1..], d, range, nota)
  }

  // ---------------------------------------------------------------------
  // A reference definition: filter the codes, then map them to notes
  // ---------------------------------------------------------------------

  /** The bound codes within `range` of `codigo`, in list order. */
  function Matching(valores: seq<int>, codigo: int, range: real): (r: seq<int>)
    ensures forall v :: v in r <==> v in valores && InRange(codigo, v, range)
    decreases |valores|
  {
    if valores == [] then []
    else
      var rest := Matching(valores[1..], codigo, range);
      assert forall v :: v in valores <==> v == valores[0] || v in valores[1..];
      if InRange(codigo, valores[0], range) then [valores[0]] + rest else rest
  }

  /** Each code's bound name, with the flag `on`. */
  function Names(vs: seq<int>, d: Bindings, on: bool): (r: seq<NotaProcessada>)
    requires forall v :: v in vs ==> Lookup(d, v).Some?
    ensures |r| == |vs|
    ensures forall i :: 0 <= i < |r| ==> r[i] == NotaProcessada(Lookup(d, vs[i]).value, on)
    decreases |vs|
  {
    if vs == [] then []
    else [NotaProcessada(Lookup(d, vs[0]).value, on)] + Names(vs[1..], d, on)
  }

  /** When every code in range has a name, `_callback` emits exactly the
      names of the matching codes, in list order, and does not fail. */
  lemma {:induction false} ResolveIsFilterMap(valores: seq<int>, d: Bindings, range: real, nota: NotaGuitarra)
    requires forall i :: 0 <= i < |valores| && InRange(nota.codigo, valores[i], range) ==> Lookup(d, valores[i]).Some?
    ensures forall v :: v in Matching(valores, nota.codigo, range) ==> Lookup(d, v).Some?
    ensures Resolve(valores, d, range, nota) ==
      Resolution(Names(Matching(valores, nota.codigo, range), d, nota.on), false)
    decreases |valores|
  {
    if valores != [] {
      assert forall i :: 1 <= i < |valores| ==> valores[i] == valores[1..][i - 1];
      ResolveIsFilterMap(valores[1..], d, range, nota);
      var m := Matching(valores, nota.codigo, range);
      forall v | v in m ensures Lookup(d, v).Some? {
        var i :| 0 <= i < |valores| && valores[i] == v;
      }
      if InRange(nota.codigo, valores[0], range) {
        assert m == [valores[0]] + Matching(valores[1..], nota.codigo, range);
        assert m[1..] == Matching(valores[1..], nota.codigo, range);
      }
    }
  }

  /** When the k-th bound code is the first one in range with no numeric
      key, `_callback` raises `KeyError` there, having emitted exactly the
      names of the matching codes before it, in list order. */
  lemma {:induction false} ResolveStopsAtKeyError(valores: seq<int>, d: Bindings, range: real, nota: NotaGuitarra, k: int)
    requires 0 <= k < |valores|
    requires InRange(nota.codigo, valores[k], range) && Lookup(d, valores[k]).None?
    requires forall i :: 0 <= i < k && InRange(nota.codigo, valores[i], range) ==> Lookup(d, valores[i]).Some?
    ensures forall v :: v in Matching(valores[..k], nota.codigo, range) ==> Lookup(d, v).Some?
    ensures Resolve(valores, d, range, nota) ==
      Resolution(Names(Matching(valores[..k], nota.codigo, range), d, nota.on), true)
    decreases |valores|
  {
    var pre := valores[..k];
    forall v | v in Matching(pre, nota.codigo, range) ensures Lookup(d, v).Some? {
      var i :| 0 <= i < |pre| && pre[i] == v;
    }
    if k > 0 {
      var rest := valores[1..];
      assert forall i :: 1 <= i < |valores| ==> valores[i] == rest[i - 1];
      ResolveStopsAtKeyError(rest, d, range, nota, k - 1);
      assert pre[1..] == rest[..k - 1];
      var m := Matching(rest[..k - 1], nota.codigo, range);
      if InRange(nota.codigo, valores[0], range) {
        assert Matching(pre, nota.codigo, range) == [valores[0]] + m;
        assert ([valores[0]] + m)[1..] == m;
      }
    }
  }

  /** A sample whose code is not within range of any bound code emits
      nothing and raises nothing. */
  lemma {:induction false} ResolveNoMatch(valores: seq<int>, d: Bindings, range: real, nota: NotaGuitarra)
    requires forall i :: 0 <= i < |valores| ==> !InRange(nota.codigo, valores[i], range)
    ensures Resolve(valores, d, range, nota) == Resolution([], false)
    decreases |valores|
  {
    if valores != [] {
      assert forall i :: 1 <= i < |valores| ==> valores[i] == valores[1..][i - 1];
      ResolveNoMatch(valores[1..], d, range, nota);
    }
  }

  /** With integer codes and a tolerance below 1 (the constructor allows at
      most 0.5), a bound code matches iff it equals the sample's code, so the
      sample's note is emitted once per occurrence of its code in the list. */
  lemma {:induction false} ResolveExactCode(valores: seq<int>, d: Bindings, range: real, nota: NotaGuitarra)
    requires 0.0 <= range < 1.0
    requires Lookup(d, nota.codigo).Some?
    ensures Resolve(valores, d, range, nota) ==
      Resolution(seq(multiset(valores)[nota.codigo], _ => NotaProcessada(Lookup(d, nota.codigo).value, nota.on)), false)
    decreases |valores|
  {
    var n := NotaProcessada(Lookup(d, nota.codigo).value, nota.on);
    if valores == [] {
    } else {
      var v, rest := valores[0], valores[1..];
      assert valores == [v] + rest;
      assert multiset(valores) == multiset{v} + multiset(rest);
      ResolveExactCode(rest, d, range, nota);
      var k := multiset(rest)[nota.codigo];
      if v == nota.codigo {
        assert InRange(nota.codigo, v, range);
        assert [n] + seq(k, _ => n) == seq(k + 1, _ => n);
      } else {
        assert Abs((nota.codigo - v) as real) >= 1.0;
      }
    }
  }

  /** The bindings the game uses: codes 1.0 .. 5.0 for nota1 .. nota5. */
  function GameBindings(): (d: Bindings)
    ensures DistinctKeys(d) && AllConvertible(d)
  {
    [(Number(1.0), "nota1"), (Number(2.0), "nota2"), (Number(3.0), "nota3"),
     (Number(4.0), "nota4"), (Number(5.0), "nota5")]
  }

  /** `atribui_notas` on the game's bindings gives the codes 1 .. 5. */
  lemma GameCodes()
    ensures ConvertedPrefix(GameBindings()) == [1, 2, 3, 4, 5]
  {
    var d := GameBindings();
    var vs := ConvertedPrefix(d);
    ConvertedPrefixSpec(d);
    assert |vs| == 5;
    assert IntOf(d[0].0) == Some(1) && IntOf(d[1].0) == Some(2) && IntOf(d[2].0) == Some(3);
    assert IntOf(d[3].0) == Some(4) && IntOf(d[4].0) == Some(5);
  }

  /** The game's name for its k-th string, `nota<k>`. */
  function NotaNome(k: int): (nome: string)
    requires 0 <= k < 10
    ensures |nome| == 5 && nome[..4] == "nota" && IsDigit(nome[4]) && nome[4] as int - '0' as int == k
  {
    "nota" + [DigitChar(k)]
  }

  /** The game's bindings name code k in 1 .. 5 `nota<k>`. */
  lemma GameLookup(k: int)
    requires 1 <= k <= 5
    ensures Lookup(GameBindings(), k) == Some(NotaNome(k))
  {
    var d := GameBindings();
    var t1, t2, t3, t4 := d[1..], d[2..], d[3..], d[4..];
    assert t1[1..] == t2 && t2[1..] == t3 && t3[1..] == t4;
    assert NotaNome(k) == d[k - 1].1;
    if k == 1 {
    } else if k == 2 {
      assert Lookup(d, k) == Lookup(t1, k);
    } else if k == 3 {
      assert Lookup(d, k) == Lookup(t1, k) == Lookup(t2, k);
    } else if k == 4 {
      assert Lookup(d, k) == Lookup(t1, k) == Lookup(t2, k) == Lookup(t3, k);
    } else {
      assert Lookup(d, k) == Lookup(t1, k) == Lookup(t2, k) == Lookup(t3, k) == Lookup(t4, k);
    }
  }

  /** Each of the codes 1 to 5 appears once in `[1, 2, 3, 4, 5]`. */
  lemma GameCodesOnce(k: int)
    requires 1 <= k <= 5
    ensures multiset([1, 2, 3, 4, 5])[k] == 1
  {
    assert multiset([1, 2, 3, 4, 5]) == multiset{1, 2, 3, 4, 5};
  }

  /** A code that appears once among the codes, with range below 1, yields
      exactly its own name. */
  lemma ResolveUniqueCode(valores: seq<int>, d: Bindings, range: real, nota: NotaGuitarra, nome: string)
    requires 0.0 <= range < 1.0
    requires Lookup(d, nota.codigo) == Some(nome)
    requires multiset(valores)[nota.codigo] == 1
    ensures Resolve(valores, d, range, nota) == Resolution([NotaProcessada(nome, nota.on)], false)
  {
    ResolveExactCode(valores, d, range, nota);
    var n := NotaProcessada(nome, nota.on);
    var s := seq(1, _ => n);
    assert |s| == 1 && s[0] == n;
  }

  /** With the game's bindings and any tolerance `r` the constructor
      accepts, code k in 1 .. 5 resolves to `nota<k>` alone, with the
      sample's flag, and raises nothing. */
  lemma ResolveBoundCode(k: int, on: bool, r: real)
    requires 1 <= k <= 5
    requires 0.0 < r <= 0.5
    ensures Resolve(ConvertedPrefix(GameBindings()), GameBindings(), r, NotaGuitarra(k, on))
         == Resolution([NotaProcessada(NotaNome(k), on)], false)
  {
    GameCodes();
    GameLookup(k);
    GameCodesOnce(k);
    ResolveUniqueCode([1, 2, 3, 4, 5], GameBindings(), r, NotaGuitarra(k, on), NotaNome(k));
  }

  /** With the game's bindings and any tolerance `r` the constructor
      accepts, any code outside 1 .. 5 resolves to nothing and raises
      nothing. */
  lemma ResolveUnboundCode(k: int, on: bool, r: real)
    requires k < 1 || k > 5
    requires 0.0 < r <= 0.5
    ensures Resolve(ConvertedPrefix(GameBindings()), GameBindings(), r, NotaGuitarra(k, on))
         == Resolution([], false)
  {
    GameCodes();
    var vs: seq<int> := [1, 2, 3, 4, 5];
    forall i | 0 <= i < |vs| ensures !InRange(k, vs[i], r) {
      assert vs[i] == i + 1;
      assert k - vs[i] <= -1 || k - vs[i] >= 1;
    }
    ResolveNoMatch(vs, GameBindings(), r, NotaGuitarra(k, on));
  }

  // ---------------------------------------------------------------------
  // The interface object
  // ---------------------------------------------------------------------

  class InterfaceGuitarra {
    /** `_listener` */
    const listener: ListenerGuitarra
    /** `_porta` */
    const porta: SerialPort
    /** Stands for the callback `lambda x: self._callback(x)` that `start`
        registers with the listener. */
    const callbackId: CallbackId
    /** `_range`, the resolver's tolerance */
    const range: real
    /** `_dicionario`, code -> note name */
    var dicionario: Bindings
    /** `_valores_dicionario` */
    var valores: seq<int>

    /** The tolerance is one the constructor accepts, and the private
        listener holds no port or this interface's own port: only `start`
        hands it one. */
    ghost predicate Valid()
      reads this, listener
    {
      && listener.Valid() && 0.0 < range <= 0.5
      && (listener.inputPort == null || listener.inputPort == porta)
    }

    constructor (porta: SerialPort, callbackId: CallbackId, rangen: real)
      requires 0.0 < rangen <= 0.5
      ensures Valid() && fresh(listener)
      ensures this.porta == porta && this.callbackId == callbackId && range == rangen
      ensures dicionario == [] && valores == []
      ensures listener.inputPort == null && listener.callbacks == [] && listener.range == 0.5
      ensures !listener.running && listener.notaBuffer == None
    {
      listener := new ListenerGuitarra();
      this.porta := porta;
      this.callbackId := callbackId;
      range := rangen;
      dicionario := [];
      valores := [];
    }

    /** `InterfaceGuitarra(...)`: accepts `rangen` only if it is a float with
        0 < rangen <= 0.5, and raises otherwise. */
    static method Create(porta: SerialPort, callbackId: CallbackId, rangen: RangeArg)
      returns (r: Result<InterfaceGuitarra, ConfigError>)
      ensures r.Failure? <==> !(rangen.FloatArg? && 0.0 < rangen.x <= 0.5)
      ensures r.Failure? ==> r.error == InvalidRange
      ensures r.Success? ==> fresh(r.value) && fresh(r.value.listener) && r.value.Valid()
      ensures r.Success? ==> r.value.porta == porta && r.value.callbackId == callbackId && r.value.range == rangen.x
      ensures r.Success? ==> r.value.dicionario == [] && r.value.valores == []
      ensures r.Success? ==> r.value.listener.inputPort == null && r.value.listener.callbacks == []
      ensures r.Success? ==> r.value.listener.range == 0.5
      ensures r.Success? ==> !r.value.listener.running && r.value.listener.notaBuffer == None
    {
      if rangen.FloatArg? && 0.0 < rangen.x <= 0.5 {
        var g := new InterfaceGuitarra(porta, callbackId, rangen.x);
        r := Success(g);
      } else {
        r := Failure(InvalidRange);
      }
    }

    /** `atribui_notas`: keeps the dictionary and appends `int(key)` for each
        key in order; at the first key that does not convert it raises, with
        the codes before it already appended. */
    method AtribuiNotas(entries: Bindings) returns (r: Result<(), ConfigError>)
      requires DistinctKeys(entries)
      modifies this`dicionario, this`valores
      ensures dicionario == entries
      ensures valores == old(valores) + ConvertedPrefix(entries)
      ensures r.Success? <==> AllConvertible(entries)
      ensures r.Failure? ==>
        |ConvertedPrefix(entries)| < |entries| && r.error == InvalidKey(entries[|ConvertedPrefix(entries)|].0)
    {
      dicionario := entries;
      for i := 0 to |entries|
        invariant dicionario == entries
        invariant |valores| == |old(valores)| + i
        invariant forall j :: 0 <= j < i ==> IntOf(entries[j].0).Some?
        invariant old(valores) + ConvertedPrefix(entries) == valores + ConvertedPrefix(entries[i..])
      {
        ConvertedPrefixAt(entries, i);
        match IntOf(entries[i].0)
        case None =>
          return Failure(InvalidKey(entries[i].0));
        case Some(v) =>
          assert valores + [v] + ConvertedPrefix(entries[i + 1..]) == valores + ConvertedPrefix(entries[i..]);
          valores := valores + [v];
      }
      assert entries[|entries|..] == [];
      r := Success(());
    }

    /** `start`: registers one more listener callback, then hands the port to
        the listener (which may fail to open it), then starts the listener. */
    method Start() returns (r: Result<(), PortError>)
      requires Valid()
      modifies listener, listener.inputPort, porta
      ensures Valid()
      ensures listener.callbacks == old(listener.callbacks) + [callbackId]
      ensures listener.range == old(listener.range) && listener.notaBuffer == old(listener.notaBuffer)
      ensures r.Failure? <==> (!old(porta.isOpen) && !porta.available)
      ensures r.Failure? ==> listener.inputPort == old(listener.inputPort)
      ensures r.Failure? ==> listener.running == old(listener.running) && porta.isOpen == old(porta.isOpen)
      ensures r.Success? ==> listener.inputPort == porta && listener.running && listener.hasThread
      ensures r.Success? ==> (porta.isOpen <==> old(listener.inputPort) != porta)
      ensures r.Success? ==> (porta.isOpen <==> old(listener.inputPort) == null)
    {
      listener.RegisterCallback(callbackId);
      r := listener.SetInputPort(porta);
      if r.Failure? {
        return;
      }
      listener.Start();
    }

    /** `stop`: delegates to the listener's `stop`, which changes nothing. */
    method Stop()
      requires Valid()
      ensures Valid()
    {
      listener.Stop();
    }
  }

  // ---------------------------------------------------------------------
  // The interface as the game sets it up
  // ---------------------------------------------------------------------

  /** The interface as the game builds it (an open port, the calibrated
      tolerance `r`, the game's bindings), started once: the listener runs
      on that port with the one callback and its own default tolerance. */
  method StartedGameInterface(id: CallbackId, r: real) returns (g: InterfaceGuitarra)
    requires 0.0 < r <= 0.5
    ensures fresh(g) && fresh(g.listener) && fresh(g.porta) && g.Valid()
    ensures g.callbackId == id && g.range == r
    ensures g.dicionario == GameBindings() && g.valores == ConvertedPrefix(GameBindings())
    ensures g.porta.available && g.porta.isOpen
    ensures g.listener.Active() && g.listener.inputPort == g.porta
    ensures g.listener.range == 0.5 && g.listener.callbacks == [id] && g.listener.notaBuffer == None
  {
    var porta := new SerialPort(true, true);
    var created := InterfaceGuitarra.Create(porta, id, FloatArg(r));
    g := created.value;
    var bound := g.AtribuiNotas(GameBindings());
    var started := g.Start();
  }

  /** Set up as the game does, with any calibrated tolerance `r`, and
      started once, a release then a press of code `k` from 1 to 5 on the
      port (`"k;0"` then `"k;1"`) reach the game as one press of `notak`. */
  method StartOnceDelivers(id: CallbackId, r: real, c: char) returns (delivered: seq<Dispatch>, notes: seq<NotaProcessada>)
    requires 0.0 < r <= 0.5
    requires '1' <= c <= '5'
    ensures delivered == [Dispatch(id, NotaGuitarra(c as int - '0' as int, true))]
    ensures notes == [NotaProcessada("nota" + [c], true)]
  {
    var g := StartedGameInterface(id, r);
    var press := NotaGuitarra(c as int - '0' as int, true);
    ScenarioPressSameCode([id], c);
    assert FanOut([id], press) == [Dispatch(id, press)];
    delivered := g.listener.Loop([Decoded([c, ';', '0']), Decoded([c, ';', '1'])]);
    ResolveBoundCode(press.codigo, true, r);
    assert NotaNome(press.codigo) == "nota" + [c];
    notes := Resolve(g.valores, g.dicionario, g.range, press).emitted;
  }

  /** Started twice, the listener holds the callback twice, but the second
      `start` hands the listener the port it already holds, so the port is
      closed and the loop reads nothing more: nothing is delivered. */
  method StartTwiceClosesPort(id: CallbackId, r: real, lines: seq<Line>)
    returns (callbacks: seq<CallbackId>, portOpen: bool, delivered: seq<Dispatch>)
    requires 0.0 < r <= 0.5
    ensures callbacks == [id, id]
    ensures !portOpen
    ensures delivered == []
  {
    var g := StartedGameInterface(id, r);
    var second := g.Start();
    callbacks := g.listener.callbacks;
    portOpen := g.porta.isOpen;
    delivered := g.listener.Loop(lines);
  }
}
