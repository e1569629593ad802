/** The game's hit/miss bookkeeping (`Jogo`): which colours are held down,
    the notes on screen, a press removing the notes of its colour inside the
    hit window, each frame advancing the notes and dropping those past the
    late limit, and the keyboard standing in for the guitar. */
module Game {
  import opened Wrappers
  import opened GuitarInterface

  /** A string colour, a key of `ORDEM_CORDAS`. */
  type Cor = string

  /** A note on screen: its colour and its position along the neck. */
  class NotaTela {
    const cor: Cor
    var posicao: real

    constructor (cor: Cor, posicao: real)
      ensures this.cor == cor && this.posicao == posicao
    {
      this.cor := cor;
      this.posicao := posicao;
    }
  }

  /** No note object appears twice in the list. */
  predicate Distinct(ns: seq<NotaTela>) {
    forall i, j :: 0 <= i < j < |ns| ==> ns[i] != ns[j]
  }

  /** `xs` is `ys` with some elements left out, the rest in their order. */
  predicate IsSubsequence(xs: seq<NotaTela>, ys: seq<NotaTela>)
    decreases |ys|
  {
    if ys == [] then xs == []
    else
      IsSubsequence(xs, ys[..|ys| - 1])
      || (xs != [] && xs[|xs| - 1] == ys[|ys| - 1] && IsSubsequence(xs[..|xs| - 1], ys[..|ys| - 1]))
  }

  // ---------------------------------------------------------------------
  // The two list filters
  // ---------------------------------------------------------------------

  /** A press of `cor` hits `n`: same colour, inside the hit window. */
  predicate Acertada(n: NotaTela, cor: Cor, adiantado: real, atrasado: real)
    reads n
  {
    n.cor == cor && adiantado <= n.posicao <= atrasado
  }

  /** The notes a press of `cor` leaves on screen, in their order. */
  function Sobreviventes(ns: seq<NotaTela>, cor: Cor, adiantado: real, atrasado: real): (r: seq<NotaTela>)
    reads ns
    ensures |r| <= |ns|
    decreases |ns|
  {
    if ns == [] then []
    else
      var rest := Sobreviventes(ns[..|ns| - 1], cor, adiantado, atrasado);
      var n := ns[|ns| - 1];
      if Acertada(n, cor, adiantado, atrasado) then rest else rest + [n]
  }

  /** The notes a frame keeps: those not past the late limit, in order. */
  function Restantes(ns: seq<NotaTela>, atrasado: real): (r: seq<NotaTela>)
    reads ns
    ensures |r| <= |ns|
    decreases |ns|
  {
    if ns == [] then []
    else
      var rest := Restantes(ns[..|ns| - 1], atrasado);
      var n := ns[|ns| - 1];
      if n.posicao > atrasado then rest else rest + [n]
  }

  /** A press removes exactly the notes it hits. */
  lemma {:induction false} SobreviventesMembers(ns: seq<NotaTela>, cor: Cor, adiantado: real, atrasado: real)
    ensures forall n :: n in Sobreviventes(ns, cor, adiantado, atrasado) <==>
      n in ns && !Acertada(n, cor, adiantado, atrasado)
    decreases |ns|
  {
    if ns != [] {
      var init := ns[..|ns| - 1];
      SobreviventesMembers(init, cor, adiantado, atrasado);
      assert ns == init + [ns[|ns| - 1]];
    }
  }

  /** The notes a press leaves keep their order, and so the list stays free
      of repeats. */
  lemma {:induction false} SobreviventesOrdered(ns: seq<NotaTela>, cor: Cor, adiantado: real, atrasado: real)
    ensures IsSubsequence(Sobreviventes(ns, cor, adiantado, atrasado), ns)
    ensures Distinct(ns) ==> Distinct(Sobreviventes(ns, cor, adiantado, atrasado))
    decreases |ns|
  {
    if ns != [] {
      var init := ns[..|ns| - 1];
      SobreviventesOrdered(init, cor, adiantado, atrasado);
      SobreviventesMembers(init, cor, adiantado, atrasado);
      var r := Sobreviventes(ns, cor, adiantado, atrasado);
      var rest := Sobreviventes(init, cor, adiantado, atrasado);
      if !Acertada(ns[|ns| - 1], cor, adiantado, atrasado) {
        assert r[..|r| - 1] == rest;
        if Distinct(ns) {
          assert ns[|ns| - 1] !in init;
        }
      }
    }
  }

  /** A frame drops exactly the notes past the late limit. */
  lemma {:induction false} RestantesMembers(ns: seq<NotaTela>, atrasado: real)
    ensures forall n :: n in Restantes(ns, atrasado) <==> n in ns && n.posicao <= atrasado
    decreases |ns|
  {
    if ns != [] {
      var init := ns[..|ns| - 1];
      RestantesMembers(init, atrasado);
      assert ns == init + [ns[|ns| - 1]];
    }
  }

  /** The notes a frame keeps keep their order, and so the list stays free
      of repeats. */
  lemma {:induction false} RestantesOrdered(ns: seq<NotaTela>, atrasado: real)
    ensures IsSubsequence(Restantes(ns, atrasado), ns)
    ensures Distinct(ns) ==> Distinct(Restantes(ns, atrasado))
    decreases |ns|
  {
    if ns != [] {
      var init := ns[..|ns| - 1];
      RestantesOrdered(init, atrasado);
      RestantesMembers(init, atrasado);
      var r := Restantes(ns, atrasado);
      var rest := Restantes(init, atrasado);
      if ns[|ns| - 1].posicao <= atrasado {
        assert r[..|r| - 1] == rest;
        if Distinct(ns) {
          assert ns[|ns| - 1] !in init;
        }
      }
    }
  }

  /** Pressing the same colour twice in a row removes nothing the first
      press left. */
  lemma {:induction false} SobreviventesIdempotent(ns: seq<NotaTela>, cor: Cor, adiantado: real, atrasado: real)
    ensures var r := Sobreviventes(ns, cor, adiantado, atrasado);
      Sobreviventes(r, cor, adiantado, atrasado) == r
    decreases |ns|
  {
    if ns != [] {
      var init := ns[..|ns| - 1];
      SobreviventesIdempotent(init, cor, adiantado, atrasado);
      var rest := Sobreviventes(init, cor, adiantado, atrasado);
      var n := ns[|ns| - 1];
      if !Acertada(n, cor, adiantado, atrasado) {
        assert (rest + [n])[..|rest + [n]| - 1] == rest;
      }
    }
  }

  // ---------------------------------------------------------------------
  // Keyboard events
  // ---------------------------------------------------------------------

  /** The pygame events the game looks at; keys are written as the letter
      they stand for. */
  datatype Event = Quit | KeyDown(key: char) | KeyUp(key: char) | Other

  /** The keys standing in for the five strings, in string order. */
  const Teclas: string := "asdfg"

  /** The note a key event stands for: the i-th key of `Teclas` is
      `nota<i+1>`, pressed on key-down and released on key-up. */
  function KeyNote(e: Event): (r: Option<NotaProcessada>)
    ensures r.Some? <==> (e.KeyDown? || e.KeyUp?) && e.key in Teclas
    ensures forall i :: 0 <= i < |Teclas| && r.Some? && e.key == Teclas[i] ==>
      r.value == NotaProcessada(NotaNome(i + 1), e.KeyDown?)
  {
    if e.KeyDown? || e.KeyUp? then
      var on := e.KeyDown?;
      match e.key
      case 'a' => Some(NotaProcessada("nota1", on))
      case 's' => Some(NotaProcessada("nota2", on))
      case 'd' => Some(NotaProcessada("nota3", on))
      case 'f' => Some(NotaProcessada("nota4", on))
      case 'g' => Some(NotaProcessada("nota5", on))
      case _ => None
    else None
  }

  /** Every key event in `es` stands for a note `mapa` knows. */
  predicate Named(es: seq<Event>, mapa: map<string, Cor>) {
    forall i :: 0 <= i < |es| && KeyNote(es[i]).Some? ==> KeyNote(es[i]).value.nome in mapa
  }

  /** What events change besides the notes: whether the game runs, which
      colours are held, and which colours were pressed. */
  datatype Painel = Painel(running: bool, inputs: map<Cor, bool>, pressed: set<Cor>)

  /** One event: a quit stops the game; a key event sets its colour and, on
      key-down, counts as a press of that colour. */
  function ApplyEvent(p: Painel, e: Event, mapa: map<string, Cor>): Painel
    requires KeyNote(e).Some? ==> KeyNote(e).value.nome in mapa
  {
    var running := p.running && !e.Quit?;
    match KeyNote(e)
    case None => Painel(running, p.inputs, p.pressed)
    case Some(n) =>
      var cor := mapa[n.nome];
      Painel(running, p.inputs[cor := n.on], if n.on then p.pressed + {cor} else p.pressed)
  }

  /** The events in order. */
  function ApplyEvents(p: Painel, es: seq<Event>, mapa: map<string, Cor>): Painel
    requires Named(es, mapa)
    decreases |es|
  {
    if es == [] then p
    else ApplyEvent(ApplyEvents(p, es[..|es| - 1], mapa), es[|es| - 1], mapa)
  }

  /** The game is still running after a batch iff it was and no event of the
      batch is a quit. */
  lemma {:induction false} ApplyEventsRunning(p: Painel, es: seq<Event>, mapa: map<string, Cor>)
    requires Named(es, mapa)
    ensures ApplyEvents(p, es, mapa).running == (p.running && Quit !in es)
    decreases |es|
  {
    if es != [] {
      ApplyEventsRunning(p, es[..|es| - 1], mapa);
      assert es == es[..|es| - 1] + [es[|es| - 1]];
    }
  }

  /** A colour counts as pressed after a batch iff it already did or some
      key-down event of the batch stands for a note of that colour. */
  lemma {:induction false} ApplyEventsPressed(p: Painel, es: seq<Event>, mapa: map<string, Cor>, c: Cor)
    requires Named(es, mapa)
    ensures c in ApplyEvents(p, es, mapa).pressed <==>
      c in p.pressed
      || exists i :: 0 <= i < |es| && es[i].KeyDown? && KeyNote(es[i]).Some? && mapa[KeyNote(es[i]).value.nome] == c
    decreases |es|
  {
    if es != [] {
      var init := es[..|es| - 1];
      assert forall i :: 0 <= i < |init| ==> init[i] == es[i];
      ApplyEventsPressed(p, init, mapa, c);
    }
  }

  /** `e` is a key event for a note of colour `c`. */
  predicate Touches(e: Event, mapa: map<string, Cor>, c: Cor) {
    KeyNote(e).Some? && KeyNote(e).value.nome in mapa && mapa[KeyNote(e).value.nome] == c
  }

  /** A batch with no key event for colour `c` leaves its state alone. */
  lemma {:induction false} ApplyEventsUntouched(p: Painel, es: seq<Event>, mapa: map<string, Cor>, c: Cor)
    requires Named(es, mapa)
    requires forall i :: 0 <= i < |es| ==> !Touches(es[i], mapa, c)
    ensures var r := ApplyEvents(p, es, mapa).inputs;
      (c in r <==> c in p.inputs) && (c in r ==> r[c] == p.inputs[c])
    decreases |es|
  {
    if es != [] {
      var init, e := es[..|es| - 1], es[|es| - 1];
      assert forall i :: 0 <= i < |init| ==> init[i] == es[i];
      ApplyEventsUntouched(p, init, mapa, c);
      var q := ApplyEvents(p, init, mapa).inputs;
      var r := ApplyEvents(p, es, mapa).inputs;
      assert !Touches(e, mapa, c);
      if KeyNote(e).Some? {
        assert r == q[mapa[KeyNote(e).value.nome] := e.KeyDown?];
      } else {
        assert r == q;
      }
    }
  }

  /** When event `i` is the last key event of the batch for colour `c`, it
      decides whether `c` is held. */
  lemma {:induction false} ApplyEventsLastTouch(p: Painel, es: seq<Event>, mapa: map<string, Cor>, c: Cor, i: int)
    requires Named(es, mapa)
    requires 0 <= i < |es| && Touches(es[i], mapa, c)
    requires forall j :: i < j < |es| ==> !Touches(es[j], mapa, c)
    ensures var r := ApplyEvents(p, es, mapa).inputs;
      c in r && r[c] == es[i].KeyDown?
    decreases |es|
  {
    var init, e := es[..|es| - 1], es[|es| - 1];
    assert forall k :: 0 <= k < |init| ==> init[k] == es[k];
    var q := ApplyEvents(p, init, mapa).inputs;
    var r := ApplyEvents(p, es, mapa).inputs;
    if i == |es| - 1 {
      assert r == q[c := e.KeyDown?];
    } else {
      ApplyEventsLastTouch(p, init, mapa, c, i);
      assert !Touches(e, mapa, c);
      if KeyNote(e).Some? {
        assert r == q[mapa[KeyNote(e).value.nome] := e.KeyDown?];
      } else {
        assert r == q;
      }
    }
  }

  /** After a batch, a colour a key event of the batch stands for is held
      iff the last such event is a key-down; any other colour keeps its
      state. */
  lemma ApplyEventsInputs(p: Painel, es: seq<Event>, mapa: map<string, Cor>, c: Cor)
    requires Named(es, mapa)
    ensures var r := ApplyEvents(p, es, mapa).inputs;
      && (forall i ::
            (0 <= i < |es| && KeyNote(es[i]).Some? && mapa[KeyNote(es[i]).value.nome] == c
             && forall j :: i < j < |es| && KeyNote(es[j]).Some? ==> mapa[KeyNote(es[j]).value.nome] != c)
            ==> c in r && r[c] == es[i].KeyDown?)
      && ((forall i :: 0 <= i < |es| && KeyNote(es[i]).Some? ==> mapa[KeyNote(es[i]).value.nome] != c)
            ==> (c in r <==> c in p.inputs) && (c in r ==> r[c] == p.inputs[c]))
  {
    var r := ApplyEvents(p, es, mapa).inputs;
    forall i | 0 <= i < |es| && KeyNote(es[i]).Some? && mapa[KeyNote(es[i]).value.nome] == c
               && forall j :: i < j < |es| && KeyNote(es[j]).Some? ==> mapa[KeyNote(es[j]).value.nome] != c
      ensures c in r && r[c] == es[i].KeyDown?
    {
      ApplyEventsLastTouch(p, es, mapa, c, i);
    }
    if forall i :: 0 <= i < |es| && KeyNote(es[i]).Some? ==> mapa[KeyNote(es[i]).value.nome] != c {
      ApplyEventsUntouched(p, es, mapa, c);
    }
  }

  /** The notes no press of a colour in `cores` hits, in their order. */
  function Intactas(ns: seq<NotaTela>, cores: set<Cor>, adiantado: real, atrasado: real): (r: seq<NotaTela>)
    reads ns
    ensures |r| <= |ns|
    decreases |ns|
  {
    if ns == [] then []
    else
      var rest := Intactas(ns[..|ns| - 1], cores, adiantado, atrasado);
      var n := ns[|ns| - 1];
      if n.cor in cores && adiantado <= n.posicao <= atrasado then rest else rest + [n]
  }

  /** A single press is the set-wise filter for that one colour: the two
      filters are one concept. */
  lemma {:induction false} SobreviventesIsIntactas(ns: seq<NotaTela>, cor: Cor, adiantado: real, atrasado: real)
    ensures Sobreviventes(ns, cor, adiantado, atrasado) == Intactas(ns, {cor}, adiantado, atrasado)
    decreases |ns|
  {
    if ns != [] {
      SobreviventesIsIntactas(ns[..|ns| - 1], cor, adiantado, atrasado);
    }
  }

  /** A batch of presses removes exactly the notes one of its colours hits. */
  lemma {:induction false} IntactasMembers(ns: seq<NotaTela>, cores: set<Cor>, adiantado: real, atrasado: real)
    ensures forall n :: n in Intactas(ns, cores, adiantado, atrasado) <==>
      n in ns && !(n.cor in cores && adiantado <= n.posicao <= atrasado)
    decreases |ns|
  {
    if ns != [] {
      var init := ns[..|ns| - 1];
      IntactasMembers(init, cores, adiantado, atrasado);
      assert ns == init + [ns[|ns| - 1]];
    }
  }

  /** The notes a batch of presses leaves keep their order, and so the list
      stays free of repeats. */
  lemma {:induction false} IntactasOrdered(ns: seq<NotaTela>, cores: set<Cor>, adiantado: real, atrasado: real)
    ensures IsSubsequence(Intactas(ns, cores, adiantado, atrasado), ns)
    ensures Distinct(ns) ==> Distinct(Intactas(ns, cores, adiantado, atrasado))
    decreases |ns|
  {
    if ns != [] {
      var init := ns[..|ns| - 1];
      var n := ns[|ns| - 1];
      IntactasOrdered(init, cores, adiantado, atrasado);
      IntactasMembers(init, cores, adiantado, atrasado);
      var r := Intactas(ns, cores, adiantado, atrasado);
      var rest := Intactas(init, cores, adiantado, atrasado);
      if !(n.cor in cores && adiantado <= n.posicao <= atrasado) {
        assert r[..|r| - 1] == rest;
        if Distinct(ns) {
          assert n !in init;
        }
      }
    }
  }

  /** With no colour pressed every note stays. */
  lemma {:induction false} IntactasNoPress(ns: seq<NotaTela>, adiantado: real, atrasado: real)
    ensures Intactas(ns, {}, adiantado, atrasado) == ns
    decreases |ns|
  {
    if ns != [] {
      IntactasNoPress(ns[..|ns| - 1], adiantado, atrasado);
      assert ns == ns[..|ns| - 1] + [ns[|ns| - 1]];
    }
  }

  /** One more press of `cor` on top of the presses `cores` is the same as
      pressing all of them at once: presses do not move notes, so the order
      of the presses does not matter. */
  lemma {:induction false} IntactasOneMore(ns: seq<NotaTela>, cores: set<Cor>, cor: Cor, adiantado: real, atrasado: real)
    ensures Sobreviventes(Intactas(ns, cores, adiantado, atrasado), cor, adiantado, atrasado)
         == Intactas(ns, cores + {cor}, adiantado, atrasado)
    decreases |ns|
  {
    if ns != [] {
      var init := ns[..|ns| - 1];
      var n := ns[|ns| - 1];
      IntactasOneMore(init, cores, cor, adiantado, atrasado);
      var rest := Intactas(init, cores, adiantado, atrasado);
      if !(n.cor in cores && adiantado <= n.posicao <= atrasado) {
        assert (rest + [n])[..|rest + [n]| - 1] == rest;
      }
    }
  }

  /** `{k: False for k in ORDEM_CORDAS.keys()}` */
  function InitialInputs(ordem: set<Cor>): (r: map<Cor, bool>)
    ensures r.Keys == ordem
    ensures forall c :: c in r ==> !r[c]
  {
    map c | c in ordem :: false
  }

  // ---------------------------------------------------------------------
  // The game object
  // ---------------------------------------------------------------------

  class Jogo {
    /** The colours, the keys of `ORDEM_CORDAS`. */
    const ordemCordas: set<Cor>
    /** `MAPA_NOME_NOTAS`: note name -> colour. */
    const mapaNomeNotas: map<string, Cor>
    /** `tela.LIMITE_ADIANTADO` and `tela.LIMITE_ATRASADO`: the hit window. */
    const limiteAdiantado: real
    const limiteAtrasado: real
    /** How far a note moves per frame. */
    const passo: real
    var notas: seq<NotaTela>
    var inputs: map<Cor, bool>
    var running: bool
    var musicaTocando: bool

    ghost predicate Valid()
      reads this
    {
      Distinct(notas)
    }

    /** The part of `__init__` the bookkeeping needs: the loaded notes, no
        colour held, not running, no music playing. */
    constructor (ordemCordas: set<Cor>, mapaNomeNotas: map<string, Cor>,
                 limiteAdiantado: real, limiteAtrasado: real, passo: real, notas: seq<NotaTela>)
      requires Distinct(notas)
      ensures Valid()
      ensures this.ordemCordas == ordemCordas && this.mapaNomeNotas == mapaNomeNotas
      ensures this.limiteAdiantado == limiteAdiantado && this.limiteAtrasado == limiteAtrasado
      ensures this.passo == passo && this.notas == notas
      ensures inputs == InitialInputs(ordemCordas)
      ensures !running && !musicaTocando
    {
      this.ordemCordas := ordemCordas;
      this.mapaNomeNotas := mapaNomeNotas;
      this.limiteAdiantado := limiteAdiantado;
      this.limiteAtrasado := limiteAtrasado;
      this.passo := passo;
      this.notas := notas;
      inputs := InitialInputs(ordemCordas);
      running := false;
      musicaTocando := false;
    }

    /** `_callback_interface`: records whether the note's colour is held and,
        on a press, takes the notes of that colour inside the hit window off
        the screen. A name with no colour raises `KeyError`, which the
        handler does not catch, so callers must pass known names. */
    method CallbackInterface(nota: NotaProcessada)
      requires Valid()
      requires nota.nome in mapaNomeNotas
      modifies this`inputs, this`notas
      ensures Valid()
      ensures inputs == old(inputs)[mapaNomeNotas[nota.nome] := nota.on]
      ensures nota.on ==> notas == Sobreviventes(old(notas), mapaNomeNotas[nota.nome], limiteAdiantado, limiteAtrasado)
      ensures !nota.on ==> notas == old(notas)
    {
      var cor := mapaNomeNotas[nota.nome];
      inputs := inputs[cor := nota.on];
      var novaLista: seq<NotaTela> := [];
      for i := 0 to |notas|
        invariant nota.on ==> novaLista == Sobreviventes(notas[..i], cor, limiteAdiantado, limiteAtrasado)
        invariant !nota.on ==> novaLista == notas[..i]
      {
        var n := notas[i];
        assert notas[..i + 1] == notas[..i] + [n];
        assert notas[..i + 1][..i] == notas[..i];
        if cor == n.cor && limiteAdiantado <= n.posicao <= limiteAtrasado && nota.on {
        } else {
          novaLista := novaLista + [n];
        }
      }
      assert notas[..|notas|] == notas;
      SobreviventesOrdered(notas, cor, limiteAdiantado, limiteAtrasado);
      notas := novaLista;
    }

    /** The list part of `update`: every note advances by `passo`, and the
        ones now past the late limit leave the screen. */
    method Update()
      requires Valid()
      modifies this`notas, notas
      ensures Valid()
      ensures forall j :: 0 <= j < |old(notas)| ==> old(notas)[j].posicao == old(notas[j].posicao) + passo
      ensures notas == old(Restantes(notas, limiteAtrasado - passo))
    {
      RestantesOrdered(notas, limiteAtrasado - passo);
      var novaLista: seq<NotaTela> := [];
      for i := 0 to |notas|
        invariant notas == old(notas)
        invariant forall j :: 0 <= j < |notas| ==> notas[j].posicao == old(notas[j].posicao) + (if j < i then passo else 0.0)
        invariant novaLista == old(Restantes(notas[..i], limiteAtrasado - passo))
      {
        var n := notas[i];
        assert old(Restantes(notas[..i + 1], limiteAtrasado - passo))
            == old(Restantes(notas[..i], limiteAtrasado - passo))
               + (if old(n.posicao) > limiteAtrasado - passo then [] else [n]) by {
          assert notas[..i + 1][..i] == notas[..i];
        }
        n.posicao := n.posicao + passo;
        forall j | 0 <= j < |notas|
          ensures notas[j].posicao == old(notas[j].posicao) + (if j < i + 1 then passo else 0.0)
        {
          if j != i {
            assert notas[j] != n;
          }
        }
        if n.posicao <= limiteAtrasado {
          novaLista := novaLista + [n];
        }
      }
      assert notas[..|notas|] == notas;
      notas := novaLista;
    }

    /** `checa_eventos`: once the music has stopped after playing, the game
        stops and looks at no event; otherwise a quit event stops the game
        and each key event on a, s, d, f, g becomes a note for
        `_callback_interface`, in event order. */
    method ChecaEventos(musicBusy: bool, events: seq<Event>)
      requires Valid()
      requires Named(events, mapaNomeNotas)
      modifies this`inputs, this`notas, this`running
      ensures Valid()
      ensures !musicBusy && musicaTocando ==>
        !running && inputs == old(inputs) && notas == old(notas)
      ensures !(!musicBusy && musicaTocando) ==>
        var p := ApplyEvents(Painel(old(running), old(inputs), {}), events, mapaNomeNotas);
        && running == p.running && inputs == p.inputs
        && notas == Intactas(old(notas), p.pressed, limiteAdiantado, limiteAtrasado)
    {
      if !musicBusy && musicaTocando {
        running := false;
        return;
      }
      ghost var p0 := Painel(running, inputs, {});
      IntactasNoPress(notas, limiteAdiantado, limiteAtrasado);
      for i := 0 to |events|
        invariant Valid()
        invariant Named(events[..i], mapaNomeNotas)
        invariant running == ApplyEvents(p0, events[..i], mapaNomeNotas).running
        invariant inputs == ApplyEvents(p0, events[..i], mapaNomeNotas).inputs
        invariant notas == Intactas(old(notas), ApplyEvents(p0, events[..i], mapaNomeNotas).pressed,
                                    limiteAdiantado, limiteAtrasado)
      {
        ghost var p := ApplyEvents(p0, events[..i], mapaNomeNotas);
        assert events[..i + 1][..i] == events[..i];
        HandleEvent(events[i], old(notas), p);
      }
      assert events[..|events|] == events;
    }

    /** One pass of `checa_eventos`' loop: a quit event stops the game, and
        a key event on a, s, d, f or g goes to `_callback_interface` as the
        note it stands for. */
    method HandleEvent(e: Event, ghost notas0: seq<NotaTela>, ghost p: Painel)
      requires Valid()
      requires KeyNote(e).Some? ==> KeyNote(e).value.nome in mapaNomeNotas
      requires running == p.running && inputs == p.inputs
      requires notas == Intactas(notas0, p.pressed, limiteAdiantado, limiteAtrasado)
      modifies this`inputs, this`notas, this`running
      ensures Valid()
      ensures running == ApplyEvent(p, e, mapaNomeNotas).running
      ensures inputs == ApplyEvent(p, e, mapaNomeNotas).inputs
      ensures notas == Intactas(notas0, ApplyEvent(p, e, mapaNomeNotas).pressed, limiteAdiantado, limiteAtrasado)
    {
      if e.Quit? {
        running := false;
      }
      var nota := KeyNote(e);
      if nota.Some? {
        if nota.value.on {
          IntactasOneMore(notas0, p.pressed, mapaNomeNotas[nota.value.nome], limiteAdiantado, limiteAtrasado);
        }
        CallbackInterface(nota.value);
      }
    }
  }
}
