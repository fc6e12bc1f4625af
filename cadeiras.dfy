/**
 * The game of musical chairs without its threads: the shared game object, the
 * players' claim, the coordinator's round loop and the start-up of a game.
 * A round's claims, which the original makes from concurrent player threads,
 * happen here one at a time in an order the model leaves open.
 */
module Cadeiras {
  import opened Regras
  import opened Sincronizacao

  /** The per-round bookkeeping shared by the coordinator and the players. */
  class JogoDasCadeiras {
    var jogadoresComCadeiras: seq<int>
    var jogadoresEliminados: seq<int>
    var numJogadores: int
    var cadeiras: int
    const globais: Globais
    /** Number of active players when the current round began. */
    ghost var jogadoresNaRodada: int

    /** The bookkeeping of a round in progress: seats left and players left both follow from the claims so far. */
    ghost predicate EmRodada()
      reads this
    {
      && cadeiras == jogadoresNaRodada - CadeirasRetiradasTurno - |jogadoresComCadeiras|
      && numJogadores == jogadoresNaRodada - |jogadoresEliminados|
    }

    constructor (numJogadores: int, globais: Globais)
      ensures this.numJogadores == numJogadores && this.globais == globais
      ensures jogadoresComCadeiras == [] && jogadoresEliminados == []
    {
      this.numJogadores := numJogadores;
      this.globais := globais;
      jogadoresComCadeiras := [];
      jogadoresEliminados := [];
      cadeiras := *;
      jogadoresNaRodada := numJogadores;
    }

    /** Opens a round with one seat fewer than active players and hands those seats to the semaphore. */
    method IniciarRodada()
      requires numJogadores >= CadeirasRetiradasTurno
      modifies this, globais`musicaParada, globais.cadeiraSem
      ensures cadeiras == numJogadores - CadeirasRetiradasTurno
      ensures jogadoresComCadeiras == [] && jogadoresEliminados == []
      ensures numJogadores == old(numJogadores)
      ensures jogadoresNaRodada == numJogadores && EmRodada()
      ensures globais.cadeiraSem.contador == old(globais.cadeiraSem.contador) + cadeiras
      ensures globais.cadeiraSem.capacidadeExcedida ==
                (old(globais.cadeiraSem.capacidadeExcedida) || old(globais.cadeiraSem.contador) + cadeiras > globais.cadeiraSem.maximo)
      ensures globais.musicaParada
    {
      cadeiras := numJogadores - CadeirasRetiradasTurno;
      jogadoresComCadeiras := [];
      jogadoresEliminados := [];
      jogadoresNaRodada := numJogadores;
      globais.cadeiraSem.Release(cadeiras);
      globais.musicaParada := true;
    }

    /** Stops the music: clears the flag the players wait on. */
    method PararMusica()
      modifies globais`musicaParada
      ensures !globais.musicaParada
    {
      globais.musicaParada := false;
    }

    /** Records `jogadorId` as eliminated and removes one active player. */
    method EliminarJogador(jogadorId: int)
      modifies this`jogadoresEliminados, this`numJogadores
      ensures jogadoresEliminados == old(jogadoresEliminados) + [jogadorId]
      ensures numJogadores == old(numJogadores) - 1
      ensures old(EmRodada()) ==> EmRodada()
    {
      jogadoresEliminados := jogadoresEliminados + [jogadorId];
      numJogadores := numJogadores - 1;
    }

    /** Ends the game, naming the first seated player the winner, once at most one player sat down. */
    method VerificarFimJogo()
      requires jogadoresComCadeiras != []
      modifies globais`jogoAtivo, globais`vencedor
      ensures |jogadoresComCadeiras| <= 1 ==> !globais.jogoAtivo && globais.vencedor == jogadoresComCadeiras[0]
      ensures |jogadoresComCadeiras| > 1 ==>
                globais.jogoAtivo == old(globais.jogoAtivo) && globais.vencedor == old(globais.vencedor)
    {
      if |jogadoresComCadeiras| <= 1 {
        globais.jogoAtivo := false;
        globais.vencedor := jogadoresComCadeiras[0];
      }
    }

    /** Seats `jogadorId`: one seat fewer, one more name at the end of the seated list. */
    method OcuparCadeira(jogadorId: int)
      modifies this`cadeiras, this`jogadoresComCadeiras
      ensures cadeiras == old(cadeiras) - 1
      ensures jogadoresComCadeiras == old(jogadoresComCadeiras) + [jogadorId]
      ensures old(EmRodada()) ==> EmRodada()
    {
      cadeiras := cadeiras - 1;
      jogadoresComCadeiras := jogadoresComCadeiras + [jogadorId];
    }

    /** Whether a seat is still free: during a round, exactly when fewer players sat down than the round offered seats. */
    function TemCadeiraDisponivel(): (r: bool)
      reads this
      ensures r <==> cadeiras > 0
      ensures EmRodada() ==> (r <==> |jogadoresComCadeiras| < jogadoresNaRodada - CadeirasRetiradasTurno)
    {
      cadeiras > 0
    }

    /** False exactly once the round's eliminations are all recorded, i.e. the active count has dropped by the seats removed. */
    function JogadoresNaoForamEliminados(): (r: bool)
      reads this
      ensures r <==> |jogadoresEliminados| != CadeirasRetiradasTurno
      ensures EmRodada() ==> (r <==> numJogadores != jogadoresNaRodada - CadeirasRetiradasTurno)
    {
      |jogadoresEliminados| != CadeirasRetiradasTurno
    }
  }

  /** One participant. */
  class Jogador {
    const id: int
    const jogo: JogoDasCadeiras
    var eliminado: bool

    constructor (id: int, jogo: JogoDasCadeiras)
      ensures this.id == id && this.jogo == jogo && !eliminado
    {
      this.id := id;
      this.jogo := jogo;
      eliminado := false;
    }

    /** Passes the seat semaphore (the wait for a permit is the precondition). */
    method TentarOcuparCadeira()
      requires jogo.globais.cadeiraSem.contador > 0
      modifies jogo.globais.cadeiraSem`contador
      ensures jogo.globais.cadeiraSem.contador == old(jogo.globais.cadeiraSem.contador) - 1
    {
      jogo.globais.cadeiraSem.Acquire();
    }

    /** Takes a seat if one is left, and otherwise records this player as eliminated. */
    method VerificarEliminacao()
      modifies this`eliminado, jogo`cadeiras, jogo`jogadoresComCadeiras, jogo`jogadoresEliminados, jogo`numJogadores
      ensures old(jogo.cadeiras) > 0 ==>
                && jogo.jogadoresComCadeiras == old(jogo.jogadoresComCadeiras) + [id]
                && jogo.cadeiras == old(jogo.cadeiras) - 1
                && jogo.jogadoresEliminados == old(jogo.jogadoresEliminados)
                && jogo.numJogadores == old(jogo.numJogadores)
                && eliminado == old(eliminado)
      ensures old(jogo.cadeiras) <= 0 ==>
                && jogo.jogadoresEliminados == old(jogo.jogadoresEliminados) + [id]
                && jogo.numJogadores == old(jogo.numJogadores) - 1
                && jogo.jogadoresComCadeiras == old(jogo.jogadoresComCadeiras)
                && jogo.cadeiras == old(jogo.cadeiras)
                && eliminado
      ensures old(jogo.EmRodada()) ==> jogo.EmRodada()
    {
      if jogo.TemCadeiraDisponivel() {
        jogo.OcuparCadeira(id);
      } else {
        jogo.EliminarJogador(id);
        eliminado := true;
      }
    }
  }

  /**
   * The ids of a list of players, in the same order. The ensures only spells out
   * the comprehension elementwise, as a proof aid for the lemmas below.
   */
  function Ids(ps: seq<Jogador>): (r: seq<int>)
    ensures |r| == |ps| && forall i :: 0 <= i < |ps| ==> r[i] == ps[i].id
  {
    seq(|ps|, i requires 0 <= i < |ps| => ps[i].id)
  }

  /** `ordem` lists exactly the players of `ativos`, each once, in some order. */
  predicate Reordenacao(ordem: seq<Jogador>, ativos: seq<Jogador>) {
    && |ordem| == |ativos|
    && (forall i :: 0 <= i < |ordem| ==> ordem[i] in ativos)
    && (forall i :: 0 <= i < |ativos| ==> ativos[i] in ordem)
    && Distintos(Ids(ordem))
  }

  /** Players with distinct ids are distinct players. */
  lemma IdsDistinguem(ps: seq<Jogador>)
    requires Distintos(Ids(ps))
    ensures Distintos(ps)
  {
  }

  /** The game driver. */
  class Coordenador {
    const jogo: JogoDasCadeiras

    constructor (jogo: JogoDasCadeiras)
      ensures this.jogo == jogo
    {
      this.jogo := jogo;
    }

    /** Releases as many permits as players are eliminated per round, to let the seatless claimant through. */
    method LiberarThreadsEliminadas()
      modifies jogo.globais.cadeiraSem
      ensures jogo.globais.cadeiraSem.contador == old(jogo.globais.cadeiraSem.contador) + CadeirasRetiradasTurno
      ensures jogo.globais.cadeiraSem.capacidadeExcedida ==
                (old(jogo.globais.cadeiraSem.capacidadeExcedida)
                 || old(jogo.globais.cadeiraSem.contador) + CadeirasRetiradasTurno > jogo.globais.cadeiraSem.maximo)
    {
      jogo.globais.cadeiraSem.Release(CadeirasRetiradasTurno);
    }

    /**
     * One pass of the round loop, with the active players claiming in the order
     * `ordem`. The coordinator's wait for the seats to run out lets the next
     * claimant go while a seat is free; its wait for the elimination does the
     * same while no elimination is recorded.
     */
    method JogarRodada(ordem: seq<Jogador>)
      requires |ordem| == jogo.numJogadores >= 2
      requires Distintos(Ids(ordem))
      requires forall p :: p in ordem ==> p.jogo == jogo && !p.eliminado
      requires jogo.globais.cadeiraSem.contador >= 0
      modifies jogo, jogo.globais`musicaParada, jogo.globais`jogoAtivo, jogo.globais`vencedor, jogo.globais.cadeiraSem, ordem
      ensures jogo.jogadoresComCadeiras == Disputa(|ordem| - CadeirasRetiradasTurno, Ids(ordem)).sentados
      ensures jogo.jogadoresEliminados == Disputa(|ordem| - CadeirasRetiradasTurno, Ids(ordem)).eliminados
      ensures jogo.jogadoresComCadeiras == Ids(ordem[..|ordem| - 1])
      ensures jogo.jogadoresEliminados == [ordem[|ordem| - 1].id]
      ensures jogo.cadeiras == 0 && jogo.numJogadores == |ordem| - 1
      ensures forall i :: 0 <= i < |ordem| ==> ordem[i].eliminado == (i == |ordem| - 1)
      ensures jogo.globais.cadeiraSem.contador == old(jogo.globais.cadeiraSem.contador)
      ensures jogo.globais.cadeiraSem.capacidadeExcedida ==
                (old(jogo.globais.cadeiraSem.capacidadeExcedida)
                 || old(jogo.globais.cadeiraSem.contador) + |ordem| - CadeirasRetiradasTurno > jogo.globais.cadeiraSem.maximo)
      ensures !jogo.globais.musicaParada
      ensures |ordem| == 2 ==> !jogo.globais.jogoAtivo && jogo.globais.vencedor == ordem[0].id
      ensures |ordem| > 2 ==>
                jogo.globais.jogoAtivo == old(jogo.globais.jogoAtivo) && jogo.globais.vencedor == old(jogo.globais.vencedor)
    {
      IdsDistinguem(ordem);
      jogo.IniciarRodada();
      jogo.PararMusica();
      var sentados := EsperarCadeirasOcupadas(ordem);
      LiberarThreadsEliminadas();
      EsperarEliminacoes(ordem);
      UmaEliminacaoPorRodada(Ids(ordem));
      assert Ids(ordem)[..|ordem| - 1] == Ids(ordem[..|ordem| - 1]);
      jogo.VerificarFimJogo();
    }

    /**
     * The wait for the seats to run out (the coordinator spins while a seat is
     * free); meanwhile the claimants of `ordem` pass the semaphore and sit down
     * one after the other, until all the round's seats are taken.
     */
    method EsperarCadeirasOcupadas(ordem: seq<Jogador>) returns (sentados: nat)
      requires |ordem| == jogo.jogadoresNaRodada >= CadeirasRetiradasTurno && jogo.EmRodada()
      requires jogo.jogadoresComCadeiras == [] && jogo.jogadoresEliminados == []
      requires jogo.globais.cadeiraSem.contador >= jogo.cadeiras
      requires Distintos(ordem)
      requires forall p :: p in ordem ==> p.jogo == jogo && !p.eliminado
      modifies jogo`cadeiras, jogo`jogadoresComCadeiras, jogo`jogadoresEliminados, jogo`numJogadores
      modifies jogo.globais.cadeiraSem`contador, ordem
      ensures sentados == |ordem| - CadeirasRetiradasTurno
      ensures jogo.EmRodada() && jogo.cadeiras == 0
      ensures jogo.jogadoresComCadeiras == Ids(ordem[..sentados]) && jogo.jogadoresEliminados == []
      ensures jogo.globais.cadeiraSem.contador == old(jogo.globais.cadeiraSem.contador) - sentados
      ensures forall p :: p in ordem ==> !p.eliminado
    {
      var k := |ordem|;
      var sem := jogo.globais.cadeiraSem;
      sentados := 0;
      while jogo.TemCadeiraDisponivel()
        invariant 0 <= sentados <= k - CadeirasRetiradasTurno
        invariant jogo.EmRodada()
        invariant jogo.jogadoresComCadeiras == Ids(ordem[..sentados]) && jogo.jogadoresEliminados == []
        invariant sem.contador == old(sem.contador) - sentados
        invariant forall p :: p in ordem ==> !p.eliminado
        decreases k - sentados
      {
        ordem[sentados].TentarOcuparCadeira();
        ordem[sentados].VerificarEliminacao();
        assert ordem[..sentados + 1] == ordem[..sentados] + [ordem[sentados]];
        sentados := sentados + 1;
      }
    }

    /**
     * The wait for the round's elimination (the coordinator spins until it is
     * recorded); meanwhile the last claimant passes the semaphore on the permit
     * just released, finds no seat and is eliminated.
     */
    method EsperarEliminacoes(ordem: seq<Jogador>)
      requires |ordem| == jogo.jogadoresNaRodada >= CadeirasRetiradasTurno && jogo.EmRodada()
      requires jogo.jogadoresEliminados == [] && jogo.cadeiras == 0
      requires jogo.globais.cadeiraSem.contador >= CadeirasRetiradasTurno
      requires ordem[|ordem| - 1].jogo == jogo && !ordem[|ordem| - 1].eliminado
      modifies jogo`cadeiras, jogo`jogadoresComCadeiras, jogo`jogadoresEliminados, jogo`numJogadores
      modifies jogo.globais.cadeiraSem`contador, ordem[|ordem| - 1]
      ensures jogo.EmRodada() && jogo.cadeiras == 0
      ensures jogo.jogadoresComCadeiras == old(jogo.jogadoresComCadeiras)
      ensures jogo.jogadoresEliminados == [ordem[|ordem| - 1].id]
      ensures jogo.globais.cadeiraSem.contador == old(jogo.globais.cadeiraSem.contador) - CadeirasRetiradasTurno
      ensures ordem[|ordem| - 1].eliminado
    {
      var ultimo := ordem[|ordem| - 1];
      var sem := jogo.globais.cadeiraSem;
      var reivindicou := false;
      while jogo.JogadoresNaoForamEliminados()
        invariant jogo.EmRodada() && jogo.cadeiras == 0
        invariant jogo.jogadoresComCadeiras == old(jogo.jogadoresComCadeiras)
        invariant !reivindicou ==> jogo.jogadoresEliminados == [] && !ultimo.eliminado && sem.contador == old(sem.contador)
        invariant reivindicou ==> jogo.jogadoresEliminados == [ultimo.id] && ultimo.eliminado
                                  && sem.contador == old(sem.contador) - CadeirasRetiradasTurno
        decreases !reivindicou
      {
        ultimo.TentarOcuparCadeira();
        ultimo.VerificarEliminacao();
        reivindicou := true;
      }
    }

    /**
     * The coordinator's loop: rounds follow each other while the game is active,
     * each with the active players claiming in an order the model leaves open.
     * From N players the game ends after N - 1 rounds with exactly one player
     * left, who is the winner and the one seated in the last round.
     */
    method IniciarJogo(jogadores: seq<Jogador>) returns (ghost rodadas: nat)
      requires |jogadores| >= 2
      requires jogo.numJogadores == |jogadores|
      requires Distintos(Ids(jogadores))
      requires forall p :: p in jogadores ==> p.jogo == jogo && !p.eliminado
      requires jogo.globais.jogoAtivo
      requires jogo.globais.cadeiraSem.contador >= 0
      modifies jogo, jogo.globais`musicaParada, jogo.globais`jogoAtivo, jogo.globais`vencedor, jogo.globais.cadeiraSem, jogadores
      ensures rodadas == |jogadores| - 1
      ensures !jogo.globais.jogoAtivo
      ensures exists i :: 0 <= i < |jogadores| && jogadores[i].id == jogo.globais.vencedor
      ensures forall p :: p in jogadores ==> (p.eliminado <==> p.id != jogo.globais.vencedor)
      ensures jogo.jogadoresComCadeiras == [jogo.globais.vencedor] && jogo.numJogadores == 1
      ensures jogo.globais.cadeiraSem.contador == old(jogo.globais.cadeiraSem.contador)
      ensures jogo.globais.cadeiraSem.capacidadeExcedida ==
                (old(jogo.globais.cadeiraSem.capacidadeExcedida)
                 || old(jogo.globais.cadeiraSem.contador) + |jogadores| - CadeirasRetiradasTurno > jogo.globais.cadeiraSem.maximo)
    {
      IdsDistinguem(jogadores);
      var sem := jogo.globais.cadeiraSem;
      var ativos := jogadores;
      rodadas := 0;
      while jogo.globais.jogoAtivo
        invariant 1 <= |ativos| <= |jogadores|
        invariant rodadas == |jogadores| - |ativos|
        invariant forall p :: p in ativos ==> p in jogadores
        invariant Distintos(Ids(ativos))
        invariant forall p :: p in jogadores ==> (p.eliminado <==> p !in ativos)
        invariant jogo.numJogadores == |ativos|
        invariant jogo.globais.jogoAtivo ==> |ativos| >= 2
        invariant !jogo.globais.jogoAtivo ==>
                    |ativos| == 1 && jogo.jogadoresComCadeiras == [ativos[0].id] && jogo.globais.vencedor == ativos[0].id
        invariant sem.contador == old(sem.contador)
        invariant sem.capacidadeExcedida ==
                    (old(sem.capacidadeExcedida) || (rodadas > 0 && old(sem.contador) + |jogadores| - 1 > sem.maximo))
        decreases |ativos|
      {
        assert Reordenacao(ativos, ativos);
        var ordem: seq<Jogador> :| Reordenacao(ordem, ativos);
        assert Reordenacao(ordem, ativos);
        IdsDistinguem(ordem);
        JogarRodada(ordem);
        AtivosAposRodada(jogadores, ordem);
        ativos := ordem[..|ordem| - 1];
        rodadas := rodadas + 1;
      }
      IdsIdentificam(jogadores, ativos[0]);
    }
  }

  /**
   * After a round in which `ordem` claimed, the players still in the game are
   * exactly those seated: every claimant but the last.
   */
  lemma AtivosAposRodada(jogadores: seq<Jogador>, ordem: seq<Jogador>)
    requires |ordem| >= 1 && Distintos(ordem)
    requires forall p :: p in jogadores && p !in ordem ==> p.eliminado
    requires forall i :: 0 <= i < |ordem| ==> ordem[i].eliminado == (i == |ordem| - 1)
    ensures forall p :: p in jogadores ==> (p.eliminado <==> p !in ordem[..|ordem| - 1])
  {
  }

  /** Among players with distinct ids, the player `w` is the only one with its id. */
  lemma IdsIdentificam(jogadores: seq<Jogador>, w: Jogador)
    requires Distintos(Ids(jogadores)) && w in jogadores
    ensures forall p :: p in jogadores ==> (p == w <==> p.id == w.id)
    ensures exists i :: 0 <= i < |jogadores| && jogadores[i].id == w.id
  {
  }

  /**
   * The start-up of a game without its threads: the semaphore with the given
   * initial permits and a declared maximum of `n`, the shared game for `n`
   * players, players numbered 1 to `n` and the coordinator, which then plays
   * the game to its end.
   */
  method ExecutarPartida(n: int, permissoesIniciais: int) returns (vencedor: int, capacidadeExcedida: bool)
    requires n >= 2
    requires 0 <= permissoesIniciais <= n
    ensures 1 <= vencedor <= n
    ensures capacidadeExcedida <==> permissoesIniciais + n - CadeirasRetiradasTurno > n
  {
    var sem := new Semaforo(permissoesIniciais, n);
    var globais := new Globais(sem);
    var jogo := new JogoDasCadeiras(n, globais);
    var coordenador := new Coordenador(jogo);
    var jogadores: seq<Jogador> := [];
    for i := 1 to n + 1
      invariant |jogadores| == i - 1
      invariant forall j :: 0 <= j < |jogadores| ==>
                  jogadores[j].id == j + 1 && jogadores[j].jogo == jogo && !jogadores[j].eliminado && fresh(jogadores[j])
      invariant jogo.numJogadores == n && globais.jogoAtivo && globais.vencedor == -1
      invariant sem.contador == permissoesIniciais && sem.maximo == n && !sem.capacidadeExcedida
    {
      var p := new Jogador(i, jogo);
      jogadores := jogadores + [p];
    }
    ghost var rodadas := coordenador.IniciarJogo(jogadores);
    vencedor := globais.vencedor;
    capacidadeExcedida := sem.capacidadeExcedida;
  }

  /** Permits the semaphore starts with in the program as written: one per seat of the first round. */
  const PermissoesIniciaisOriginais: int := NumJogadores - 1

  /** Permits the semaphore should start with, so that each round's release alone sets the seat count. */
  const PermissoesIniciais: int := 0

  /** The program as written: four players and a semaphore that starts with three permits overflows its declared maximum. */
  method PartidaComoEscrita() returns (vencedor: int, capacidadeExcedida: bool)
    ensures 1 <= vencedor <= NumJogadores
    ensures capacidadeExcedida
  {
    vencedor, capacidadeExcedida := ExecutarPartida(NumJogadores, PermissoesIniciaisOriginais);
  }

  /** The program with the semaphore starting empty: the count never exceeds its declared maximum. */
  method Partida() returns (vencedor: int, capacidadeExcedida: bool)
    ensures 1 <= vencedor <= NumJogadores
    ensures !capacidadeExcedida
  {
    vencedor, capacidadeExcedida := ExecutarPartida(NumJogadores, PermissoesIniciais);
  }
}
