/**
 * The rules of one round of musical chairs, as pure values: how many seats a
 * round offers and how the order in which players claim resolves into the
 * seated list and the eliminated list.
 */
module Regras {

  /** Seats taken away at every round (CADEIRAS_RETIRADAS_TURNO). */
  const CadeirasRetiradasTurno: int := 1

  /** Number of players the program is built for (NUM_JOGADORES). */
  const NumJogadores: int := 4

  /** No value occurs twice in `s`. */
  predicate Distintos<T(==)>(s: seq<T>) {
    forall i, j :: 0 <= i < j < |s| ==> s[i] != s[j]
  }

  /** What a round leaves behind: who sat down (in claim order) and who was eliminated. */
  datatype Desfecho = Desfecho(sentados: seq<int>, eliminados: seq<int>)

  /**
   * Reference definition of a round: the players in `ordem` claim one after the
   * other; a claim takes a seat while one of the `cadeiras` seats is left and is
   * eliminated otherwise. The two lists together are as long as the claim order;
   * `DisputaPermutacao` shows they hold exactly its claimants.
   */
  function Disputa(cadeiras: int, ordem: seq<int>): (r: Desfecho)
    ensures |r.sentados| + |r.eliminados| == |ordem|
    decreases |ordem|
  {
    if ordem == [] then Desfecho([], [])
    else
      if cadeiras > 0 then
        var resto := Disputa(cadeiras - 1, ordem[1..]);
        Desfecho([ordem[0]] + resto.sentados, resto.eliminados)
      else
        var resto := Disputa(cadeiras, ordem[1..]);
        Desfecho(resto.sentados, [ordem[0]] + resto.eliminados)
  }

  /** With no more seats than claimants, the first `cadeiras` claimants sit and the rest are eliminated. */
  lemma {:induction false} DisputaComCadeiras(cadeiras: int, ordem: seq<int>)
    requires 0 <= cadeiras <= |ordem|
    ensures Disputa(cadeiras, ordem) == Desfecho(ordem[..cadeiras], ordem[cadeiras..])
    decreases |ordem|
  {
    if ordem != [] {
      if cadeiras > 0 {
        DisputaComCadeiras(cadeiras - 1, ordem[1..]);
        assert ordem[..cadeiras] == [ordem[0]] + ordem[1..][..cadeiras - 1];
        assert ordem[cadeiras..] == ordem[1..][cadeiras - 1..];
      } else {
        DisputaComCadeiras(0, ordem[1..]);
        assert ordem == [ordem[0]] + ordem[1..];
      }
    }
  }

  /**
   * A round that starts with one seat fewer than claimants seats everybody but
   * the last claimant and eliminates exactly that one.
   */
  lemma UmaEliminacaoPorRodada(ordem: seq<int>)
    requires |ordem| >= CadeirasRetiradasTurno
    ensures Disputa(|ordem| - CadeirasRetiradasTurno, ordem).sentados == ordem[..|ordem| - 1]
    ensures Disputa(|ordem| - CadeirasRetiradasTurno, ordem).eliminados == [ordem[|ordem| - 1]]
    ensures |Disputa(|ordem| - CadeirasRetiradasTurno, ordem).eliminados| == CadeirasRetiradasTurno
  {
    DisputaComCadeiras(|ordem| - CadeirasRetiradasTurno, ordem);
  }

  /**
   * Whatever the claim order and the number of seats, the seated and the
   * eliminated lists together hold exactly the claimants, each as often as it claimed.
   */
  lemma {:induction false} DisputaPermutacao(cadeiras: int, ordem: seq<int>)
    ensures multiset(Disputa(cadeiras, ordem).sentados) + multiset(Disputa(cadeiras, ordem).eliminados) == multiset(ordem)
    decreases |ordem|
  {
    if ordem != [] {
      DisputaPermutacao(if cadeiras > 0 then cadeiras - 1 else cadeiras, ordem[1..]);
      assert ordem == [ordem[0]] + ordem[1..];
    }
  }

  /**
   * When the claimants are distinct, every claimant lands in exactly one of the
   * two lists, whatever the number of seats.
   */
  lemma {:induction false} DesfechoParticiona(cadeiras: int, ordem: seq<int>)
    requires Distintos(ordem)
    ensures forall x :: x in ordem <==> x in Disputa(cadeiras, ordem).sentados || x in Disputa(cadeiras, ordem).eliminados
    ensures forall x :: !(x in Disputa(cadeiras, ordem).sentados && x in Disputa(cadeiras, ordem).eliminados)
    decreases |ordem|
  {
    if ordem != [] {
      var resto := ordem[1..];
      assert Distintos(resto) by {
        forall i, j | 0 <= i < j < |resto| ensures resto[i] != resto[j] {
          assert resto[i] == ordem[i + 1] && resto[j] == ordem[j + 1];
        }
      }
      assert ordem[0] !in resto by {
        forall k | 0 <= k < |resto| ensures resto[k] != ordem[0] {
          assert resto[k] == ordem[k + 1];
        }
      }
      var c := if cadeiras > 0 then cadeiras - 1 else cadeiras;
      DesfechoParticiona(c, resto);
      assert ordem == [ordem[0]] + resto;
    }
  }
}
