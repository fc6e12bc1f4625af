/**
 * The process-wide synchronisation state of the game: the counting semaphore
 * that stands for the seats, and the global flags and winner variable.
 * Blocking and waking are not modelled: a thread that would block in `Acquire`
 * is modelled as a caller that must first establish that a permit exists.
 */
module Sincronizacao {

  /** A std::counting_semaphore: a permit counter with a declared maximum. */
  class Semaforo {
    var contador: int
    /** The template argument, i.e. the largest count the semaphore promises to hold. */
    const maximo: int
    /**
     * Becomes true once a release has asked for more than `maximo - contador`
     * permits. Where `max()` returns the template argument, as standard
     * libraries usually do, such a release breaks `release`'s precondition.
     */
    var capacidadeExcedida: bool

    constructor (inicial: int, maximo: int)
      requires 0 <= inicial <= maximo
      ensures contador == inicial && this.maximo == maximo && !capacidadeExcedida
    {
      contador := inicial;
      this.maximo := maximo;
      capacidadeExcedida := false;
    }

    /** Takes one permit; the caller would block while none is left. */
    method Acquire()
      requires contador > 0
      modifies this`contador
      ensures contador == old(contador) - 1
    {
      contador := contador - 1;
    }

    /** Adds `k` permits at once, recording whether this overflows the declared maximum. */
    method Release(k: int)
      requires k >= 0
      modifies this`contador, this`capacidadeExcedida
      ensures contador == old(contador) + k
      ensures capacidadeExcedida == (old(capacidadeExcedida) || old(contador) + k > maximo)
    {
      capacidadeExcedida := capacidadeExcedida || contador + k > maximo;
      contador := contador + k;
    }
  }

  /**
   * The global variables of the program: the winner (-1 until there is one),
   * the music flag (true while the music plays, false once it stops), the
   * game-active flag and the seat semaphore.
   */
  class Globais {
    var vencedor: int
    var musicaParada: bool
    var jogoAtivo: bool
    const cadeiraSem: Semaforo

    constructor (cadeiraSem: Semaforo)
      ensures vencedor == -1 && musicaParada && jogoAtivo && this.cadeiraSem == cadeiraSem
    {
      vencedor := -1;
      musicaParada := true;
      jogoAtivo := true;
      this.cadeiraSem := cadeiraSem;
    }
  }
}
