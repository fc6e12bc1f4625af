# Musical chairs — a Dafny model of the game bookkeeping

This project models the musical-chairs game in `C++/src/main.cpp`. In that program, player threads race for a
shrinking number of seats. A coordinator thread opens each round, stops the music, waits until every seat is
taken, lets the seatless player through, and decides whether the game is over.

The model keeps the program's objects and the way they change state:

- `JogoDasCadeiras` is a class. It has the seat counter, the active-player count, and the seated and eliminated
  lists. Its methods reassign these fields the way the C++ methods do.
- `Jogador` is a class with its `eliminado` flag.
- `Coordenador` drives the rounds.
- `Semaforo` stands for the `std::counting_semaphore`. It keeps a permit count, its declared maximum, and a flag
  that records any release pushing the count past that maximum.
- `Globais` holds the global variables: the winner, the music flag, the game-active flag and the semaphore.

The model has no threads. In a round the active players claim one at a time, in an order the model leaves open
(a nondeterministic choice among all orderings). The coordinator's two busy waits become loops. While the
coordinator waits for the seats to run out, the next claimant passes the semaphore and runs
`verificar_eliminacao`. While it waits for the elimination, the last claimant does the same on the permit just
released. A claim is atomic, which is what the program intends. Blocking in `acquire()` becomes a precondition
that a permit exists, and the model proves that this precondition always holds.

`Regras` gives an independent reference definition of a round, `Disputa`. Claimants take seats in order while
seats are left, and every later claimant is eliminated. The round method is proved to produce exactly
`Disputa`'s result. The lemmas about `Disputa` prove the round's promises:
- with one seat fewer than claimants, everyone but the last claimant sits and exactly one is eliminated;
- every claimant ends in exactly one list.

The game loop is proved to end after exactly N − 1 rounds. Its winner is the one player seated in the last
round. That player is the only one never eliminated.

The model follows the code where it departs from the game's stated intent:

- The permit count is not kept within `[0, N - 1]`: the semaphore starts with N − 1 permits before the first
  round adds N − 1 more (see Findings).
- With a single player, the first round seats nobody, and `verificar_fim_jogo` would read the first element of
  an empty vector. So the game loop requires at least two players; the program itself always runs with four.
- The music flag `musica_parada` is true while the music plays and false once it stops, as in the code.

## Model

| member | source | states |
|---|---|---|
| `Regras.Disputa` | C++/src/main.cpp:140-148 | resolving a claim order against a number of seats leaves a seated and an eliminated list whose lengths add up to the number of claimants (membership: `Regras.DisputaPermutacao`, `Regras.DesfechoParticiona`) |
| `Regras.DisputaPermutacao` | C++/src/main.cpp:140-148 | for every claim order and number of seats, the seated and eliminated lists together are a permutation of the claimants: nobody is lost, added or duplicated |
| `Regras.DisputaComCadeiras` | C++/src/main.cpp:140-148 | with 0 ≤ seats ≤ claimants, the first `seats` claimants are seated in claim order and all later ones are eliminated |
| `Regras.UmaEliminacaoPorRodada` | C++/src/main.cpp:61-65 | a round opened with one seat fewer than claimants seats all but the last claimant and eliminates exactly `CADEIRAS_RETIRADAS_TURNO` = 1 player, the last one |
| `Regras.DesfechoParticiona` | C++/src/main.cpp:140-148 | for distinct claimants, a player claimed iff they are seated or eliminated, and nobody is both |
| `Sincronizacao.Semaforo.constructor` | C++/src/main.cpp:25 | the semaphore starts with the given permits (0 ≤ initial ≤ maximum) and no overflow recorded |
| `Sincronizacao.Semaforo.Acquire` | C++/src/main.cpp:137 | `acquire()` takes exactly one permit; it can return only when a permit exists |
| `Sincronizacao.Semaforo.Release` | C++/src/main.cpp:66 | `release(k)` adds exactly k permits and records an overflow iff the count passes the declared maximum |
| `Sincronizacao.Globais.constructor` | C++/src/main.cpp:23-29 | the winner starts at -1 and both flags start true |
| `Cadeiras.JogoDasCadeiras.constructor` | C++/src/main.cpp:55-59 | the game starts with the given number of active players and both lists empty |
| `Cadeiras.JogoDasCadeiras.IniciarRodada` | C++/src/main.cpp:61-71 | seats become active players − 1; both lists are emptied and the active count is kept; the semaphore gains exactly that many permits; the music flag is set; the round invariant `EmRodada` holds |
| `Cadeiras.JogoDasCadeiras.PararMusica` | C++/src/main.cpp:73-78 | only the music flag changes, and it is now false |
| `Cadeiras.JogoDasCadeiras.EliminarJogador` | C++/src/main.cpp:80-84 | the id is appended to the eliminated list and the active count drops by one; seats and the seated list are unchanged; the round invariant is kept |
| `Cadeiras.JogoDasCadeiras.VerificarFimJogo` | C++/src/main.cpp:102-108 | needs a non-empty seated list; when at most one player is seated, the game stops and that player is the winner; otherwise nothing changes |
| `Cadeiras.JogoDasCadeiras.OcuparCadeira` | C++/src/main.cpp:110-113 | one seat fewer, and the id is appended to the seated list; the active count and the eliminated list are unchanged; the round invariant is kept |
| `Cadeiras.JogoDasCadeiras.TemCadeiraDisponivel` | C++/src/main.cpp:115-117 | true iff seats > 0; during a round, iff fewer players are seated than the round offered seats |
| `Cadeiras.JogoDasCadeiras.JogadoresNaoForamEliminados` | C++/src/main.cpp:119-121 | false iff the eliminated list has `CADEIRAS_RETIRADAS_TURNO` entries; during a round, iff the active count has dropped by that many |
| `Cadeiras.Jogador.constructor` | C++/src/main.cpp:132-133 | a new player has its id, its game, and is not eliminated |
| `Cadeiras.Jogador.TentarOcuparCadeira` | C++/src/main.cpp:135-138 | passing the semaphore takes exactly one permit |
| `Cadeiras.Jogador.VerificarEliminacao` | C++/src/main.cpp:140-148 | if a seat was free, the player is appended to the seated list and stays non-eliminated; otherwise the player is appended to the eliminated list and marked eliminated; exactly one list grows, by one; the round invariant is kept |
| `Cadeiras.Coordenador.constructor` | C++/src/main.cpp:176-177 | the coordinator refers to the given game |
| `Cadeiras.Coordenador.LiberarThreadsEliminadas` | C++/src/main.cpp:207-210 | the semaphore gains exactly `CADEIRAS_RETIRADAS_TURNO` permits |
| `Cadeiras.Coordenador.EsperarCadeirasOcupadas` | C++/src/main.cpp:191-192 | while a seat is free the next claimant sits; the wait ends with all k − 1 seats taken by the first k − 1 claimants, in order, and nobody eliminated |
| `Cadeiras.Coordenador.EsperarEliminacoes` | C++/src/main.cpp:194-195 | the wait ends once the last claimant is the single eliminated player; the seated list is unchanged |
| `Cadeiras.Coordenador.JogarRodada` | C++/src/main.cpp:186-198 | for k ≥ 2 distinct active claimants, the round's lists equal `Disputa(k - 1, claim order)`, i.e. k − 1 seated and the last claimant eliminated; afterwards seats = 0, active = k − 1, and only the last claimant is marked eliminated; the permit count is back where it started; with k = 2 the game ends with the remaining player as winner |
| `Cadeiras.Coordenador.IniciarJogo` | C++/src/main.cpp:185-199 | from N ≥ 2 players the loop ends after exactly N − 1 rounds; the game is over, and the winner is one of the players; a player is eliminated iff their id is not the winner's; the winner is the only one seated in the last round; the overflow flag records whether initial permits + N − 1 exceeded the maximum |
| `Cadeiras.ExecutarPartida` | C++/src/main.cpp:217-248 | a game with players numbered 1..n always ends with a winner in 1..n; the semaphore overflows iff initial permits + n − 1 > n |
| `Cadeiras.PartidaComoEscrita` | C++/src/main.cpp:25 | the program as written (4 players, 3 initial permits, maximum 4) overflows the semaphore's declared maximum |
| `Cadeiras.Partida` | C++/src/main.cpp:25 | with the semaphore starting at 0 permits, the count never exceeds its declared maximum, and a winner among 1..4 is still named |

## Left out

- Threads are left out: their creation and joining in `main`, and the per-player loop `Jogador::joga`. From
  `joga`, only the claim step (`tentar_ocupar_cadeira`, then `verificar_eliminacao`) is modelled; the round's
  waits run that step for each claimant. Leaving the game when eliminated shows up as leaving the active list.
- The condition-variable protocol is left out (`music_cv`, `music_mutex`, `notify_all`, `notify_one`), because
  its point is waking threads. The music flag itself is modelled as a plain field.
- Blocking in `acquire()` and the busy-wait spins are abstracted. Every active player claims exactly once per
  round, in any order, and each claim is atomic. The unlocked check-then-claim race in `verificar_eliminacao`
  is therefore not modelled.
- `getRandomInt` and `sleep_for` are left out. They are a random source and a clock, and the duration they
  choose has no effect on the bookkeeping.
- `exibir_estado` and all console output are left out; they are presentation only.
- `Cadeiras.JogoDasCadeiras.TemCadeiraDisponivel`: returns a Boolean where the C++ returns the `int` 0 or 1. The
  result is only ever used as a condition.
- `Cadeiras.JogoDasCadeiras.constructor`: the C++ constructor leaves `cadeiras` uninitialised. The model assigns
  it an arbitrary value, and nothing reads it before `IniciarRodada`.
- Integers are unbounded. Every count stays at or below 2N − 2, the semaphore's peak in the first round (see
  Findings), far below 2^31, so 32-bit overflow cannot occur.
- `Cadeiras.Coordenador.IniciarJogo`: requires at least two players. The program is fixed at four players; with
  one, `verificar_fim_jogo` would read past the end of an empty vector.

## Findings

| source | as written | input that shows it | evidently intended | confidence | as-written member | corrected member |
|---|---|---|---|---|---|---|
| C++/src/main.cpp:25 | the semaphore, declared with maximum `NUM_JOGADORES`, starts with `NUM_JOGADORES - 1` permits, and `iniciar_rodada` (line 66) releases `NUM_JOGADORES - 1` more before any player acquires | `NUM_JOGADORES` = 4: the first round's release asks for 3 permits on a count of 3, reaching 6 > 4, which breaks `release`'s precondition | the count stays within 0..`NUM_JOGADORES` (line 25 says so). Two fixes are equally evident: start the semaphore with 0 permits, so that each round's release alone sets it to active players − 1; or keep the N − 1 initial permits that lines 36-37 describe and skip the first round's release. `Cadeiras.Partida` models the first; `Cadeiras.ExecutarPartida` proves that any start with initial permits + N − 1 ≤ N stays within bounds | not executed; high that the bound is broken, medium on the intended fix | `Cadeiras.PartidaComoEscrita` | `Cadeiras.Partida` |
