/**
 * Player numbers and the alternation of the starting player, shared by the
 * tic-tac-toe and the four-in-a-row sessions.
 */
module Turns {

  /** A player number of a two-player game. */
  predicate IsPlayer(p: int) {
    p == 1 || p == 2
  }

  /** The local player's number: 1 for the user named first by START_*, 2 otherwise. */
  function PlayerNumber(username: string, player1: string): (p: int)
    ensures IsPlayer(p)
  {
    if username == player1 then 1 else 2
  }

  /** `initialPlayer = (initialPlayer == 1) ? 2 : 1`: hands the first move to the other player. */
  function Toggle(p: int): (q: int)
    ensures IsPlayer(q)
    ensures IsPlayer(p) ==> q != p
  {
    if p == 1 then 2 else 1
  }

  /** The player who moves first after `resets` confirmed resets, starting from player 1. */
  function StartingPlayer(resets: nat): (p: int)
    ensures IsPlayer(p)
  {
    if resets == 0 then 1 else Toggle(StartingPlayer(resets - 1))
  }

  /** Resets alternate the starting player: player 1 after an even number, player 2 after an odd one. */
  lemma {:induction false} StartingPlayerParity(resets: nat)
    ensures StartingPlayer(resets) == if resets % 2 == 0 then 1 else 2
  {
    if resets > 0 {
      StartingPlayerParity(resets - 1);
    }
  }
}
