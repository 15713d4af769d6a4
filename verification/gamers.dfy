/** The find-or-register step of the entry workflow: a gamer is looked up by
    (game, external gamer id) and registered only when no such gamer exists. */
module Gamers {
  import opened Model
  import opened Invariants

  /** The position of the first gamer equal to `who`, if any. */
  function FindGamer(gamers: seq<Gamer>, who: Gamer): (r: Option<GamerRef>)
    ensures r.Some? ==> r.value < |gamers| && gamers[r.value] == who
    ensures r.Some? ==> forall j :: 0 <= j < r.value ==> gamers[j] != who
    ensures r.None? <==> who !in gamers
  {
    if |gamers| == 0 then None
    else if gamers[0] == who then Some(0)
    else match FindGamer(gamers[1..], who)
      case None => None
      case Some(i) => Some(i + 1)
  }

  datatype Resolved = Resolved(ledger: Ledger, gamer: GamerRef)

  /** Finds the gamer for (game, gamerId), registering it first when absent.
      Registration is a write: it is visible in the returned ledger. */
  function FindOrRegister(l: Ledger, game: GameId, gamerId: string): (r: Resolved)
    ensures r.gamer < |r.ledger.gamers| && r.ledger.gamers[r.gamer] == Gamer(game, gamerId)
    ensures Gamer(game, gamerId) in l.gamers ==> r.ledger == l
    ensures Gamer(game, gamerId) !in l.gamers ==>
              r.ledger == l.(gamers := l.gamers + [Gamer(game, gamerId)]) && r.gamer == |l.gamers|
    // never a second gamer for the same (game, gamerId)
    ensures GamersUnique(l.gamers) ==> GamersUnique(r.ledger.gamers)
  {
    var who := Gamer(game, gamerId);
    match FindGamer(l.gamers, who)
    case Some(g) => Resolved(l, g)
    case None => Resolved(l.(gamers := l.gamers + [who]), |l.gamers|)
  }
}
