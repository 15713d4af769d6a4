/** The ledger shared by the tournament-entry and prediction workflows.

    Every collection the two workflows read or write is a field of one immutable
    `Ledger` value. Records whose ids the database generates (gamers, entries,
    prediction options, predictions) are kept in sequences and identified by
    their position; games and tournaments are created elsewhere and are looked up
    by the id the caller supplies.
 */
module Model {

  type GameId = nat
  type TournamentId = nat
  type UserId = nat
  /** Position of a gamer in `Ledger.gamers` (the gamer document's generated id). */
  type GamerRef = nat
  /** Position of an option in `Ledger.options` (the option document's generated id). */
  type OptionId = nat

  /** Money as the workflows see it. Entry fees and prize pools are modelled
      as `nat`, a modelling choice; prediction amounts reach the service
      unchecked, so they are plain integers. */
  type Money = int

  /** Betting odds. The workflows only ever copy odds, never compute with them. */
  datatype Odds = Odds(decimal: real)

  /** Tournament lifecycle. Only the comparison with `Published` matters to the core. */
  datatype Status = Draft | Published | Closed

  datatype Tournament = Tournament(
    game: GameId,
    status: Status,
    startTime: int,
    entryFee: nat,
    prizePool: nat,
    totalPredictionAmount: Money)

  /** A player identity scoped to one game: the pair (game, external gamer id). */
  datatype Gamer = Gamer(game: GameId, gamerId: string)

  /** A gamer's entry into a tournament, with the fee charged at entry time. */
  datatype Entry = Entry(tournament: TournamentId, gamer: GamerRef, entryFee: nat)

  /** The bettable unit created for each entry. */
  datatype PredictionOption = PredictionOption(
    tournament: TournamentId,
    gamer: GamerRef,
    odds: Odds,
    totalPredictionAmount: Money)

  /** A bettor's wager, with the option's odds copied at placement. */
  datatype Prediction = Prediction(
    bettor: UserId,
    option: OptionId,
    amount: Money,
    oddsAtPlacement: Odds)

  datatype Ledger = Ledger(
    games: set<GameId>,
    tournaments: map<TournamentId, Tournament>,
    gamers: seq<Gamer>,
    entries: seq<Entry>,
    options: seq<PredictionOption>,
    predictions: seq<Prediction>)

  /** The reasons the two workflows reject a request, one per thrown exception. */
  datatype Error =
    | GameNotFound          // entry: the game id does not resolve
    | TournamentNotFound    // entry: the tournament id does not resolve
    | NotOpenForEntry       // entry: tournament status is not Published
    | AlreadyStarted        // entry: the tournament's start time has been reached
    | AlreadyEntered        // entry: the gamer already has an entry in this tournament
    | OptionNotFound        // prediction: the option id does not resolve
    | NotOpenForPrediction  // prediction: the option's tournament is not Published
    | TournamentMissing     // prediction: the option's tournament cannot be joined

  /** How an error is surfaced to the HTTP caller. */
  datatype ErrorKind = NotFound | BadRequest | ServerError

  function Kind(e: Error): (k: ErrorKind)
    ensures k == NotFound <==> e in {GameNotFound, TournamentNotFound, OptionNotFound}
    ensures k == ServerError <==> e == TournamentMissing
  {
    match e
    case GameNotFound => NotFound
    case TournamentNotFound => NotFound
    case OptionNotFound => NotFound
    case NotOpenForEntry => BadRequest
    case AlreadyStarted => BadRequest
    case AlreadyEntered => BadRequest
    case NotOpenForPrediction => BadRequest
    case TournamentMissing => ServerError
  }

  datatype Option<T> = None | Some(value: T)

  datatype Result<T> = Ok(value: T) | Err(error: Error)

  /** What one workflow call leaves behind: the ledger after the call, and
      either the record it returns or the error it throws. */
  datatype Response<T> = Response(ledger: Ledger, outcome: Result<T>)
}
