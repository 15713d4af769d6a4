# Tournament ledger: entry and prediction workflows

This project models the consistency core of a tournament-prediction platform.
External games enter their players ("gamers") into tournaments. Users ("bettors")
then stake amounts on prediction options, one option per entrant.

The model is a pure state machine. One immutable `Ledger` value holds:

- the games;
- the tournaments, each with status, start time, entry fee, prize pool and prediction total;
- the gamers, keyed by (game, external gamer id);
- the tournament entries;
- the prediction options;
- the predictions.

Two transitions act on it:

- `TournamentEntry.EnterTournament` models `TournamentEntryService.enterTournament`.
  It runs the checks in the source's order: game exists, tournament exists,
  tournament is published, start time strictly after `now`. It then finds or
  registers the gamer under the tournament's game and rejects a duplicate entry.
  Finally it commits three effects: the entry row with a snapshot of the fee, a
  new prediction option, and the prize-pool increment.
- `Predictions.CreatePrediction` models `PredictionService.createPrediction`.
  It checks that the option exists and that its tournament is published. It then
  appends the prediction with the option's odds copied as `oddsAtPlacement`. The
  amount is added to both the option's total and the tournament's total.

Each transition returns a `Response`: the ledger after the call plus either the
returned record or the error thrown. The response always carries the post-state
because gamer registration is a write that happens before the duplicate check.
That a rejected call changes nothing is therefore a proved property, not an
assumption. It holds outright for every validation error. For a duplicate it
holds whenever the ledger is consistent.

The consistency invariant is `Invariants.Valid`. Its conjuncts:

- gamers are unique per (game, gamer id);
- entries are unique per (tournament, gamer);
- options are created in lock-step with entries, so every option follows its entry;
- every entry names a stored tournament and a registered gamer;
- every prediction names a stored option;
- every prize pool equals the sum of its entries' fees;
- every option total equals the sum of its predictions' amounts;
- every tournament prediction total equals the sum of the amounts on its options.

Both transitions preserve it. So does any sequence of requests (`Sessions.Run`).

The modules:

- `Model`: entities and errors.
- `Totals`: the sums the counters must equal.
- `Invariants`: the invariant.
- `Gamers`: the find-or-register step.
- `TournamentEntry` and `Predictions`: the two workflows.
- `Sessions`: sequences of requests.
- `Scenarios`: concrete runs.

Behaviour as the code has it:

- The code throws `NotFoundException` or `BadRequestException`. There is no
  separate "duplicate entry" or "invalid state" class. The model keeps one error
  per `throw`, and `Model.Kind` maps each to its HTTP kind.
- Predictions check only the tournament's status, never its start time:
  `Predictions.CreatePrediction` takes no time at all, and its contract makes
  success depend on the status alone.
- The `gameId` argument is only checked for existence. The gamer is looked up
  and registered under the tournament's own game. A game can therefore enter a
  gamer into another game's tournament (`Scenarios.EntryThroughAnotherGame`).
  The model keeps this behaviour as written.

## Model

| member | source | states |
|---|---|---|
| `Model.Kind` | src/tournament/providers/tournament-entry.service.ts:27-47 | missing game, tournament or option is reported as not-found; the other rejections are bad requests; only the unjoinable tournament is a server error. The prediction-side errors come from lines 23-24 of src/prediction/providers/prediction.service.ts: a missing option, a tournament that is not published, and reading the status of a tournament the join left empty |
| `Gamers.FindGamer` | src/tournament/providers/tournament-entry.service.ts:38 | the lookup returns the first position holding exactly the (game, gamer id) pair, and returns nothing iff no such gamer is registered |
| `Gamers.FindOrRegister` | src/tournament/providers/tournament-entry.service.ts:38-41 | the result names a gamer with the tournament's game and the given id; an existing gamer leaves the ledger unchanged; otherwise exactly one gamer is appended and nothing else changes; never a second gamer for the same (game, gamer id) |
| `TournamentEntry.CommitEntry` | src/tournament/providers/tournament-entry.service.ts:49-60 | the commit appends exactly one entry carrying the tournament's current fee and exactly one option for the same (tournament, gamer) with the starting odds and a zero total; it raises that tournament's prize pool by exactly that fee; it leaves every other tournament, all predictions, gamers and games unchanged |
| `TournamentEntry.EnterTournament` | src/tournament/providers/tournament-entry.service.ts:25-60 | each check yields its own error exactly under its condition, in the source's order (missing game, missing tournament, not published, start time at or before now); these errors leave the ledger unchanged; success or a duplicate happens iff all checks pass, so success implies now < startTime; once they pass, the request is a duplicate iff the gamer found or registered under the tournament's game already has an entry in that tournament; on success the gamer is the one found or registered under the tournament's game, the gamer list is exactly what the find-or-register step left, exactly one entry with the tournament's current fee and exactly one zero-total option for the same (tournament, gamer) are appended, the prize pool rises by that fee, and no other tournament, entry, option or prediction changes; a duplicate leaves exactly what the find-or-register step wrote; no call lowers any prize pool |
| `TournamentEntry.DuplicateEntryWritesNothing` | src/tournament/providers/tournament-entry.service.ts:38-47 | in a consistent ledger a request rejected as a duplicate writes nothing, not even a gamer, although find-or-register runs before the duplicate check |
| `TournamentEntry.EnterPreservesValid` | src/tournament/providers/tournament-entry.service.ts:49-60 | any entry request keeps the ledger consistent: prize pool equals the sum of entry fees, at most one entry per (tournament, gamer), every entry paired with its option |
| `Invariants.EntryIffOption` | src/tournament/providers/tournament-entry.service.ts:50-58 | in a consistent ledger an entry exists for a (tournament, gamer) pair iff an option exists for that pair |
| `Predictions.CommitPrediction` | src/prediction/providers/prediction.service.ts:26-35 | the commit appends exactly one prediction carrying bettor, option, amount and the option's odds at this instant; it raises the option's total and its tournament's prediction total each by exactly the amount; no other option or tournament changes, and entries, gamers and games are untouched |
| `Predictions.CreatePrediction` | src/prediction/providers/prediction.service.ts:19-35 | missing option, unjoinable tournament and unpublished tournament each give their own error exactly under their condition, and every rejection leaves the ledger unchanged; success holds iff the option's tournament is published, with no time check; the returned prediction is the one appended, carrying bettor, option, amount and the option's odds at placement; the option's and its tournament's totals each rise by exactly the amount, no other option or tournament changes, no option's odds change, and earlier predictions stay as they were |
| `Predictions.NoDanglingTournament` | src/prediction/providers/prediction.service.ts:24 | in a consistent ledger the option's tournament can always be joined, so the server error for a missing tournament never arises |
| `Predictions.PredictionPreservesValid` | src/prediction/providers/prediction.service.ts:26-35 | any prediction request keeps each option total equal to the sum of its predictions' amounts and each tournament total equal to the sum over its options |
| `Predictions.PredictionTotalsNonDecreasing` | src/prediction/providers/prediction.service.ts:33-34 | with a non-negative amount no option total and no tournament total decreases |
| `Sessions.RunPreservesValid` | src/tournament/providers/tournament-entry.service.ts:25-63 | from a consistent ledger, any sequence of entry and prediction requests ends in a consistent ledger |
| `Sessions.RunExtends` | src/tournament/providers/tournament-entry.service.ts:38-60 | (with lines 26-35 of src/prediction/providers/prediction.service.ts) over any sequence of requests, gamers, entries and predictions are append-only, and existing options keep their tournament, gamer and odds; so no odds snapshot is ever altered |
| `Sessions.RunCountersNonDecreasing` | src/tournament/providers/tournament-entry.service.ts:38-60 | (with lines 33-34 of src/prediction/providers/prediction.service.ts) over any sequence of requests, whatever the stakes, no tournament appears or vanishes and no prize pool decreases; when every stake is non-negative, no option total or tournament prediction total decreases either |
| `Scenarios.EntryThenDuplicate` | src/tournament/providers/tournament-entry.service.ts:43-60 | a first entry into a fee-10 tournament records fee 10, one option and prize pool 10; a second entry by the same gamer is a duplicate and changes nothing |
| `Scenarios.PredictionAfterEntry` | src/prediction/providers/prediction.service.ts:24-35 | staking 5 at odds 2.0 records odds 2.0 and brings the option and tournament totals to 5; the prize pool stays 10 |
| `Scenarios.EntryAtStartTimeRejected` | src/tournament/providers/tournament-entry.service.ts:36 | entry at exactly the start time is rejected with no write; one tick earlier it succeeds |
| `Scenarios.EntryThroughAnotherGame` | src/tournament/providers/tournament-entry.service.ts:26-40 | a request made through a different existing game succeeds and registers the gamer under the tournament's game |

## Left out

- Concurrency: the three writes of each commit run through `Promise.all` and can fail part-way. The model commits all three as one atomic step. Races between concurrent duplicate entries or concurrent gamer registrations cannot be expressed in a sequential model.
- Persistence mechanics: document-id conversions, repository internals and the populate/projection re-reads that build the return values. `EnterTournament` returns the updated tournament without the game name populated. `CreatePrediction` returns the created prediction without its populated option, tournament and gamer.
- Authentication: the header and API-key checks and the JWT verifier. The game id and bettor id reach the workflows as plain parameters. The active-game request accessor is a one-line field read.
- Money and odds: these are floating-point in the system. Entry fees and prize pools are `nat`, amounts and prediction totals are `int`, and odds are an opaque value that is only copied.
- Wall-clock time: `new Date()` becomes the integer parameter `now`.
- New option odds: the option store picks the odds a new option starts with. Its source is not part of this model, so the odds arrive as the parameter `initialOdds`.
- New option total: the same store decides the total a new option starts with. The model starts it at zero. The invariant that an option's total equals the sum of its predictions rests on that choice.
- Owning game: a tournament's game is never looked up, in the code or in the model, and the invariant does not require it to be stored. A gamer can therefore be registered under a game that does not exist.
- Collaborator calls: gamer registration, the prize-pool increment and the two prediction-total increments belong to services whose source is not part of this model. Registration is modelled as appending exactly the (game, gamer id) pair. The increments are plain additions to one field of one record.
- Tournament status: the status enumeration's source is not part of this model. The model uses `Draft | Published | Closed`, and only "is Published" matters to either workflow.
- Other writers: creating games and tournaments, changing a tournament's status, fee or odds, and validating request bodies belong to other services. They are not modelled. A ledger that starts with no gamers, entries, options or predictions and with zero counters is consistent (`Invariants.PristineIsValid`).
