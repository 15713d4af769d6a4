/** The sums that each aggregate counter of the ledger must equal, and how
    those sums move when a record is appended or an option is updated. */
module Totals {
  import opened Model

  /** Σ entryFee over the entries of tournament `t`. */
  function FeesOf(entries: seq<Entry>, t: TournamentId): nat
  {
    if |entries| == 0 then 0
    else (if entries[0].tournament == t then entries[0].entryFee else 0) + FeesOf(entries[1..], t)
  }

  /** Σ amount over the predictions placed on option `o`. */
  function StakeOnOption(predictions: seq<Prediction>, o: OptionId): Money
  {
    if |predictions| == 0 then 0
    else (if predictions[0].option == o then predictions[0].amount else 0)
         + StakeOnOption(predictions[1..], o)
  }

  /** True when prediction `p` is placed on an option of tournament `t`. */
  predicate OnTournament(p: Prediction, options: seq<PredictionOption>, t: TournamentId)
  {
    p.option < |options| && options[p.option].tournament == t
  }

  /** Σ amount over the predictions placed on any option of tournament `t`. */
  function StakeOnTournament(predictions: seq<Prediction>, options: seq<PredictionOption>, t: TournamentId): Money
  {
    if |predictions| == 0 then 0
    else (if OnTournament(predictions[0], options, t) then predictions[0].amount else 0)
         + StakeOnTournament(predictions[1..], options, t)
  }

  lemma {:induction false} FeesOfAppend(entries: seq<Entry>, e: Entry, t: TournamentId)
    ensures FeesOf(entries + [e], t) == FeesOf(entries, t) + (if e.tournament == t then e.entryFee else 0)
  {
    if |entries| > 0 {
      assert (entries + [e])[1..] == entries[1..] + [e];
      FeesOfAppend(entries[1..], e, t);
    } else {
      assert (entries + [e])[1..] == [];
    }
  }

  lemma {:induction false} StakeOnOptionAppend(predictions: seq<Prediction>, p: Prediction, o: OptionId)
    ensures StakeOnOption(predictions + [p], o)
         == StakeOnOption(predictions, o) + (if p.option == o then p.amount else 0)
  {
    if |predictions| > 0 {
      assert (predictions + [p])[1..] == predictions[1..] + [p];
      StakeOnOptionAppend(predictions[1..], p, o);
    } else {
      assert (predictions + [p])[1..] == [];
    }
  }

  lemma {:induction false} StakeOnTournamentAppend(
    predictions: seq<Prediction>, options: seq<PredictionOption>, p: Prediction, t: TournamentId)
    ensures StakeOnTournament(predictions + [p], options, t)
         == StakeOnTournament(predictions, options, t) + (if OnTournament(p, options, t) then p.amount else 0)
  {
    if |predictions| > 0 {
      assert (predictions + [p])[1..] == predictions[1..] + [p];
      StakeOnTournamentAppend(predictions[1..], options, p, t);
    } else {
      assert (predictions + [p])[1..] == [];
    }
  }

  /** Two option tables that agree on the tournament of every option the
      predictions refer to give every tournament the same stake. This is what
      lets option totals change, and options be appended, without disturbing
      the tournament sums. */
  lemma {:induction false} StakeOnTournamentFrame(
    predictions: seq<Prediction>, before: seq<PredictionOption>, after: seq<PredictionOption>, t: TournamentId)
    requires |before| <= |after|
    requires forall i :: 0 <= i < |predictions| ==> predictions[i].option < |before|
    requires forall o :: 0 <= o < |before| ==> after[o].tournament == before[o].tournament
    ensures StakeOnTournament(predictions, after, t) == StakeOnTournament(predictions, before, t)
  {
    if |predictions| > 0 {
      assert predictions[0].option < |before|;
      assert forall i :: 0 <= i < |predictions[1..]| ==> predictions[1..][i] == predictions[i + 1];
      StakeOnTournamentFrame(predictions[1..], before, after, t);
    }
  }

  /** An option that no prediction names has a zero stake. */
  lemma {:induction false} StakeOnUnnamedOptionIsZero(predictions: seq<Prediction>, o: OptionId)
    requires forall i :: 0 <= i < |predictions| ==> predictions[i].option < o
    ensures StakeOnOption(predictions, o) == 0
  {
    if |predictions| > 0 {
      assert forall i :: 0 <= i < |predictions[1..]| ==> predictions[1..][i] == predictions[i + 1];
      StakeOnUnnamedOptionIsZero(predictions[1..], o);
    }
  }
}
