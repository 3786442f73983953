/**
  The leads file as the web app loads it: states, then counties, then the
  county's list of leads. On load, every lead whose score is exactly 90 is
  given a fresh random score between 75 and 98; every other lead is kept
  as it is.
 */
module Leads {
  import opened Common

  /** A lead record; `score` is `None` when the record has no score key. */
  datatype Lead = Lead(score: Option<int>, others: map<string, string>)

  /** State key to county key to that county's leads, in file order. */
  type LeadsDb = map<string, map<string, seq<Lead>>>

  const PlaceholderScore: int := 90
  const MinRandomScore: int := 75
  const MaxRandomScore: int := 98

  /** The relation the rewrite keeps between a lead before and after loading. */
  predicate Rewritten(before: Lead, after: Lead)
  {
    if before.score == Some(PlaceholderScore) then
      && after.score.Some? && MinRandomScore <= after.score.value <= MaxRandomScore
      && after.others == before.others
    else after == before
  }

  function RewriteLead(l: Lead, draw: nat): (r: Lead)
    ensures Rewritten(l, r)
  {
    if l.score == Some(PlaceholderScore) then
      l.(score := Some(RandInt(MinRandomScore, MaxRandomScore, draw)))
    else l
  }

  /** The leads of one county, the `i`-th drawing `draw(state, county, from + i)`. */
  function RewriteCounty(ls: seq<Lead>, state: string, county: string, draw: (string, string, nat) -> nat, from: nat): (rs: seq<Lead>)
    ensures |rs| == |ls|
    ensures forall i :: 0 <= i < |ls| ==> Rewritten(ls[i], rs[i])
  {
    if ls == [] then []
    else [RewriteLead(ls[0], draw(state, county, from))] + RewriteCounty(ls[1..], state, county, draw, from + 1)
  }

  /**
    `load_leads`: `file` is the parsed `leads` object, `None` when the file
    is missing or holds no `leads` key. `draw(state, county, i)` stands for
    the random value drawn for the `i`-th lead of that county.
   */
  function LoadLeads(file: Option<LeadsDb>, draw: (string, string, nat) -> nat): (r: LeadsDb)
    ensures file.None? ==> r == map[]
    ensures file.Some? ==> r.Keys == file.value.Keys
    ensures file.Some? ==> forall s :: s in r ==> r[s].Keys == file.value[s].Keys
    ensures file.Some? ==> forall s, c :: s in r && c in r[s] ==>
              |r[s][c]| == |file.value[s][c]| &&
              forall i :: 0 <= i < |r[s][c]| ==> Rewritten(file.value[s][c][i], r[s][c][i])
  {
    match file
    case None => map[]
    case Some(db) =>
      map s | s in db :: map c | c in db[s] :: RewriteCounty(db[s][c], s, c, draw, 0)
  }

  /** Every score of the range is a possible outcome for a placeholder lead. */
  lemma {:induction false} EveryScoreReachable(l: Lead, v: int)
    requires l.score == Some(PlaceholderScore)
    requires MinRandomScore <= v <= MaxRandomScore
    ensures RewriteLead(l, v - MinRandomScore).score == Some(v)
  {
    RandIntCovers(MinRandomScore, MaxRandomScore, v);
  }

  /**
    The rewrite is not a normalisation: the placeholder itself lies in the
    range, so a rewritten lead can come out at 90 again and be rewritten on
    the next load.
   */
  lemma {:induction false} PlaceholderMaySurvive(l: Lead)
    requires l.score == Some(PlaceholderScore)
    ensures RewriteLead(l, 15) == l
  {
  }
}
