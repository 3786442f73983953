/**
  The daily e-mail digest: the rendered list of a county's leads (its
  header count, the leads shown and the colour band of each score), and the
  delivery loop that skips, sends or simulates one message per active
  subscription and tallies the outcomes.

  The leads read here are the leads file as stored, without the score
  rewrite the web app applies on load.
 */
module Digest {
  import opened Common
  import opened Leads

  /** `format_leads_html`'s default `max_leads`, the one every caller uses. */
  const DefaultMaxLeads: int := 50
  const GreenFrom: int := 85
  const IndigoFrom: int := 75

  /** The three border colours: `#22c55e`, `#6366f1` and `#fbbf24`. */
  datatype Band = Green | Indigo | Amber

  /** `lead.get('score', 0)`. */
  function ScoreOf(l: Lead): (s: int)
    ensures l.score.Some? ==> s == l.score.value
    ensures l.score.None? ==> s == 0
  {
    match l.score
    case None => 0
    case Some(v) => v
  }

  function BandOf(score: int): (b: Band)
    ensures b == Green <==> GreenFrom <= score
    ensures b == Indigo <==> IndigoFrom <= score < GreenFrom
    ensures b == Amber <==> score < IndigoFrom
  {
    if score >= GreenFrom then Green
    else if score >= IndigoFrom then Indigo
    else Amber
  }

  /** Position of a band from the lowest scores to the highest. */
  function BandRank(b: Band): nat
  {
    match b
    case Amber => 0
    case Indigo => 1
    case Green => 2
  }

  /** A higher score never gets a lower band. */
  lemma {:induction false} BandMonotone(s: int, t: int)
    requires s <= t
    ensures BandRank(BandOf(s)) <= BandRank(BandOf(t))
  {
  }

  /** A missing score is banded like a score of zero: amber. */
  lemma {:induction false} MissingScoreIsAmber(l: Lead)
    requires l.score.None?
    ensures BandOf(ScoreOf(l)) == Amber
  {
  }

  /** One rendered lead: the lead itself and the colour of its score. */
  datatype Card = Card(lead: Lead, band: Band)

  /** What the rendered HTML says about its leads, apart from the markup. */
  datatype Rendered = Rendered(headerCount: int, cards: seq<Card>)

  /** Python's `leads[:stop]`: the number of leading elements kept, a negative stop counting from the end. */
  function SliceStop(n: nat, stop: int): (k: nat)
    ensures k <= n
  {
    if stop >= 0 then (if stop < n then stop else n)
    else if n + stop > 0 then n + stop
    else 0
  }

  function Cards(leads: seq<Lead>): (cs: seq<Card>)
    ensures |cs| == |leads|
    ensures forall i :: 0 <= i < |leads| ==> cs[i] == Card(leads[i], BandOf(ScoreOf(leads[i])))
  {
    if leads == [] then []
    else [Card(leads[0], BandOf(ScoreOf(leads[0])))] + Cards(leads[1..])
  }

  /** `format_leads_html(leads, max_leads)`, reduced to its count and its cards. */
  function FormatLeads(leads: seq<Lead>, maxLeads: int): (r: Rendered)
    ensures r.headerCount <= |leads| && r.headerCount <= maxLeads
    ensures r.headerCount == |leads| || r.headerCount == maxLeads
    ensures |r.cards| == SliceStop(|leads|, maxLeads)
    ensures forall i :: 0 <= i < |r.cards| ==> r.cards[i] == Card(leads[i], BandOf(ScoreOf(leads[i])))
  {
    Rendered(if |leads| < maxLeads then |leads| else maxLeads, Cards(leads[..SliceStop(|leads|, maxLeads)]))
  }

  /**
    For a non-negative cap the header counts exactly the leads shown, and
    these are the first leads in input order; all of them when they fit.
   */
  lemma {:induction false} HeaderCountsShownLeads(leads: seq<Lead>, maxLeads: int)
    requires maxLeads >= 0
    ensures FormatLeads(leads, maxLeads).headerCount == |FormatLeads(leads, maxLeads).cards|
    ensures |leads| <= maxLeads ==> |FormatLeads(leads, maxLeads).cards| == |leads|
    ensures |leads| > maxLeads ==> |FormatLeads(leads, maxLeads).cards| == maxLeads
  {
  }

  /** With the default cap at most fifty leads are rendered, and a short list is rendered whole. */
  lemma {:induction false} DefaultCapsAtFifty(leads: seq<Lead>)
    ensures |FormatLeads(leads, DefaultMaxLeads).cards| <= 50
    ensures |leads| <= 50 ==>
              |FormatLeads(leads, DefaultMaxLeads).cards| == |leads| &&
              forall i :: 0 <= i < |leads| ==> FormatLeads(leads, DefaultMaxLeads).cards[i].lead == leads[i]
  {
  }

  /** A subscription row of the delivery query, reduced to the columns the loop reads. */
  datatype Subscription = Subscription(userId: string, stateKey: string, countyKey: string, email: string)

  /**
    What the loop does for one subscription. `subjectCount` is the count
    in the subject line, `body` the rendered list the message carries.
   */
  datatype Outcome =
    | Skipped
    | Simulated(subjectCount: nat, body: Rendered)
    | Delivered(subjectCount: nat, body: Rendered)
    | Failed(subjectCount: nat, body: Rendered)

  /** The end of one delivery run. */
  datatype Delivery =
    | NoActiveSubscriptions
    | Summary(sent: nat, failed: nat, outcomes: seq<Outcome>, queued: seq<string>)

  /** `all_leads.get(state_key, {}).get(county_key, [])`. */
  function CountyLeadsOf(db: LeadsDb, state: string, county: string): (ls: seq<Lead>)
    ensures state in db && county in db[state] ==> ls == db[state][county]
    ensures !(state in db && county in db[state]) ==> ls == []
  {
    if state in db && county in db[state] then db[state][county] else []
  }

  /**
    The outcome for one subscription: `delivered` is what the SendGrid call
    for it returned, consulted only when there is a key and there are leads.
   */
  function OutcomeOf(apiKey: string, db: LeadsDb, sub: Subscription, delivered: bool): (o: Outcome)
    ensures o.Skipped? <==> CountyLeadsOf(db, sub.stateKey, sub.countyKey) == []
    ensures o.Simulated? <==> apiKey == "" && CountyLeadsOf(db, sub.stateKey, sub.countyKey) != []
    ensures o.Delivered? <==> apiKey != "" && delivered && CountyLeadsOf(db, sub.stateKey, sub.countyKey) != []
    ensures o.Failed? <==> apiKey != "" && !delivered && CountyLeadsOf(db, sub.stateKey, sub.countyKey) != []
    ensures !o.Skipped? ==>
              && o.subjectCount == |CountyLeadsOf(db, sub.stateKey, sub.countyKey)|
              && o.body == FormatLeads(CountyLeadsOf(db, sub.stateKey, sub.countyKey), DefaultMaxLeads)
  {
    var leads := CountyLeadsOf(db, sub.stateKey, sub.countyKey);
    var body := FormatLeads(leads, DefaultMaxLeads);
    if leads == [] then Skipped
    else if apiKey == "" then Simulated(|leads|, body)
    else if delivered then Delivered(|leads|, body)
    else Failed(|leads|, body)
  }

  /** Outcomes that increment `sent_count`: a simulated send counts as sent. */
  predicate CountsAsSent(o: Outcome)
  {
    o.Simulated? || o.Delivered?
  }

  predicate CountsAsFailed(o: Outcome)
  {
    o.Failed?
  }

  predicate IsSkipped(o: Outcome)
  {
    o.Skipped?
  }

  predicate IsDelivered(o: Outcome)
  {
    o.Delivered?
  }

  /** The users recorded in the e-mail queue, one per delivered message, in loop order. */
  function QueuedUsers(subs: seq<Subscription>, outcomes: seq<Outcome>): seq<string>
    requires |subs| == |outcomes|
  {
    if subs == [] then []
    else QueuedUsers(subs[..|subs| - 1], outcomes[..|outcomes| - 1])
         + (if outcomes[|outcomes| - 1].Delivered? then [subs[|subs| - 1].userId] else [])
  }

  /** `outcomes` are the outcomes of the first `|outcomes|` subscriptions. */
  predicate Decided(outcomes: seq<Outcome>, apiKey: string, db: LeadsDb, subs: seq<Subscription>, send: (nat, string) -> bool)
  {
    && |outcomes| <= |subs|
    && forall k :: 0 <= k < |outcomes| ==> outcomes[k] == OutcomeOf(apiKey, db, subs[k], send(k, subs[k].email))
  }

  lemma {:induction false} DecidedStep(outcomes: seq<Outcome>, apiKey: string, db: LeadsDb, subs: seq<Subscription>, send: (nat, string) -> bool, o: Outcome)
    requires Decided(outcomes, apiKey, db, subs, send) && |outcomes| < |subs|
    requires o == OutcomeOf(apiKey, db, subs[|outcomes|], send(|outcomes|, subs[|outcomes|].email))
    ensures Decided(outcomes + [o], apiKey, db, subs, send)
  {
  }

  /** The three tallies of the loop over `outcomes`, kept together. */
  predicate Tallied(outcomes: seq<Outcome>, sent: nat, failed: nat, skipped: nat)
  {
    && sent == CountIf(outcomes, CountsAsSent)
    && failed == CountIf(outcomes, CountsAsFailed)
    && skipped == CountIf(outcomes, IsSkipped)
    && sent + failed + skipped == |outcomes|
  }

  /**
    `send_daily_leads`: `apiKey` is `SENDGRID_API_KEY` (empty when unset),
    `db` the leads file, `subs` the active subscriptions in query order, and
    `send(i, email)` what the SendGrid call for the `i`-th subscription
    returned.
   */
  method SendDailyLeads(apiKey: string, db: LeadsDb, subs: seq<Subscription>, send: (nat, string) -> bool)
    returns (d: Delivery)
    ensures d.NoActiveSubscriptions? <==> subs == []
    ensures d.Summary? ==> |d.outcomes| == |subs|
    ensures d.Summary? ==> Decided(d.outcomes, apiKey, db, subs, send)
    ensures d.Summary? ==> Tallied(d.outcomes, d.sent, d.failed, CountIf(d.outcomes, IsSkipped))
    ensures d.Summary? ==> d.sent + d.failed <= |subs|
    ensures d.Summary? ==> d.queued == QueuedUsers(subs, d.outcomes)
  {
    if subs == [] {
      return NoActiveSubscriptions;
    }
    var sent: nat := 0;
    var failed: nat := 0;
    var skipped: nat := 0;
    var outcomes: seq<Outcome> := [];
    var queued: seq<string> := [];
    var i := 0;
    while i < |subs|
      invariant 0 <= i <= |subs|
      invariant |outcomes| == i
      invariant Decided(outcomes, apiKey, db, subs, send)
      invariant Tallied(outcomes, sent, failed, skipped)
      invariant queued == QueuedUsers(subs[..i], outcomes)
    {
      var o := OutcomeOf(apiKey, db, subs[i], send(i, subs[i].email));
      TallyStep(outcomes, o, sent, failed, skipped);
      QueuedStep(subs, outcomes, i, o);
      DecidedStep(outcomes, apiKey, db, subs, send, o);
      sent := sent + (if CountsAsSent(o) then 1 else 0);
      failed := failed + (if CountsAsFailed(o) then 1 else 0);
      skipped := skipped + (if IsSkipped(o) then 1 else 0);
      queued := queued + (if o.Delivered? then [subs[i].userId] else []);
      outcomes := outcomes + [o];
      i := i + 1;
    }
    assert subs[..i] == subs;
    d := Summary(sent, failed, outcomes, queued);
  }

  /** Appending one outcome moves exactly the tally its kind names. */
  lemma {:induction false} TallyStep(outcomes: seq<Outcome>, o: Outcome, sent: nat, failed: nat, skipped: nat)
    requires Tallied(outcomes, sent, failed, skipped)
    ensures Tallied(outcomes + [o], sent + (if CountsAsSent(o) then 1 else 0),
                    failed + (if CountsAsFailed(o) then 1 else 0),
                    skipped + (if IsSkipped(o) then 1 else 0))
  {
    CountIfAppend(outcomes, [o], CountsAsSent);
    CountIfAppend(outcomes, [o], CountsAsFailed);
    CountIfAppend(outcomes, [o], IsSkipped);
    assert [o][1..] == [];
  }

  lemma {:induction false} QueuedStep(subs: seq<Subscription>, outcomes: seq<Outcome>, i: nat, o: Outcome)
    requires i < |subs| && |outcomes| == i
    ensures QueuedUsers(subs[..i + 1], outcomes + [o])
            == QueuedUsers(subs[..i], outcomes) + (if o.Delivered? then [subs[i].userId] else [])
  {
    assert subs[..i + 1][..i] == subs[..i];
    assert (outcomes + [o])[..i] == outcomes;
  }

  /** One queue entry per delivered message, for the user it went to. */
  lemma {:induction false} QueuedCountsDeliveries(subs: seq<Subscription>, outcomes: seq<Outcome>)
    requires |subs| == |outcomes|
    ensures |QueuedUsers(subs, outcomes)| == CountIf(outcomes, IsDelivered)
  {
    if subs != [] {
      var n := |subs| - 1;
      QueuedCountsDeliveries(subs[..n], outcomes[..n]);
      assert outcomes == outcomes[..n] + [outcomes[n]];
      CountIfAppend(outcomes[..n], [outcomes[n]], IsDelivered);
      assert [outcomes[n]][1..] == [];
    }
  }

  /**
    Without an API key nothing is sent or queued and nothing fails: every
    subscription with leads counts as sent.
   */
  lemma {:induction false} NoKeyOnlySimulates(db: LeadsDb, subs: seq<Subscription>, send: (nat, string) -> bool, d: Delivery)
    requires d.Summary? && |d.outcomes| == |subs|
    requires Decided(d.outcomes, "", db, subs, send)
    requires Tallied(d.outcomes, d.sent, d.failed, CountIf(d.outcomes, IsSkipped))
    requires d.queued == QueuedUsers(subs, d.outcomes)
    ensures d.failed == 0
    ensures d.sent == |subs| - CountIf(d.outcomes, IsSkipped)
    ensures CountIf(d.outcomes, IsDelivered) == 0
    ensures d.queued == []
  {
    NoneCounted(d.outcomes, CountsAsFailed);
    NoneCounted(d.outcomes, IsDelivered);
    QueuedCountsDeliveries(subs, d.outcomes);
  }

  lemma {:induction false} NoneCounted(s: seq<Outcome>, p: Outcome -> bool)
    requires forall i :: 0 <= i < |s| ==> !p(s[i])
    ensures CountIf(s, p) == 0
  {
    if s != [] {
      NoneCounted(s[1..], p);
    }
  }

  /**
    The subject counts every lead of the county while the body is capped:
    above fifty leads the two counts differ.
   */
  lemma {:induction false} SubjectCountsAllLeads(apiKey: string, db: LeadsDb, sub: Subscription, delivered: bool)
    requires !OutcomeOf(apiKey, db, sub, delivered).Skipped?
    ensures var o := OutcomeOf(apiKey, db, sub, delivered);
            && o.subjectCount == |CountyLeadsOf(db, sub.stateKey, sub.countyKey)|
            && o.body.headerCount == (if o.subjectCount < 50 then o.subjectCount else 50)
            && (o.subjectCount > 50 ==> o.body.headerCount < o.subjectCount)
  {
  }
}
