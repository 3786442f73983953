/**
  The daily scrape-and-feed run: the weekend gate, the randomised start
  instant, grouping of subscriber rows by city, the metro prefix of a city
  key, the per-city permit filter, the fan-out to every subscriber with
  per-subscriber and per-city failure isolation, and the one retention
  cleanup at the end.

  The collaborators (subscriber directory, regional scraper, novelty
  filter, fresh dump, permit email, seen-permit cleanup) are not
  interpreted: each is a field of `Env`, a function of an opaque world
  state `W` and its arguments that yields a new world and either a value
  or a raised exception. The run is a fold over the city groups that
  records every collaborator call, with its outcome, in an effect trace.
 */
module Cron {
  import opened Common

  /** A scraped permit: field name to text; `p.get(k, '')` is `Field(p, k)`. */
  type Permit = map<string, string>

  /** A subscriber row; the run reads `sub[1]`, `sub[2]` and `sub[3]`. */
  datatype Row = Row(key: string, userId: string, email: string, city: string)

  datatype Subscriber = Subscriber(userId: string, email: string)

  /** One entry of `cities_to_scrape`, in the dictionary's insertion order. */
  datatype CityGroup = CityGroup(city: string, users: seq<Subscriber>)

  const SecondsPerDay: int := 86400
  const AnchorHour: int := 5
  const MinWaitMinutes: int := 1800
  const MaxWaitMinutes: int := 1950
  const RetentionDays: nat := 30

  // ---------------------------------------------------------------- time

  /** Day number of a local instant given in seconds since 1970-01-01 00:00. */
  function Day(t: int): int
  {
    t / SecondsPerDay
  }

  /** `datetime.weekday()`: Monday is 0; 1970-01-01 was a Thursday. */
  function Weekday(t: int): (d: int)
    ensures 0 <= d < 7
  {
    (Day(t) + 3) % 7
  }

  predicate IsWeekend(t: int)
  {
    Weekday(t) == 5 || Weekday(t) == 6
  }

  /**
    05:00 of the current day plus a random wait of 1800 to 1950 minutes:
    between 35h00 and 37h30 after the current day's midnight, on a whole
    minute.
   */
  function StartInstant(now: int, draw: nat): (start: int)
    ensures Day(now) * SecondsPerDay + 35 * 3600 <= start <= Day(now) * SecondsPerDay + 37 * 3600 + 1800
    ensures start % 60 == 0
  {
    var wait := RandInt(MinWaitMinutes, MaxWaitMinutes, draw);
    Day(now) * SecondsPerDay + AnchorHour * 3600 + wait * 60
  }

  /**
    The scrape itself happens on the day after the weekend gate was
    checked: a run started on a Friday scrapes on a Saturday, and a Sunday
    run (which is skipped) would have scraped on a Monday.
   */
  lemma {:induction false} StartIsNextDay(now: int, draw: nat)
    ensures Day(StartInstant(now, draw)) == Day(now) + 1
    ensures Weekday(StartInstant(now, draw)) == (Weekday(now) + 1) % 7
  {
    var d := Day(now);
    DayOf(StartInstant(now, draw), d + 1);
    NextWeekday(d);
  }

  lemma {:induction false} DayOf(t: int, d: int)
    requires d * SecondsPerDay <= t < d * SecondsPerDay + SecondsPerDay
    ensures Day(t) == d
  {
  }

  lemma {:induction false} NextWeekday(d: int)
    ensures (d + 1 + 3) % 7 == ((d + 3) % 7 + 1) % 7
  {
  }

  lemma {:induction false} FridayRunScrapesOnSaturday(now: int, draw: nat)
    requires Weekday(now) == 4
    ensures !IsWeekend(now)
    ensures IsWeekend(StartInstant(now, draw))
  {
    StartIsNextDay(now, draw);
  }

  /**
    A run the weekend gate lets through scrapes on a Tuesday to a Saturday:
    a day's scrape comes from the previous day's run, so no scrape ever
    falls on a Monday, whose run would be Sunday's.
   */
  lemma {:induction false} ScrapeDaysTuesdayToSaturday(now: int, draw: nat)
    requires !IsWeekend(now)
    ensures 1 <= Weekday(StartInstant(now, draw)) <= 5
  {
    StartIsNextDay(now, draw);
  }

  /** Every whole-minute wait of the range is a possible choice. */
  lemma {:induction false} EveryWaitReachable(now: int, minutes: int)
    requires MinWaitMinutes <= minutes <= MaxWaitMinutes
    ensures StartInstant(now, minutes - MinWaitMinutes) == Day(now) * SecondsPerDay + AnchorHour * 3600 + minutes * 60
  {
    RandIntCovers(MinWaitMinutes, MaxWaitMinutes, minutes);
  }

  // ------------------------------------------------------------ grouping

  /** The subscribers of `city`, one per row, in row order; no collapsing. */
  function UsersOf(rows: seq<Row>, city: string): seq<Subscriber>
  {
    if rows == [] then []
    else
      var last := rows[|rows| - 1];
      UsersOf(rows[..|rows| - 1], city) + (if last.city == city then [Subscriber(last.userId, last.email)] else [])
  }

  /**
    Every row of the city gives a subscriber of it, and every subscriber of
    the city comes from one of its rows.
   */
  lemma {:induction false} UsersOfMembers(rows: seq<Row>, city: string)
    ensures forall k :: 0 <= k < |rows| && rows[k].city == city ==>
              Subscriber(rows[k].userId, rows[k].email) in UsersOf(rows, city)
    ensures forall i :: 0 <= i < |UsersOf(rows, city)| ==> FromCityRow(rows, city, UsersOf(rows, city)[i])
  {
    if rows != [] {
      var n := |rows| - 1;
      var init := rows[..n];
      UsersOfMembers(init, city);
      var us := UsersOf(rows, city);
      var front := UsersOf(init, city);
      var tail: seq<Subscriber> := if rows[n].city == city then [Subscriber(rows[n].userId, rows[n].email)] else [];
      assert us == front + tail;
      forall k | 0 <= k < |rows| && rows[k].city == city
        ensures Subscriber(rows[k].userId, rows[k].email) in us
      {
        if k < n {
          assert rows[k] == init[k];
        } else {
          assert us[|front|] == Subscriber(rows[k].userId, rows[k].email);
        }
      }
      forall i | 0 <= i < |us|
        ensures FromCityRow(rows, city, us[i])
      {
        if i < |front| {
          assert us[i] == front[i];
          assert FromCityRow(init, city, front[i]);
          var k :| 0 <= k < |init| && init[k].city == city && front[i] == Subscriber(init[k].userId, init[k].email);
          assert rows[k] == init[k];
        } else {
          assert rows[n].city == city && us[i] == Subscriber(rows[n].userId, rows[n].email);
        }
      }
    }
  }

  /** `s` is the subscriber of some row naming `city`. */
  predicate FromCityRow(rows: seq<Row>, city: string, s: Subscriber)
  {
    exists k :: 0 <= k < |rows| && rows[k].city == city && s == Subscriber(rows[k].userId, rows[k].email)
  }

  function Cities(gs: seq<CityGroup>): (cs: seq<string>)
    ensures |cs| == |gs|
    ensures forall i :: 0 <= i < |gs| ==> cs[i] == gs[i].city
  {
    if gs == [] then [] else [gs[0].city] + Cities(gs[1..])
  }

  function TotalUsers(gs: seq<CityGroup>): nat
  {
    if gs == [] then 0 else |gs[0].users| + TotalUsers(gs[1..])
  }

  predicate DistinctCities(gs: seq<CityGroup>)
  {
    forall i, j :: 0 <= i < j < |gs| ==> gs[i].city != gs[j].city
  }

  /** `gs` is the grouping of `rows` by city. */
  predicate GroupedBy(rows: seq<Row>, gs: seq<CityGroup>)
  {
    && DistinctCities(gs)
    && (forall i :: 0 <= i < |gs| ==> gs[i].users == UsersOf(rows, gs[i].city) && gs[i].users != [])
    && (forall k :: 0 <= k < |rows| ==> rows[k].city in Cities(gs))
  }

  /** One iteration of the grouping loop: append the row's subscriber to its city, creating the city if new. */
  function AddRow(gs: seq<CityGroup>, r: Row): (gs': seq<CityGroup>)
    requires DistinctCities(gs)
    ensures |gs'| == if r.city in Cities(gs) then |gs| else |gs| + 1
    ensures forall i :: 0 <= i < |gs| ==> gs'[i].city == gs[i].city
    ensures forall i :: 0 <= i < |gs| ==>
              gs'[i].users == gs[i].users + (if gs[i].city == r.city then [Subscriber(r.userId, r.email)] else [])
    ensures r.city !in Cities(gs) ==> gs'[|gs|] == CityGroup(r.city, [Subscriber(r.userId, r.email)])
  {
    var s := Subscriber(r.userId, r.email);
    if gs == [] then [CityGroup(r.city, [s])]
    else if gs[0].city == r.city then
      assert Cities(gs)[0] == r.city;
      var grown := [gs[0].(users := gs[0].users + [s])] + gs[1..];
      assert grown[1..] == gs[1..];
      assert forall i :: 0 < i < |gs| ==> gs[i].city != r.city by {
        forall i | 0 < i < |gs| ensures gs[i].city != r.city {
          assert gs[0].city != gs[i].city;
        }
      }
      grown
    else
      assert Cities(gs) == [gs[0].city] + Cities(gs[1..]);
      assert DistinctCities(gs[1..]) by {
        forall i, j | 0 <= i < j < |gs| - 1 ensures gs[1..][i].city != gs[1..][j].city {
          assert gs[i + 1].city != gs[j + 1].city;
        }
      }
      var rest := AddRow(gs[1..], r);
      var appended := [gs[0]] + rest;
      assert appended[1..] == rest;
      appended
  }

  /** One grouping step adds exactly one subscriber entry overall. */
  lemma {:induction false} AddRowAddsOne(gs: seq<CityGroup>, r: Row)
    requires DistinctCities(gs)
    ensures TotalUsers(AddRow(gs, r)) == TotalUsers(gs) + 1
  {
    if gs != [] && gs[0].city != r.city {
      assert DistinctCities(gs[1..]) by {
        forall i, j | 0 <= i < j < |gs| - 1 ensures gs[1..][i].city != gs[1..][j].city {
          assert gs[i + 1].city != gs[j + 1].city;
        }
      }
      AddRowAddsOne(gs[1..], r);
      assert AddRow(gs, r)[1..] == AddRow(gs[1..], r);
    } else if gs != [] {
      assert AddRow(gs, r)[1..] == gs[1..];
    }
  }

  /** The city keys after one grouping step: unchanged, or the row's city appended at the end. */
  lemma {:induction false} AddRowCities(gs: seq<CityGroup>, r: Row)
    requires DistinctCities(gs)
    ensures Cities(AddRow(gs, r)) == if r.city in Cities(gs) then Cities(gs) else Cities(gs) + [r.city]
  {
    var gs' := AddRow(gs, r);
    var expected := if r.city in Cities(gs) then Cities(gs) else Cities(gs) + [r.city];
    assert |Cities(gs')| == |expected|;
    forall i | 0 <= i < |expected|
      ensures Cities(gs')[i] == expected[i]
    {
      assert Cities(gs')[i] == gs'[i].city;
      if i < |gs| {
        assert gs'[i].city == gs[i].city;
      } else {
        assert i == |gs| && r.city !in Cities(gs);
        assert gs'[|gs|].city == r.city;
      }
    }
  }

  /** The grouping loop of the run, over the rows in order. */
  function GroupByCity(rows: seq<Row>): (gs: seq<CityGroup>)
    ensures GroupedBy(rows, gs)
    ensures TotalUsers(gs) == |rows|
  {
    if rows == [] then []
    else
      var prev := GroupByCity(rows[..|rows| - 1]);
      var gs := AddRow(prev, rows[|rows| - 1]);
      AddRowAddsOne(prev, rows[|rows| - 1]);
      GroupStepCovers(rows, prev, gs);
      GroupStepUsers(rows, prev, gs);
      GroupStepDistinct(rows, prev, gs);
      gs
  }

  lemma {:induction false} GroupStepCovers(rows: seq<Row>, prev: seq<CityGroup>, gs: seq<CityGroup>)
    requires rows != []
    requires GroupedBy(rows[..|rows| - 1], prev)
    requires gs == AddRow(prev, rows[|rows| - 1])
    ensures forall k :: 0 <= k < |rows| ==> rows[k].city in Cities(gs)
  {
    var init := rows[..|rows| - 1];
    var r := rows[|rows| - 1];
    AddRowCities(prev, r);
    forall k | 0 <= k < |rows|
      ensures rows[k].city in Cities(gs)
    {
      if k < |rows| - 1 {
        assert init[k] == rows[k];
        assert rows[k].city in Cities(prev);
      }
    }
  }

  lemma {:induction false} GroupStepUsers(rows: seq<Row>, prev: seq<CityGroup>, gs: seq<CityGroup>)
    requires rows != []
    requires GroupedBy(rows[..|rows| - 1], prev)
    requires gs == AddRow(prev, rows[|rows| - 1])
    ensures forall i :: 0 <= i < |gs| ==> gs[i].users == UsersOf(rows, gs[i].city) && gs[i].users != []
  {
    forall i | 0 <= i < |gs|
      ensures gs[i].users == UsersOf(rows, gs[i].city) && gs[i].users != []
    {
      if i < |prev| {
        OldCityGrows(rows, prev, gs, i);
      } else {
        assert i == |prev|;
        NewCityStarts(rows, prev, gs);
      }
    }
  }

  /** A city already grouped gets the new row's subscriber appended exactly when the row names it. */
  lemma {:induction false} OldCityGrows(rows: seq<Row>, prev: seq<CityGroup>, gs: seq<CityGroup>, i: nat)
    requires rows != [] && DistinctCities(prev)
    requires gs == AddRow(prev, rows[|rows| - 1])
    requires i < |prev|
    requires prev[i].users == UsersOf(rows[..|rows| - 1], prev[i].city) && prev[i].users != []
    ensures gs[i].users == UsersOf(rows, gs[i].city) && gs[i].users != []
  {
    var r := rows[|rows| - 1];
    assert UsersOf(rows, prev[i].city)
        == UsersOf(rows[..|rows| - 1], prev[i].city) + (if r.city == prev[i].city then [Subscriber(r.userId, r.email)] else []);
  }

  /** A city first named by the last row starts with that row's subscriber alone. */
  lemma {:induction false} NewCityStarts(rows: seq<Row>, prev: seq<CityGroup>, gs: seq<CityGroup>)
    requires rows != []
    requires GroupedBy(rows[..|rows| - 1], prev)
    requires gs == AddRow(prev, rows[|rows| - 1])
    requires |prev| < |gs|
    ensures gs[|prev|].users == UsersOf(rows, gs[|prev|].city) && gs[|prev|].users != []
  {
    var init := rows[..|rows| - 1];
    var r := rows[|rows| - 1];
    forall k | 0 <= k < |init|
      ensures init[k].city != r.city
    {
      assert init[k].city in Cities(prev);
    }
    EmptyUsersOf(init, r.city);
  }

  lemma {:induction false} GroupStepDistinct(rows: seq<Row>, prev: seq<CityGroup>, gs: seq<CityGroup>)
    requires rows != []
    requires DistinctCities(prev)
    requires gs == AddRow(prev, rows[|rows| - 1])
    ensures DistinctCities(gs)
  {
    var r := rows[|rows| - 1];
    forall i, j | 0 <= i < j < |gs|
      ensures gs[i].city != gs[j].city
    {
      assert gs[i].city == prev[i].city;
      if j < |prev| {
        assert gs[j].city == prev[j].city;
      } else {
        assert j == |prev| && r.city !in Cities(prev);
        assert gs[j].city == r.city;
        assert Cities(prev)[i] == prev[i].city;
      }
    }
  }

  /** A city that no row names has no subscribers. */
  lemma {:induction false} EmptyUsersOf(rows: seq<Row>, city: string)
    requires forall k :: 0 <= k < |rows| ==> rows[k].city != city
    ensures UsersOf(rows, city) == []
  {
    if rows != [] {
      EmptyUsersOf(rows[..|rows| - 1], city);
    }
  }

  /** Duplicate rows are not collapsed: each row contributes one subscriber entry. */
  lemma {:induction false} UsersOfCountsRows(rows: seq<Row>, city: string)
    ensures |UsersOf(rows, city)| == CountIf(rows, (r: Row) => r.city == city)
  {
    if rows != [] {
      var init := rows[..|rows| - 1];
      var last := rows[|rows| - 1];
      UsersOfCountsRows(init, city);
      assert rows == init + [last];
      CountIfAppend(init, [last], (r: Row) => r.city == city);
    }
  }

  // --------------------------------------------------- metro and filter

  /** `city.split('-')[0]`: the part of the city key before its first dash. */
  function Metro(city: string): (m: string)
    ensures m <= city
    ensures '-' !in m
    ensures |m| < |city| ==> city[|m|] == '-'
  {
    if city == [] || city[0] == '-' then [] else [city[0]] + Metro(city[1..])
  }

  function Field(p: Permit, k: string): string
  {
    if k in p then p[k] else ""
  }

  /** The key a permit is matched against: `metro-county`, missing fields read as empty. */
  function CityKey(p: Permit): string
  {
    Field(p, "metro") + "-" + Field(p, "county")
  }

  /** Whether a permit belongs to the city key. */
  predicate InCity(city: string, p: Permit)
  {
    CityKey(p) == city
  }

  /** The scraped permits that belong to exactly this city key, in scrape order. */
  function CityPermits(all: seq<Permit>, city: string): (ps: seq<Permit>)
    ensures |ps| == CountIf(all, p => InCity(city, p))
    ensures forall i :: 0 <= i < |ps| ==> ps[i] in all && CityKey(ps[i]) == city
    ensures forall i :: 0 <= i < |all| && CityKey(all[i]) == city ==> all[i] in ps
  {
    Filter(all, p => InCity(city, p))
  }

  /**
    The city filter keeps scrape order and every copy: it works piece by
    piece, and a single permit is kept exactly when its key is the city's.
   */
  lemma {:induction false} CityPermitsInOrder(a: seq<Permit>, b: seq<Permit>, x: Permit, city: string)
    ensures CityPermits(a + b, city) == CityPermits(a, city) + CityPermits(b, city)
    ensures CityPermits([x], city) == if CityKey(x) == city then [x] else []
  {
    FilterAppend(a, b, p => InCity(city, p));
    FilterOne(x, p => InCity(city, p));
  }

  /** A permit whose metro field has no dash reads that metro back from its city key. */
  lemma {:induction false} MetroOfCityKey(p: Permit)
    requires '-' !in Field(p, "metro")
    ensures Metro(CityKey(p)) == Field(p, "metro")
  {
    MetroOfJoin(Field(p, "metro"), Field(p, "county"));
  }

  lemma {:induction false} MetroOfJoin(m: string, rest: string)
    requires '-' !in m
    ensures Metro(m + "-" + rest) == m
  {
    var key := m + "-" + rest;
    assert key[|m|] == '-';
  }

  /** `p.get(key, '')`: missing fields read as empty, so a permit with neither field has the key `-`. */
  lemma {:induction false} MissingFieldsReadEmpty(p: Permit)
    requires "metro" !in p && "county" !in p
    ensures CityKey(p) == "-"
  {
  }

  // -------------------------------------------------------- collaborators

  /**
    The run's collaborators over an opaque world state. `saveFreshDump`
    yields the dump file, `None` or a path; an empty path is falsy too.
   */
  datatype Env<!W> = Env(
    activeSubscribers: W -> (W, Fallible<seq<Row>>),
    scrapeAllRegions: (W, seq<string>) -> (W, Fallible<seq<Permit>>),
    filterNewPermits: (W, string, seq<Permit>) -> (W, Fallible<seq<Permit>>),
    saveFreshDump: (W, string, string, seq<Permit>) -> (W, Fallible<Option<string>>),
    sendPermitEmail: (W, string, string, nat, string) -> (W, Fallible<()>),
    cleanupOldSeenPermits: (W, nat) -> (W, Fallible<int>))

  /** One collaborator call of a run, with its outcome. */
  datatype Event =
    | WaitUntil(start: int)
    | FetchSubscribers(rows: Fallible<seq<Row>>)
    | Scrape(metros: seq<string>, scraped: Fallible<seq<Permit>>)
    | FilterNew(city: string, candidates: seq<Permit>, novel: Fallible<seq<Permit>>)
    | SaveDump(city: string, userId: string, permits: seq<Permit>, file: Fallible<Option<string>>)
    | SendEmail(to: string, city: string, permitCount: nat, attachment: string, sent: Fallible<()>)
    | Cleanup(days: nat, deleted: Fallible<int>)

  /** How `scrape_and_feed` ended; `Crashed` is an exception escaping it. */
  datatype Ending = WeekendSkip | NoSubscribers | Completed | Crashed

  datatype Step<W> = Step(world: W, events: seq<Event>)

  datatype RunResult<W> = RunResult(world: W, trace: seq<Event>, ending: Ending)

  predicate Truthy(file: Option<string>)
  {
    file.Some? && file.value != ""
  }

  /** Events that the per-city part of a run may emit. */
  predicate CityEvent(e: Event)
  {
    e.Scrape? || e.FilterNew? || e.SaveDump? || e.SendEmail?
  }

  // ------------------------------------------------------------ the run

  /** Feeding one subscriber: save the dump and, if it yielded a file, email it. */
  function Feed<W>(env: Env<W>, w: W, city: string, u: Subscriber, novel: seq<Permit>): (r: Step<W>)
    ensures 1 <= |r.events| <= 2
    ensures r.events[0].SaveDump? && r.events[0].city == city && r.events[0].userId == u.userId
    ensures r.events[0].permits == novel
    ensures |r.events| == 2 <==> r.events[0].file.Ok? && Truthy(r.events[0].file.value)
    ensures |r.events| == 2 ==>
              && r.events[1].SendEmail? && r.events[1].to == u.email && r.events[1].city == city
              && r.events[1].permitCount == |novel| && r.events[1].attachment == r.events[0].file.value.value
  {
    var (w1, dump) := env.saveFreshDump(w, city, u.userId, novel);
    var saved := SaveDump(city, u.userId, novel, dump);
    if dump.Ok? && Truthy(dump.value) then
      var (w2, sent) := env.sendPermitEmail(w1, u.email, city, |novel|, dump.value.value);
      Step(w2, [saved, SendEmail(u.email, city, |novel|, dump.value.value, sent)])
    else
      Step(w1, [saved])
  }

  /** The subscriber loop of one city; a raise while feeding one subscriber moves on to the next. */
  function FanOut<W>(env: Env<W>, w: W, city: string, users: seq<Subscriber>, novel: seq<Permit>): (r: Step<W>)
    ensures forall i :: 0 <= i < |r.events| ==>
              (r.events[i].SaveDump? || r.events[i].SendEmail?) && r.events[i].city == city
    decreases |users|
  {
    if users == [] then Step(w, [])
    else
      var first := Feed(env, w, city, users[0], novel);
      var rest := FanOut(env, first.world, city, users[1..], novel);
      Step(rest.world, first.events + rest.events)
  }

  /** One iteration of the city loop; a raise anywhere in it moves on to the next city. */
  function ProcessCity<W>(env: Env<W>, w: W, g: CityGroup): (r: Step<W>)
    ensures 1 <= |r.events|
    ensures forall i :: 0 <= i < |r.events| ==> CityEvent(r.events[i])
    ensures r.events[0].Scrape? && r.events[0].metros == [Metro(g.city)]
    ensures forall i :: 1 <= i < |r.events| ==> !r.events[i].Scrape?
  {
    var metro := Metro(g.city);
    var (w1, scraped) := env.scrapeAllRegions(w, [metro]);
    var scrape := Scrape([metro], scraped);
    if scraped.Raised? || scraped.value == [] then Step(w1, [scrape])
    else
      var candidates := CityPermits(scraped.value, g.city);
      if candidates == [] then Step(w1, [scrape])
      else
        var (w2, novel) := env.filterNewPermits(w1, g.city, candidates);
        var filtered := FilterNew(g.city, candidates, novel);
        if novel.Raised? || novel.value == [] then Step(w2, [scrape, filtered])
        else
          var fed := FanOut(env, w2, g.city, g.users, novel.value);
          Step(fed.world, [scrape, filtered] + fed.events)
  }

  /** The city loop, over the groups in insertion order. */
  function ProcessCities<W>(env: Env<W>, w: W, gs: seq<CityGroup>): (r: Step<W>)
    ensures forall i :: 0 <= i < |r.events| ==> CityEvent(r.events[i])
    decreases |gs|
  {
    if gs == [] then Step(w, [])
    else
      var first := ProcessCity(env, w, gs[0]);
      var rest := ProcessCities(env, first.world, gs[1..]);
      Step(rest.world, first.events + rest.events)
  }

  /**
    `scrape_and_feed` at local instant `now` (seconds), with the random
    generator's `draw` for the wait.
   */
  function ScrapeAndFeed<W>(env: Env<W>, w: W, now: int, draw: nat): (r: RunResult<W>)
    ensures IsWeekend(now) <==> r.ending == WeekendSkip
    ensures IsWeekend(now) ==> r.trace == [] && r.world == w
    ensures !IsWeekend(now) ==>
              |r.trace| >= 2 && r.trace[0] == WaitUntil(StartInstant(now, draw)) && r.trace[1].FetchSubscribers?
    ensures r.ending == NoSubscribers <==> !IsWeekend(now) && r.trace[1] == FetchSubscribers(Ok([]))
    ensures r.ending == NoSubscribers ==> |r.trace| == 2
  {
    if IsWeekend(now) then RunResult(w, [], WeekendSkip)
    else
      var start := StartInstant(now, draw);
      var (w1, subs) := env.activeSubscribers(w);
      var head := [WaitUntil(start), FetchSubscribers(subs)];
      if subs.Raised? then RunResult(w1, head, Crashed)
      else if subs.value == [] then RunResult(w1, head, NoSubscribers)
      else
        var cities := ProcessCities(env, w1, GroupByCity(subs.value));
        var (w2, deleted) := env.cleanupOldSeenPermits(cities.world, RetentionDays);
        RunResult(w2, head + cities.events + [Cleanup(RetentionDays, deleted)],
                  if deleted.Raised? then Crashed else Completed)
  }

  /** The run gets past the weekend gate and the subscriber check into the city loop. */
  predicate ReachedCityLoop<W>(env: Env<W>, w: W, now: int)
  {
    !IsWeekend(now) && env.activeSubscribers(w).1.Ok? && env.activeSubscribers(w).1.value != []
  }

  // ------------------------------------------------------ trace queries

  function ScrapeCalls(t: seq<Event>): (ms: seq<seq<string>>)
    ensures |ms| <= |t|
  {
    if t == [] then []
    else (if t[0].Scrape? then [t[0].metros] else []) + ScrapeCalls(t[1..])
  }

  function CleanupCalls(t: seq<Event>): (ds: seq<nat>)
    ensures |ds| <= |t|
  {
    if t == [] then []
    else (if t[0].Cleanup? then [t[0].days] else []) + CleanupCalls(t[1..])
  }

  function DumpedUsers(t: seq<Event>): (us: seq<string>)
    ensures |us| <= |t|
  {
    if t == [] then []
    else (if t[0].SaveDump? then [t[0].userId] else []) + DumpedUsers(t[1..])
  }

  function MetroCalls(gs: seq<CityGroup>): (ms: seq<seq<string>>)
    ensures |ms| == |gs|
  {
    if gs == [] then [] else [[Metro(gs[0].city)]] + MetroCalls(gs[1..])
  }

  function UserIds(users: seq<Subscriber>): (ids: seq<string>)
    ensures |ids| == |users|
  {
    if users == [] then [] else [users[0].userId] + UserIds(users[1..])
  }

  lemma {:induction false} ScrapeCallsAppend(a: seq<Event>, b: seq<Event>)
    ensures ScrapeCalls(a + b) == ScrapeCalls(a) + ScrapeCalls(b)
  {
    if a == [] {
      assert a + b == b;
    } else {
      assert (a + b)[0] == a[0];
      assert (a + b)[1..] == a[1..] + b;
      ScrapeCallsAppend(a[1..], b);
    }
  }

  lemma {:induction false} CleanupCallsAppend(a: seq<Event>, b: seq<Event>)
    ensures CleanupCalls(a + b) == CleanupCalls(a) + CleanupCalls(b)
  {
    if a == [] {
      assert a + b == b;
    } else {
      assert (a + b)[0] == a[0];
      assert (a + b)[1..] == a[1..] + b;
      CleanupCallsAppend(a[1..], b);
    }
  }

  lemma {:induction false} DumpedUsersAppend(a: seq<Event>, b: seq<Event>)
    ensures DumpedUsers(a + b) == DumpedUsers(a) + DumpedUsers(b)
  {
    if a == [] {
      assert a + b == b;
    } else {
      assert (a + b)[0] == a[0];
      assert (a + b)[1..] == a[1..] + b;
      DumpedUsersAppend(a[1..], b);
    }
  }

  lemma {:induction false} NoCleanupAmongCityEvents(t: seq<Event>)
    requires forall i :: 0 <= i < |t| ==> CityEvent(t[i])
    ensures CleanupCalls(t) == []
  {
    if t != [] {
      NoCleanupAmongCityEvents(t[1..]);
    }
  }

  // ------------------------------------------------------------- lemmas

  /** Every subscriber of the city gets a dump attempt, in order, whatever happened to the others. */
  lemma {:induction false} FanOutFeedsEveryUser<W>(env: Env<W>, w: W, city: string, users: seq<Subscriber>, novel: seq<Permit>)
    ensures DumpedUsers(FanOut(env, w, city, users, novel).events) == UserIds(users)
    decreases |users|
  {
    if users != [] {
      var first := Feed(env, w, city, users[0], novel);
      var rest := FanOut(env, first.world, city, users[1..], novel);
      FanOutFeedsEveryUser(env, first.world, city, users[1..], novel);
      DumpedUsersAppend(first.events, rest.events);
      assert first.events[1..] == [] || first.events[1..] == [first.events[1]];
      assert DumpedUsers(first.events) == [users[0].userId];
    }
  }

  /** The email at position `i` follows a dump that returned a truthy file and carries the full count. */
  predicate EmailFollowsDump(t: seq<Event>, i: int, novel: seq<Permit>)
    requires 0 <= i < |t|
  {
    && t[i].SendEmail? && 0 < i && t[i - 1].SaveDump?
    && t[i - 1].file == Ok(Some(t[i].attachment)) && t[i].attachment != ""
    && t[i].permitCount == |novel|
  }

  /** The shape of a subscriber loop's events. */
  predicate FanOutShape(t: seq<Event>, novel: seq<Permit>)
  {
    && (|t| > 0 ==> t[0].SaveDump?)
    && (forall i :: 0 <= i < |t| ==> t[i].SaveDump? || t[i].SendEmail?)
    && (forall i :: 0 <= i < |t| && t[i].SaveDump? ==> t[i].permits == novel)
    && (forall i :: 0 <= i < |t| && t[i].SendEmail? ==> EmailFollowsDump(t, i, novel))
  }

  lemma {:induction false} ConcatFanOutShape(a: seq<Event>, b: seq<Event>, novel: seq<Permit>)
    requires FanOutShape(a, novel) && FanOutShape(b, novel)
    ensures FanOutShape(a + b, novel)
  {
    var t := a + b;
    forall i | 0 <= i < |t| && t[i].SendEmail?
      ensures EmailFollowsDump(t, i, novel)
    {
      if i < |a| {
        assert t[i] == a[i];
        assert EmailFollowsDump(a, i, novel);
        assert t[i - 1] == a[i - 1];
      } else {
        var j := i - |a|;
        assert t[i] == b[j];
        assert j != 0;
        assert EmailFollowsDump(b, j, novel);
        assert t[i - 1] == b[j - 1];
      }
    }
  }

  /**
    In the subscriber loop, an email is attempted only right after a dump
    that returned a truthy file, with that file and with the full count of
    new permits; every dump carries the full new batch.
   */
  lemma {:induction false} FanOutEmailsFollowDumps<W>(env: Env<W>, w: W, city: string, users: seq<Subscriber>, novel: seq<Permit>)
    ensures FanOutShape(FanOut(env, w, city, users, novel).events, novel)
    decreases |users|
  {
    if users != [] {
      var first := Feed(env, w, city, users[0], novel);
      var rest := FanOut(env, first.world, city, users[1..], novel);
      FanOutEmailsFollowDumps(env, first.world, city, users[1..], novel);
      var a := first.events;
      if |a| == 2 {
        assert EmailFollowsDump(a, 1, novel);
      }
      assert FanOutShape(a, novel);
      ConcatFanOutShape(a, rest.events, novel);
    }
  }

  predicate IsDump(e: Event)
  {
    e.SaveDump?
  }

  /** The number of dumps in `t` before position `i`. */
  function DumpsBefore(t: seq<Event>, i: nat): nat
    requires i <= |t|
  {
    CountIf(t[..i], IsDump)
  }

  /**
    Who each event of a subscriber loop is for: the `k`-th dump is for
    `users[k]`, an email goes to the subscriber of the dump before it, and
    there is one dump per subscriber.
   */
  predicate Recipients(t: seq<Event>, users: seq<Subscriber>)
  {
    && CountIf(t, IsDump) == |users|
    && (forall i :: 0 <= i < |t| && t[i].SaveDump? ==>
          DumpsBefore(t, i) < |users| && t[i].userId == users[DumpsBefore(t, i)].userId)
    && (forall i :: 0 <= i < |t| && t[i].SendEmail? ==>
          0 < DumpsBefore(t, i) <= |users| && t[i].to == users[DumpsBefore(t, i) - 1].email)
  }

  /**
    Every dump of the subscriber loop is for the subscriber at its place in
    the list, and every email goes to the address of the subscriber whose
    dump comes just before it.
   */
  lemma {:induction false} FanOutRecipients<W>(env: Env<W>, w: W, city: string, users: seq<Subscriber>, novel: seq<Permit>)
    ensures Recipients(FanOut(env, w, city, users, novel).events, users)
    decreases |users|
  {
    if users != [] {
      var first := Feed(env, w, city, users[0], novel);
      var rest := FanOut(env, first.world, city, users[1..], novel);
      FanOutRecipients(env, first.world, city, users[1..], novel);
      RecipientsCons(first.events, rest.events, users[0], users[1..]);
      assert [users[0]] + users[1..] == users;
    }
  }

  /** One subscriber's events in front of the loop over the others. */
  lemma {:induction false} RecipientsCons(a: seq<Event>, b: seq<Event>, u: Subscriber, others: seq<Subscriber>)
    requires 1 <= |a| <= 2 && a[0].SaveDump? && a[0].userId == u.userId
    requires |a| == 2 ==> a[1].SendEmail? && a[1].to == u.email
    requires Recipients(b, others)
    ensures Recipients(a + b, [u] + others)
  {
    var t := a + b;
    var us := [u] + others;
    OneDumpPerBlock(a);
    CountIfAppend(a, b, IsDump);
    forall i | 0 <= i < |t|
      ensures t[i].SaveDump? ==> DumpsBefore(t, i) < |us| && t[i].userId == us[DumpsBefore(t, i)].userId
      ensures t[i].SendEmail? ==> 0 < DumpsBefore(t, i) <= |us| && t[i].to == us[DumpsBefore(t, i) - 1].email
    {
      if i < |a| {
        HeadRecipient(a, b, u, others, i);
      } else {
        TailRecipient(a, b, u, others, i - |a|);
      }
    }
  }

  /** The leading block's dump and email are for its own subscriber. */
  lemma {:induction false} HeadRecipient(a: seq<Event>, b: seq<Event>, u: Subscriber, others: seq<Subscriber>, i: nat)
    requires i < |a| <= 2 && a[0].SaveDump? && a[0].userId == u.userId
    requires |a| == 2 ==> a[1].SendEmail? && a[1].to == u.email
    ensures var t, us := a + b, [u] + others;
      && (t[i].SaveDump? ==> DumpsBefore(t, i) < |us| && t[i].userId == us[DumpsBefore(t, i)].userId)
      && (t[i].SendEmail? ==> 0 < DumpsBefore(t, i) <= |us| && t[i].to == us[DumpsBefore(t, i) - 1].email)
  {
    DumpsBeforeHead(a, b, i);
    assert (a + b)[i] == a[i];
  }

  /** An event of the later subscribers keeps its recipient behind the leading block. */
  lemma {:induction false} TailRecipient(a: seq<Event>, b: seq<Event>, u: Subscriber, others: seq<Subscriber>, j: nat)
    requires j < |b| && CountIf(a, IsDump) == 1
    requires b[j].SaveDump? ==> DumpsBefore(b, j) < |others| && b[j].userId == others[DumpsBefore(b, j)].userId
    requires b[j].SendEmail? ==> 0 < DumpsBefore(b, j) <= |others| && b[j].to == others[DumpsBefore(b, j) - 1].email
    ensures var t, i, us := a + b, |a| + j, [u] + others;
      && (t[i].SaveDump? ==> DumpsBefore(t, i) < |us| && t[i].userId == us[DumpsBefore(t, i)].userId)
      && (t[i].SendEmail? ==> 0 < DumpsBefore(t, i) <= |us| && t[i].to == us[DumpsBefore(t, i) - 1].email)
  {
    DumpsBeforeTail(a, b, j);
    assert (a + b)[|a| + j] == b[j];
  }

  lemma {:induction false} OneDumpPerBlock(a: seq<Event>)
    requires 1 <= |a| <= 2 && a[0].SaveDump?
    requires |a| == 2 ==> a[1].SendEmail?
    ensures CountIf(a, IsDump) == 1
  {
    if |a| == 2 {
      assert a[1..][1..] == [];
    } else {
      assert a[1..] == [];
    }
  }

  /** Inside the leading block, the dump is the only event that can precede. */
  lemma {:induction false} DumpsBeforeHead(a: seq<Event>, b: seq<Event>, i: nat)
    requires i < |a| <= 2 && a[0].SaveDump?
    ensures DumpsBefore(a + b, i) == i
  {
    if i == 0 {
      assert (a + b)[..i] == [];
    } else {
      assert (a + b)[..i] == [a[0]];
      assert [a[0]][1..] == [];
    }
  }

  lemma {:induction false} DumpsBeforeTail(a: seq<Event>, b: seq<Event>, j: nat)
    requires j <= |b|
    ensures DumpsBefore(a + b, |a| + j) == CountIf(a, IsDump) + DumpsBefore(b, j)
  {
    assert (a + b)[..|a| + j] == a + b[..j];
    CountIfAppend(a, b[..j], IsDump);
  }

  /**
    Nothing is dumped or emailed for a city unless the scrape returned a
    non-empty list, the city's own permits among them are non-empty and
    were handed to the novelty filter, and the filter returned a non-empty
    list; that list is what every dump carries.
   */
  lemma {:induction false} CityGate<W>(env: Env<W>, w: W, g: CityGroup)
    ensures var t := ProcessCity(env, w, g).events;
            |t| > 2 ==>
              && t[0].scraped.Ok? && t[0].scraped.value != []
              && t[1].FilterNew? && t[1].city == g.city
              && t[1].candidates == CityPermits(t[0].scraped.value, g.city) && t[1].candidates != []
              && t[1].novel.Ok? && t[1].novel.value != []
              && FanOutShape(t[2..], t[1].novel.value)
              && Recipients(t[2..], g.users)
    ensures var t := ProcessCity(env, w, g).events;
            |t| <= 2 ==> forall i :: 0 <= i < |t| ==> t[i].Scrape? || t[i].FilterNew?
  {
    var metro := Metro(g.city);
    var (w1, scraped) := env.scrapeAllRegions(w, [metro]);
    if scraped.Ok? && scraped.value != [] {
      var candidates := CityPermits(scraped.value, g.city);
      if candidates != [] {
        var (w2, novel) := env.filterNewPermits(w1, g.city, candidates);
        if novel.Ok? && novel.value != [] {
          FanOutEmailsFollowDumps(env, w2, g.city, g.users, novel.value);
          FanOutRecipients(env, w2, g.city, g.users, novel.value);
        }
      }
    }
  }

  /**
    Failure isolation between subscribers: once the novelty filter returned
    new permits for a city, every subscriber of that city gets a dump
    attempt, in order.
   */
  lemma {:induction false} CityFeedsEveryUser<W>(env: Env<W>, w: W, g: CityGroup)
    ensures var t := ProcessCity(env, w, g).events;
            |t| >= 2 && t[1].novel.Ok? && t[1].novel.value != [] ==> DumpedUsers(t) == UserIds(g.users)
  {
    var metro := Metro(g.city);
    var (w1, scraped) := env.scrapeAllRegions(w, [metro]);
    if scraped.Ok? && scraped.value != [] {
      var candidates := CityPermits(scraped.value, g.city);
      if candidates != [] {
        var (w2, novel) := env.filterNewPermits(w1, g.city, candidates);
        if novel.Ok? && novel.value != [] {
          var fed := FanOut(env, w2, g.city, g.users, novel.value);
          var head := [Scrape([metro], scraped), FilterNew(g.city, candidates, novel)];
          assert ProcessCity(env, w, g).events == head + fed.events;
          assert DumpedUsers(head) == [];
          FanOutFeedsEveryUser(env, w2, g.city, g.users, novel.value);
          DumpedUsersAppend(head, fed.events);
        }
      }
    }
  }

  /** One city iteration calls the scraper exactly once, with the city's metro, whatever follows. */
  lemma {:induction false} CityScrapedOnce<W>(env: Env<W>, w: W, g: CityGroup)
    ensures ScrapeCalls(ProcessCity(env, w, g).events) == [[Metro(g.city)]]
  {
    var t := ProcessCity(env, w, g).events;
    assert t == [t[0]] + t[1..];
    ScrapeCallsAppend([t[0]], t[1..]);
    NoScrapeAfterFirst(t[1..]);
  }

  /** Failure isolation between cities: each city is scraped exactly once, in group order, with its metro. */
  lemma {:induction false} EveryCityScraped<W>(env: Env<W>, w: W, gs: seq<CityGroup>)
    ensures ScrapeCalls(ProcessCities(env, w, gs).events) == MetroCalls(gs)
    decreases |gs|
  {
    if gs != [] {
      var first := ProcessCity(env, w, gs[0]);
      var rest := ProcessCities(env, first.world, gs[1..]);
      EveryCityScraped(env, first.world, gs[1..]);
      ScrapeCallsAppend(first.events, rest.events);
      CityScrapedOnce(env, w, gs[0]);
    }
  }

  lemma {:induction false} NoScrapeAfterFirst(t: seq<Event>)
    requires forall i :: 0 <= i < |t| ==> !t[i].Scrape?
    ensures ScrapeCalls(t) == []
  {
    if t != [] {
      NoScrapeAfterFirst(t[1..]);
    }
  }

  /**
    A run that reaches the city loop scrapes every city group once and ends
    with exactly one cleanup, with the 30-day horizon, after all cities; a
    run that does not reach it scrapes nothing and cleans nothing.
   */
  lemma {:induction false} RunCleansUpOnce<W>(env: Env<W>, w: W, now: int, draw: nat)
    ensures var r := ScrapeAndFeed(env, w, now, draw);
            ReachedCityLoop(env, w, now) ==>
              && CleanupCalls(r.trace) == [RetentionDays]
              && r.trace[|r.trace| - 1].Cleanup?
              && ScrapeCalls(r.trace) == MetroCalls(GroupByCity(env.activeSubscribers(w).1.value))
              && (r.ending == Completed || r.ending == Crashed)
    ensures var r := ScrapeAndFeed(env, w, now, draw);
            !ReachedCityLoop(env, w, now) ==> CleanupCalls(r.trace) == [] && ScrapeCalls(r.trace) == []
  {
    if ReachedCityLoop(env, w, now) {
      ReachedRunCalls(env, w, now, draw);
    } else {
      UnreachedRunCalls(env, w, now, draw);
    }
  }

  lemma {:induction false} ReachedRunCalls<W>(env: Env<W>, w: W, now: int, draw: nat)
    requires ReachedCityLoop(env, w, now)
    ensures var r := ScrapeAndFeed(env, w, now, draw);
            && CleanupCalls(r.trace) == [RetentionDays]
            && r.trace[|r.trace| - 1].Cleanup?
            && ScrapeCalls(r.trace) == MetroCalls(GroupByCity(env.activeSubscribers(w).1.value))
            && (r.ending == Completed || r.ending == Crashed)
  {
    var (w1, subs) := env.activeSubscribers(w);
    var head := [WaitUntil(StartInstant(now, draw)), FetchSubscribers(subs)];
    var gs := GroupByCity(subs.value);
    var cities := ProcessCities(env, w1, gs);
    var deleted := env.cleanupOldSeenPermits(cities.world, RetentionDays).1;
    var tail := [Cleanup(RetentionDays, deleted)];
    var t := ScrapeAndFeed(env, w, now, draw).trace;
    assert t == head + cities.events + tail;
    RunTraceCalls(t, head, cities.events, deleted);
    EveryCityScraped(env, w1, gs);
  }

  /** A trace made of the run's head, city events and the final cleanup. */
  lemma {:induction false} RunTraceCalls(t: seq<Event>, head: seq<Event>, events: seq<Event>, deleted: Fallible<int>)
    requires |head| == 2 && head[0].WaitUntil? && head[1].FetchSubscribers?
    requires forall i :: 0 <= i < |events| ==> CityEvent(events[i])
    requires t == head + events + [Cleanup(RetentionDays, deleted)]
    ensures CleanupCalls(t) == [RetentionDays]
    ensures ScrapeCalls(t) == ScrapeCalls(events)
    ensures t[|t| - 1].Cleanup?
  {
    CallsOfThree(head, events, [Cleanup(RetentionDays, deleted)]);
    HeadCalls(head);
    TailCalls(deleted);
    NoCleanupAmongCityEvents(events);
  }

  /** Short of the city loop the trace is empty or the wait and the subscriber fetch alone. */
  lemma {:induction false} UnreachedRunCalls<W>(env: Env<W>, w: W, now: int, draw: nat)
    requires !ReachedCityLoop(env, w, now)
    ensures var r := ScrapeAndFeed(env, w, now, draw);
            CleanupCalls(r.trace) == [] && ScrapeCalls(r.trace) == []
  {
    var t := ScrapeAndFeed(env, w, now, draw).trace;
    assert t == [] || (|t| == 2 && t[0].WaitUntil? && t[1].FetchSubscribers?);
    if t != [] {
      HeadCalls(t);
    }
  }

  /** The run's first two events, the wait and the subscriber fetch, call neither scraper nor cleanup. */
  lemma {:induction false} HeadCalls(head: seq<Event>)
    requires |head| == 2 && head[0].WaitUntil? && head[1].FetchSubscribers?
    ensures CleanupCalls(head) == [] && ScrapeCalls(head) == []
  {
    assert head[1..][1..] == [];
  }

  lemma {:induction false} TailCalls(deleted: Fallible<int>)
    ensures CleanupCalls([Cleanup(RetentionDays, deleted)]) == [RetentionDays]
    ensures ScrapeCalls([Cleanup(RetentionDays, deleted)]) == []
  {
    assert [Cleanup(RetentionDays, deleted)][1..] == [];
  }

  lemma {:induction false} CallsOfThree(a: seq<Event>, b: seq<Event>, c: seq<Event>)
    ensures CleanupCalls(a + b + c) == CleanupCalls(a) + CleanupCalls(b) + CleanupCalls(c)
    ensures ScrapeCalls(a + b + c) == ScrapeCalls(a) + ScrapeCalls(b) + ScrapeCalls(c)
  {
    CleanupCallsAppend(a + b, c);
    CleanupCallsAppend(a, b);
    ScrapeCallsAppend(a + b, c);
    ScrapeCallsAppend(a, b);
  }
}
