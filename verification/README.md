# Permit-leads core in Dafny

This project models the sequential rules at the heart of a contractor
permit-leads service:

- **The daily scrape-and-feed run** (`Cron`):
  - a weekend gate, then a randomised start instant;
  - subscriber rows grouped by city;
  - a scrape per metro, then a per-city permit filter and a novelty filter;
  - a fan-out of a dump and an email to every subscriber of a city;
  - one retention cleanup at the end.

  The collaborators stay uninterpreted: the subscriber directory, the
  regional scraper, the novelty filter, the dump writer, the email sender
  and the cleanup. Each is a function of an opaque world state that
  returns a new world and either a value or a raised exception. The run is
  a fold over the city groups that records every collaborator call in an
  effect trace.
- **The stand-alone randomised scheduler** (`Scheduler`):
  - a 05:00–05:30 window at a fixed UTC-6 offset;
  - a roll-over to the next day;
  - a random whole-second offset inside the window;
  - a non-negative sleep.
- **Saving a permit batch** (`PermitStore`):
  - every permit is tagged with the batch id;
  - document ids are `county_permitnumber` with spaces turned into underscores;
  - the writes act as last-writer-wins map updates;
  - a permit with a missing key aborts the batch before the commit.
- **Address blurring for unpaid visitors** (`Blur`):
  - the first street suffix of a fixed list that occurs as a whole word;
  - the location after the first comma;
  - otherwise a trailing five-digit zip.
- **The lead-score rewrite on load** (`Leads`): a score of exactly 90 is
  replaced by a random score between 75 and 98.
- **The daily digest e-mail** (`Digest`):
  - the header count capped at 50;
  - the leads rendered;
  - the colour band of each score;
  - the skip, sent and failed tallies of the delivery loop.

The shared pieces live in `Common`:

- `random.randint(lo, hi)` is modelled as `lo + draw % (hi - lo + 1)` for
  an arbitrary natural `draw`. A lemma shows that every value of the range
  is reachable this way.
- Python's `None`-or-value is `Option`.
- A call that may raise is `Fallible`.

Time is handled as follows:

- In the cron run, time is local seconds since the epoch. `weekday()` is
  derived from the day number, since 1970-01-01 was a Thursday.
- In the scheduler, time is UTC microseconds, because `utcnow()` carries
  microseconds.

### Where the code and its description differ

The model follows the code in each case:

- The run promises to run "once daily on weekdays"
  (auto_scraper_cron.py:3, 29, 155). The weekend gate is checked at 05:00,
  but the scrape itself waits 1800–1950 minutes from that 05:00, so it
  lands between 11:00 and 13:30 of the next calendar day
  (`Cron.StartIsNextDay`).
  - The scrapes therefore fall on Tuesday to Saturday
    (`Cron.ScrapeDaysTuesdayToSaturday`).
  - A Friday run scrapes on a Saturday (`Cron.FridayRunScrapesOnSaturday`).
  - No scrape ever happens on a Monday, because the run that would
    produce it is Sunday's, and the gate skips that one.
- Subscriber grouping does not collapse duplicate rows. A subscriber listed
  twice for a city gets two dumps and two emails.
- `save_permits` does no deduplication of its own. Equal document ids
  simply overwrite each other inside the batch, and the later permit wins.
- Document ids are not injective. `"A B"`/`"1"`, `"A_B"`/`"1"` and
  `"A"`/`"B_1"` all map to `A_B_1` (`PermitStore.DocIdNotInjective`).

## Model

| member | source | states |
|---|---|---|
| Common.RandInt | auto_scraper_cron.py:40 | a `randint(lo, hi)` draw lies in `[lo, hi]` inclusive |
| Common.RandIntCovers | scraper_scheduler.py:28 | every value of `[lo, hi]` is produced by some draw, so the encoding excludes nothing |
| Common.Filter | auto_scraper_cron.py:91 | a list comprehension's result keeps only elements satisfying the condition, keeps every such element, and is exactly as long as the number of positions satisfying it |
| Common.FilterAppend | auto_scraper_cron.py:91 | the comprehension over a concatenation is the comprehension over each part, in order |
| Common.FilterOne | auto_scraper_cron.py:91 | a single element is kept if and only if it satisfies the condition; with the previous row this fixes order and multiplicity |
| Common.CountIfAppend | email_sender.py:133-197 | counting over a concatenation is the sum of the counts, the step every running tally uses |
| Cron.Weekday | auto_scraper_cron.py:35 | `weekday()` lies in 0..6 |
| Cron.StartInstant | auto_scraper_cron.py:40-41 | the start lies between 35h00 and 37h30 after the current day's midnight, on a whole minute |
| Cron.ScrapeDaysTuesdayToSaturday | auto_scraper_cron.py:3-41 | a run the weekend gate lets through scrapes on a Tuesday to a Saturday, so never on a Monday, against the promise of running once daily on weekdays |
| Cron.StartIsNextDay | auto_scraper_cron.py:35-41 | the start falls on the day after the one the weekend gate checked, and its weekday is the next one |
| Cron.FridayRunScrapesOnSaturday | auto_scraper_cron.py:35-41 | a Friday run passes the gate and then scrapes on a Saturday |
| Cron.EveryWaitReachable | auto_scraper_cron.py:40-41 | every whole-minute wait from 1800 to 1950 is a possible choice |
| Cron.Cities | auto_scraper_cron.py:59-64 | the city keys of the grouping, one per group, in group order |
| Cron.AddRow | auto_scraper_cron.py:60-69 | one grouping step appends the row's subscriber to its city only, creating the city at the end if new |
| Cron.AddRowAddsOne | auto_scraper_cron.py:66-69 | one grouping step adds exactly one subscriber entry overall |
| Cron.AddRowCities | auto_scraper_cron.py:63-64 | the city keys after one step: unchanged when the row's city is known, otherwise that city appended last (dict insertion order) |
| Cron.OldCityGrows | auto_scraper_cron.py:66-69 | a city already grouped keeps its subscribers and gains the new row's subscriber exactly when the row names it |
| Cron.NewCityStarts | auto_scraper_cron.py:63-69 | a city first named by the last row starts with that row's subscriber alone |
| Cron.GroupByCity | auto_scraper_cron.py:58-69 | cities are distinct; each city's list is its rows' subscribers in input order, non-empty; every row's city is present; list lengths sum to the row count |
| Cron.EmptyUsersOf | auto_scraper_cron.py:58-69 | a city no row names has no subscribers |
| Cron.UsersOfCountsRows | auto_scraper_cron.py:58-69 | a city's list is exactly as long as the number of its rows: duplicates are not collapsed |
| Cron.UsersOfMembers | auto_scraper_cron.py:58-69 | every row naming the city contributes its user id and email to the city's list, and every entry of the list comes from such a row |
| Cron.Metro | auto_scraper_cron.py:81 | the metro is the prefix of the city key before its first dash, or the whole key when there is none |
| Cron.CityPermits | auto_scraper_cron.py:91 | exactly the scraped permits whose `metro-county` equals the city key are kept, nothing else, and each as often as it occurs |
| Cron.CityPermitsInOrder | auto_scraper_cron.py:91 | the filter keeps the scrape's order: over a concatenation it is the filter of each part, and one permit is kept if and only if its key is the city |
| Cron.MetroOfCityKey | auto_scraper_cron.py:81-91 | a permit's `metro-county` key, read with `get(k, '')`, has that permit's metro as its metro when the metro has no dash |
| Cron.MetroOfJoin | auto_scraper_cron.py:81 | splitting `m-rest` at its first dash gives back `m` when `m` has no dash |
| Cron.MissingFieldsReadEmpty | auto_scraper_cron.py:91 | a permit without `metro` and `county` reads both as empty, so its key is `-` |
| Cron.Feed | auto_scraper_cron.py:113-129 | one subscriber: the dump carries the new permits; an email follows if and only if the dump returned a truthy file, to that subscriber, with that file and `len(new_permits)` |
| Cron.FanOut | auto_scraper_cron.py:109-129 | the subscriber loop only dumps and emails, and only for its own city |
| Cron.ProcessCity | auto_scraper_cron.py:76-132 | one city starts with one scrape of `[metro]` and never scrapes again; it emits only scrape, filter, dump and email events |
| Cron.ProcessCities | auto_scraper_cron.py:76-132 | the city loop emits only per-city events, so no cleanup happens inside it |
| Cron.ScrapeAndFeed | auto_scraper_cron.py:28-141 | a weekend run does nothing and changes nothing; otherwise it waits for the start instant and fetches subscribers; it stops with no subscribers if and only if the list is empty, before any scrape |
| Cron.ScrapeCallsAppend | auto_scraper_cron.py:76-84 | the scrape calls of two consecutive trace pieces are those of each, in order |
| Cron.CleanupCallsAppend | auto_scraper_cron.py:135 | the cleanup calls of two consecutive trace pieces are those of each, in order |
| Cron.DumpedUsersAppend | auto_scraper_cron.py:115 | the dumped users of two consecutive trace pieces are those of each, in order |
| Cron.NoCleanupAmongCityEvents | auto_scraper_cron.py:76-135 | per-city events contain no cleanup call |
| Cron.FanOutFeedsEveryUser | auto_scraper_cron.py:109-129 | every subscriber of a city gets a dump attempt, in order, whatever failed for the others |
| Cron.ConcatFanOutShape | auto_scraper_cron.py:109-129 | the dump-then-email shape of the fan-out survives concatenation |
| Cron.FanOutEmailsFollowDumps | auto_scraper_cron.py:115-124 | every email directly follows a dump that returned a truthy file equal to the attachment; the count is `len(new_permits)`; every dump carries the whole new batch |
| Cron.FanOutRecipients | auto_scraper_cron.py:109-124 | there is one dump per subscriber; the k-th dump is for the k-th subscriber's user id; every email goes to the address of the subscriber whose dump comes just before it |
| Cron.RecipientsCons | auto_scraper_cron.py:109-124 | one subscriber's dump and optional email in front of the loop over the others keep every recipient right |
| Cron.CityGate | auto_scraper_cron.py:84-124 | dumps and emails happen for a city only after a non-empty scrape, a non-empty city filter handed to the novelty filter, and a non-empty novelty result; then each dump and email is for the right subscriber of the city |
| Cron.CityFeedsEveryUser | auto_scraper_cron.py:100-129 | once the novelty filter returned permits, every subscriber of the city is fed, in order |
| Cron.CityScrapedOnce | auto_scraper_cron.py:81-84 | one city iteration calls the scraper exactly once, with the city's metro |
| Cron.EveryCityScraped | auto_scraper_cron.py:76-132 | a failure in one city never stops later cities: every group is scraped once, in insertion order, with its metro |
| Cron.NoScrapeAfterFirst | auto_scraper_cron.py:84 | a trace piece without scrape events holds no scrape calls |
| Cron.RunCleansUpOnce | auto_scraper_cron.py:52-135 | a run reaching the city loop scrapes every group and ends with exactly one cleanup, with 30 days, after all cities; any other run neither scrapes nor cleans up |
| Scheduler.Midnight | scraper_scheduler.py:16-19 | the start of the UTC day containing the instant |
| Scheduler.AtClock | scraper_scheduler.py:18-19 | `replace(hour, minute, second=0, microsecond=0)` keeps the day and sets the clock time |
| Scheduler.TodayWindow | scraper_scheduler.py:16-19 | today's window runs from 11:00 to 11:30 UTC on now's UTC date |
| Scheduler.PlanWindow | scraper_scheduler.py:22-24 | strictly after the window's end both bounds move one day forward; otherwise they are today's |
| Scheduler.Schedule | scraper_scheduler.py:16-34 | the window is 1800 s long, the offset lies in [0, 1800], the scheduled time lies within the window, and the sleep is `max(0, scheduled - now)`, never negative |
| Scheduler.WindowIsElevenUtc | scraper_scheduler.py:7-19 | the window starts at 11:00:00 UTC, lasts 30 minutes, and starts at 05:00 under the fixed -6 h offset |
| Scheduler.MidnightOf | scraper_scheduler.py:18-19 | an instant `k` into a day has that day's midnight and time of day `k` |
| Scheduler.WindowOnTodayUnlessRolled | scraper_scheduler.py:16-24 | the window is on now's UTC date unless rolled over, then on the next date |
| Scheduler.RolledSleepIsExactGap | scraper_scheduler.py:22-34 | after a roll-over the scheduled time is strictly ahead, so the sleep is the exact gap |
| Scheduler.PlannedWindowNotPast | scraper_scheduler.py:22-34 | the planned window never ends before now, and the sleep is under one day |
| Scheduler.InWindowMaySleepZero | scraper_scheduler.py:27-34 | inside the window the scheduled time may precede now, and the sleep is then zero |
| Scheduler.EveryOffsetReachable | scraper_scheduler.py:27-29 | every whole-second offset of the window is a possible choice |
| PermitStore.ReplaceSpaces | firebase_backend.py:112 | `replace(' ', '_')` keeps the length, turns every space into `_`, keeps every other character, and leaves no space |
| PermitStore.DocId | firebase_backend.py:112 | the id is one character longer than the county and the number together, and holds no space |
| PermitStore.DocIdParts | firebase_backend.py:112 | the id is the county with spaces replaced, `_`, and the number with spaces replaced |
| PermitStore.DocIdShape | firebase_backend.py:112 | the id is the county, `_` and the number, each with spaces replaced; it contains no space |
| PermitStore.ReplaceSpacesSplits | firebase_backend.py:112 | the replacement distributes over concatenation |
| PermitStore.PermitDocId | firebase_backend.py:112 | a permit has an id if and only if it has both `county` and `permit_number` |
| PermitStore.Tag | firebase_backend.py:108-109 | tagging sets `batch_id` and `created_at` and changes nothing else |
| PermitStore.LastIndex | firebase_backend.py:107-115 | the position of the last permit stored under an id, the write that survives, or none |
| PermitStore.FirstMissing | firebase_backend.py:107-112 | the first permit lacking a key, where the loop raises, or none |
| PermitStore.StageWrites | firebase_backend.py:106-114 | the loop raises exactly when some permit lacks a key, having tagged the permits up to and including that one; otherwise every permit is tagged and each id holds the tagged last permit with that id |
| PermitStore.SavePermits | firebase_backend.py:102-121 | the permits reached are tagged in place, up to and including the first one lacking a key; the batch is committed if and only if no permit lacks a key and the commit succeeds; otherwise the collection is unchanged; after a commit each id holds the tagged last permit with that id and every other document is untouched |
| PermitStore.FirstMissingAt | firebase_backend.py:107-112 | the loop raises at the first permit lacking a key |
| PermitStore.PendingWritesStep | firebase_backend.py:112-115 | one `batch.set` makes the id point at this permit and keeps the others |
| PermitStore.CommitApplies | firebase_backend.py:115-117 | committing the pending writes gives last-writer-wins map updates over the collection |
| PermitStore.LastIndexStep | firebase_backend.py:107-115 | extending the batch by one permit moves only that permit's id to it |
| PermitStore.CommittedKeepsLastWriter | firebase_backend.py:107-117 | after a commit every permit's id is stored and carries the batch id; of permits sharing an id, the last one is the document |
| PermitStore.LastIndexIsLast | firebase_backend.py:107-115 | a permit with no later permit under the same id is the one that survives |
| PermitStore.DocIdIgnoresOtherFields | firebase_backend.py:112 | the id depends on the county and the permit number only |
| PermitStore.DocIdNotInjective | firebase_backend.py:112 | different county/number pairs can share an id, so one overwrites the other |
| Blur.FindWord | app_backend.py:53-54 | `re.search(r'\bW\b', s, re.I)` finds the leftmost whole-word, case-insensitive match, or reports that there is none |
| Blur.SearchFrom | app_backend.py:51-56 | the suffix loop over a word list, from a list position, returns the first word that occurs, at its leftmost match, and no earlier word occurs; when it returns none, no word from that position on occurs |
| Blur.FindSuffix | app_backend.py:47-56 | the suffix used is the first in list order that occurs as a whole word, ignoring case; no earlier suffix occurs; when none is found, none occurs |
| Blur.Matched | app_backend.py:55 | `group()` is the suffix as written in the address, equal to the listed suffix up to case |
| Blur.IndexOf | app_backend.py:58-59 | the first comma and no earlier one, or no comma at all |
| Blur.StripRange | app_backend.py:60 | `strip()` removes exactly the leading and trailing whitespace |
| Blur.Strip | app_backend.py:60 | the result is no longer than the text and neither starts nor ends with whitespace; all-whitespace text gives the empty text; text without whitespace at either end is unchanged |
| Blur.Location | app_backend.py:58-60 | the location is shorter than the address and neither starts nor ends with whitespace |
| Blur.LocationAfterFirstComma | app_backend.py:58-60 | `split(',', 1)[1].strip()` is the stripped text after the first comma, whatever later commas follow |
| Blur.SkipLeading | app_backend.py:60 | the leading whitespace run of the text is skipped, and no more |
| Blur.SkipTrailing | app_backend.py:60 | the trailing whitespace run of the text is skipped, and no more |
| Blur.ZipOnlyAtEnd | app_backend.py:66 | `\b\d{5}\b$` can match only at the end, or just before a final newline |
| Blur.Zip | app_backend.py:66-68 | the zip found is five digits at the end of the address, or just before a final newline, and nothing is found when no position matches |
| Blur.BlurAddress | app_backend.py:46-73 | every output begins with `<span class="blur">[` |
| Blur.MaskedPrefix | app_backend.py:62-73 | both the mask and the locked text begin with the same opening |
| Blur.BlurShowsSuffix | app_backend.py:61-71 | when a suffix is found, its text as written follows the mask directly |
| Blur.PrefixSlice | app_backend.py:62-71 | a concatenation starts with its left part |
| Blur.BlurWithComma | app_backend.py:58-64 | with a comma the output ends with the stripped text after the first comma; without a suffix it is exactly the mask, `, ` and that location |
| Blur.BlurWithoutComma | app_backend.py:65-73 | without a comma: no suffix gives exactly `[Address Locked]`, zip or not; with a suffix the zip is appended exactly when the address ends in one |
| Blur.BlurShowsOnlySuffixAndTail | app_backend.py:46-73 | two addresses with the same suffix text and the same location, or the same zip, blur identically |
| Leads.RewriteLead | app_backend.py:41-42 | a lead scored exactly 90 gets a score in [75, 98] and keeps its other fields; any other lead is unchanged |
| Leads.RewriteCounty | app_backend.py:40-42 | a county's list keeps its length, and each lead is rewritten in place by that rule |
| Leads.LoadLeads | app_backend.py:32-44 | no file gives `{}`; otherwise states and counties are kept, list lengths are kept, and every lead obeys the rewrite rule |
| Leads.EveryScoreReachable | app_backend.py:42 | every score from 75 to 98 is a possible rewrite of a 90 |
| Leads.PlaceholderMaySurvive | app_backend.py:41-42 | the rewrite can give 90 again, so it is not a normalisation |
| Digest.ScoreOf | email_sender.py:41 | `lead.get('score', 0)`: the score, or 0 when missing |
| Digest.BandOf | email_sender.py:44-50 | green if and only if the score is at least 85, indigo if and only if it is from 75 up to 85, amber if and only if it is below 75 |
| Digest.BandMonotone | email_sender.py:44-50 | a higher score never gets a lower band |
| Digest.MissingScoreIsAmber | email_sender.py:41-50 | a lead without a score is banded amber |
| Digest.SliceStop | email_sender.py:36 | Python's `leads[:stop]` keeps at most the whole list |
| Digest.Cards | email_sender.py:36-50 | one card per lead, in order, each with its lead's band |
| Digest.FormatLeads | email_sender.py:24-50 | the header count is the smaller of the list length and the cap; the leads rendered are the slice `leads[:max_leads]`, in input order, each with the band of its score |
| Digest.HeaderCountsShownLeads | email_sender.py:34-36 | for a non-negative cap, the header counts exactly the leads shown, which are all the leads when they fit and otherwise the first `max_leads` |
| Digest.DefaultCapsAtFifty | email_sender.py:24-36 | with the default cap at most 50 leads are rendered, and a list of up to 50 is rendered whole and in order |
| Digest.CountyLeadsOf | email_sender.py:143 | `get(state, {}).get(county, [])`: the county's leads, or empty when the state or the county is absent |
| Digest.OutcomeOf | email_sender.py:136-197 | a subscription is skipped if and only if its county has no leads; it is simulated if and only if there is no key; otherwise it is delivered or failed as the send returned; the subject counts every lead and the body is the capped rendering |
| Digest.SendDailyLeads | email_sender.py:101-205 | no subscriptions gives an early return; otherwise each subscription gets its outcome in order; `sent` counts delivered and simulated sends, `failed` counts failed ones, and together with the skips they add up to the number of subscriptions; the queue gets one entry per delivered message |
| Digest.DecidedStep | email_sender.py:136-197 | deciding the next subscription extends the decided prefix |
| Digest.TallyStep | email_sender.py:133-197 | one outcome moves exactly the tally its kind names |
| Digest.QueuedStep | email_sender.py:173-180 | one loop step queues the user exactly when the message was delivered |
| Digest.QueuedCountsDeliveries | email_sender.py:170-190 | the queue holds exactly one entry per delivered message |
| Digest.NoKeyOnlySimulates | email_sender.py:106-110 | without an API key nothing fails and nothing is delivered or queued; every subscription with leads counts as sent |
| Digest.NoneCounted | email_sender.py:133-197 | a tally over outcomes none of which qualifies is zero |
| Digest.SubjectCountsAllLeads | email_sender.py:158 | the subject counts every lead while the body header is capped at 50, so the two differ above 50 |

## Left out

- Wall clock and waiting are not modelled. This covers `datetime.now()`, the minute-polling wait loop before the scrape, `time.sleep` in the scheduler and the `schedule` daemon. Time is a parameter, and the wait is recorded as a `WaitUntil` event.
  - The run reads `datetime.now()` twice, once for the gate and once for the start. The model uses one instant for both.
- After its sleep the scheduler starts the scraper as a separate process with `python3 scraper.py` (scraper_scheduler.py:37-38). That process and its outcome are not modelled: `Scheduler.Schedule` ends with the plan, that is, the time the scraper would be started.
- `run_once` is not a separate member. It only calls `scrape_and_feed`, so `Cron.ScrapeAndFeed` models both.
- The collaborators of the run have no behaviour in the model. These are `get_active_subscribers`, `scrape_all_regions`, `filter_new_permits`, `save_fresh_dump`, `send_permit_email` and `cleanup_old_seen_permits`. No property of theirs is claimed, such as what the novelty filter remembers or what the cleanup deletes.
- Several Python falsiness and shape cases are not modelled:
  - a collaborator returning `None` where a list is expected;
  - a subscriber row shorter than four columns;
  - a non-integer `deleted` count.
- Printing and logging are not modelled.
- Cron.ScrapeAndFeed: an exception from `get_active_subscribers` or from the cleanup escapes the run in the source. The model ends such a run as `Crashed` instead of describing the propagation.
- PermitStore.SavePermits has these simplifications:
  - the outcome of `batch.commit()` is a boolean parameter;
  - `created_at` is one caller-given text for the whole batch, whereas the source reads the clock once per permit, so its times may differ within a batch;
  - permit field values other than the four keys it reads or writes are kept as opaque text.
- The Firestore client setup and every query other than `save_permits` are not modelled.
- Blur has these limitations:
  - regular expressions are modelled only for ASCII word characters, digits and case folding, whereas Python's `\b`, `\w`, `\d` and `re.IGNORECASE` are Unicode-aware;
  - non-ASCII letters next to a suffix, non-ASCII digits, and non-ASCII case pairs are outside the model.
- Leads.LoadLeads has these limitations:
  - reading and parsing the JSON file is left out;
  - scores are integers, so a float score of `90.0`, which Python also compares equal to 90, is not modelled;
  - lead fields other than the score are opaque text;
  - the random draw is a function of state, county and position.
- Digest.FormatLeads has these limitations:
  - the HTML markup, the date in the header, and the address, type, date, value and description fields are not modelled;
  - only the count, the leads shown and each band are kept;
  - a non-numeric score is not modelled.
- Digest.SendDailyLeads has these limitations:
  - the county's display name (`county_names` or `.title()`), the subscriber's name default, and the subject and HTML text beyond the lead count are left out;
  - the SendGrid call is the parameter `send`;
  - the database writes after a delivery (`queue_email` and the status update) are recorded as one queue entry, and their failures are not modelled;
  - the e-mail module's own leads loader reads the file without the score rewrite, so the digest takes the leads as stored.
- Flask routes, templates, Stripe handling, the admin console, configuration reads, the development scrapers and the import helper are outside this model.
