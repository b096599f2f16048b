# Verification of the Insight platform's stateful logic

Dafny models of eight pieces of Insight, each proved over every input, every run or every
interleaving it can meet. `dafny verify dfyconfig.toml` checks them all.

1. **Session refresh across tabs** (`RefreshTypes`, `RefreshSpec`, `RefreshDriver`, `RefreshRuns`,
   `RefreshSafety`, `RefreshTiming`, `LeaseLoss`, `StaleResults`, `RefreshOutcomes`). Any number of browser tabs share one
   lease in localStorage, send each other messages, and each keep a timer, a refresh in flight and an auth store.
   `RefreshDriver` has the classes of the source, method by method, each proved to do what
   `RefreshSpec` says on values. `RefreshRuns` puts tabs, lease, inboxes and the clock into one step
   system: beats, visibility, pagehide, timeouts, the three awaits of `refresh()`, messages in any
   order, foreign messages, sign-out, probes by other code, storage that cannot be read or written.
2. **Calendar windows** (`Digits`, `Calendar`, `ISODate`, `PeriodRange`, `PeriodRangeLaws`). The period
   picker's arithmetic on civil days: setters that roll over, clamped months, the printed text.
3. **Evidence rows** (`EvidenceOrder`, `EvidenceOrderLaws`, `EvidencePages`). The drill-down's order,
   search, cursors and pages.
4. **Field-value loader** (`TabSeparated`, `FieldValueMap`, `FieldValueMapLaws`, `MappingBundle`). From the
   records of a bundle over the wire into an append-only, newest-wins table.
5. **Sharing and filing** (`Sharing`, `SharingLaws`, `SharingOutcomes`, `SharingMock`). Owners, grants, folders with frozen
   `carries` bits, pins, transfers. The mock handlers stand in for the service's rules.
6. **Two search loops** (`PodNetwork`, `EnclosingParens`). The smallest common network of the nodes'
   slices, and the innermost bracket group around a read.
7. **Poll loop and 401 probe** (`PollLoop`, `SessionProbe`, `SessionProbeLaws`). A job's status mirrored
   over any trace of answers and clock readings; one probe for every 401 in flight.
8. **Intensity pivot** (`IntensityPivot`, `IntensityPivotLaws`). Rows and columns that add up.

Where the source works on objects or in loops there are classes and loops; each is tied to a function
on values, and the promises are lemmas about those functions. What the functions themselves decide, a retry's
delay, a right, an exit code, is stated once more without them: in the stored data and the source's numbers.

## What the code does not keep

Each of these holds only under a condition, and the condition is proved to be the exact one:

- **The leader's lease.** A running leader can lose its lease, which the comment at
  src/frontend/src/auth/refresh.ts:22-23 allows for. It keeps it in every run exactly if its writes succeed, no
  other tab writes without being able to read, it gets no pagehide, and one of three is so. There are no refreshes, and its
  heartbeats are at most ten seconds late. Or each refresh takes less than HEARTBEAT_MS from the POST to its last
  await, heartbeats are at most two and a half seconds late, and each Retry-After is longer than HEARTBEAT_MS and
  that lateness together. Or each refresh takes less than REQUEST_TIMEOUT_MS, heartbeats are not late at all, and
  each Retry-After is longer than HEARTBEAT_MS. So the source's own timeout leaves no slack, and timers do run late:
  a background tab, a frozen one or a sleeping laptop (refresh.ts:86-88) gets no pagehide and only beats late. A POST
  that hangs until its abort, and a 403 whose re-probe has ten seconds of its own, take longer than
  REQUEST_TIMEOUT_MS; and nothing floors a Retry-After.
- **Stale results.** After sign-out the result of a refresh is neither applied nor fanned out exactly if its POST was
  still unanswered (refresh.ts:187-189). `stopped` is not looked at after the other two awaits: a body read later is told
  to every running tab through localStorage, and a re-probe answered later makes the tab authenticated again, with its
  driver stopped.
- **The loader** is insert-only and idempotent if stored keys are read faithfully. The HTTP reader splits lines and tabs
  and does not unescape, so the line of a stored key with a quote, a backslash or a line break does not read as that
  key. Unless the line of another stored key happens to, as that of `won't` reads as `won\'t`, each run writes its
  decision again with a newer `recorded_at`. And a missing key that happens to be the first line of a stored key's text,
  up to a U+2028 say, or a stored key's escaped form, is taken for stored and never seeded. Over any table a declared
  key gets a row exactly if it appears in no stored key's line; no load gives any stored key another row exactly if all
  stored keys are plain; and for a bundle seeded into an empty table a second run does nothing exactly if all its keys
  are.
- **Digits** sort as numbers up to 20 of them, and no further.
- **A pivot row's** `total` and `epoch` share a namespace with the bands. A band called `total` is counted twice: a total
  is right exactly if that band adds up to 0. A band called `epoch` moves its row: epochs strictly increase exactly if
  those shown are distinct.
- **The pod network** is to be no RFC 1918 block (gateway-realip.py:7-9). It is a whole one exactly if the node slices lie
  in that block and, unless it is 192.168.0.0/16, not all in one half of it; one slice 192.168.1.0/24 is enough.

Two more edges are stated as lemmas. A bracket group that opens at the first character of a text is not
seen. And whether a folder's editor may share it is decided by a dashboard's grants where a dashboard has
the folder's id: that takes a seed that gives both one id, which the mock's own does not, and ids that
start apart stay apart.

## Model

| member | source | states |
|---|---|---|
| `RefreshDriver.Page.SignIn` | src/frontend/src/auth/use-auth.ts:32-40 | navigates unless the guard is already set, and sets it |
| `RefreshDriver.AuthStore.SetAuthenticated` | src/frontend/src/auth/auth-store.ts:23-26 | the snapshot becomes this session; a driver only listens for the other write |
| `RefreshDriver.AuthStore.SetUnauthenticated` | src/frontend/src/auth/auth-store.ts:28-32 | does nothing twice, and a listening driver is stopped before it returns |
| `RefreshDriver.Driver.Start` | src/frontend/src/auth/refresh.ts:68-108 | a started driver is subscribed, beats every HEARTBEAT_MS and has already beaten once |
| `RefreshDriver.Driver.TryLead` | src/frontend/src/auth/refresh.ts:144-156 | refuses exactly under a readable lease of another tab that is at most LEASE_TTL_MS old; else leads and writes its own name and the time if storage lets it |
| `RefreshDriver.Driver.ReleaseLease` | src/frontend/src/auth/refresh.ts:158-164 | removes the lease only if it reads as its own and can be written |
| `RefreshDriver.Driver.ClearTimer` | src/frontend/src/auth/refresh.ts:166-171 | the page loses the timeout the field names and no other |
| `RefreshDriver.Driver.Tick` | src/frontend/src/auth/refresh.ts:126-140 | stopped or refreshing: nothing; not leading: timer cleared; leading: armed once, for the store's schedule |
| `RefreshDriver.Driver.Heartbeat` | src/frontend/src/auth/refresh.ts:104-106 | a beat, and the next one HEARTBEAT_MS later |
| `RefreshDriver.Driver.Stop` | src/frontend/src/auth/refresh.ts:110-119 | idempotent; heartbeat, timer, own lease, channel and subscription are gone |
| `RefreshDriver.Driver.OnStoreChange` | src/frontend/src/auth/refresh.ts:98-102 | stops the driver exactly when the store has become unauthenticated |
| `RefreshDriver.Driver.RetryIn` | src/frontend/src/auth/refresh.ts:251-259 | ends the refresh and, unless stopped, leaves one timeout, `delay` from now |
| `RefreshDriver.Driver.Apply` | src/frontend/src/auth/refresh.ts:262-265 | only the two timestamps of the session change, and only if there is a session |
| `RefreshDriver.Driver.Expire` | src/frontend/src/auth/refresh.ts:267-273 | stopped, signed out and on the way to the login, in this order |
| `RefreshDriver.Driver.Broadcast` | src/frontend/src/auth/refresh.ts:296-311 | the open channel, else localStorage, else nothing |
| `RefreshDriver.Driver.TimeoutFires` | src/frontend/src/auth/refresh.ts:255-258 | the timeout and the timer field are gone, and a refresh has begun unless one may not |
| `RefreshDriver.Driver.Refresh` | src/frontend/src/auth/refresh.ts:173-186 | begins a POST unless stopped or refreshing |
| `RefreshDriver.Driver.PostSettles` | src/frontend/src/auth/refresh.ts:186-235 | the whole branch on the POST's outcome, with `stopped` looked at first on any answer and not on an error |
| `RefreshDriver.Driver.ProbeSettles` | src/frontend/src/auth/refresh.ts:206-228 | a failed re-probe is broadcast and expires; a live one retries no sooner than RETRY_MS |
| `RefreshDriver.Driver.LoadSession` | src/frontend/src/auth/session.ts:22-81 | authenticated exactly on a readable answer with a token; every other outcome writes unauthenticated |
| `RefreshDriver.Driver.BodySettles` | src/frontend/src/auth/refresh.ts:235-248 | two numbers are folded in, sent on and scheduled from; anything else retries |
| `RefreshDriver.Driver.OnMessage` | src/frontend/src/auth/refresh.ts:275-294 | only an explicit, well-formed message moves a running driver |
| `RefreshRuns.TickSound` | src/frontend/src/auth/refresh.ts:126-156 | a beat keeps the tab in order; only a leading beat writes the lease, with its own name and the time, and only such a beat makes a refresh pending |
| `RefreshRuns.LocalStepSound` | src/frontend/src/auth/refresh.ts:68-311 | so does every other entry point of the driver, and no stopped driver beats or starts |
| `RefreshRuns.NextKeepsInv` | src/frontend/src/auth/refresh.ts:21-23 | every step of any tab keeps: timers in order, the lease names its last taker, the two-refresher window |
| `RefreshRuns.RunKeepsInv` | src/frontend/src/auth/refresh.ts:21-23 | hence every reachable state of any number of tabs |
| `RefreshRuns.SpreadArrives` | src/frontend/src/auth/refresh.ts:296-311 | what is sent reaches every other running tab that listens on its transport |
| `RefreshSafety.OneTimeoutPerTab` | src/frontend/src/auth/refresh.ts:59-66 | in every reachable state a tab has at most one live timeout, and none while its refresh is in flight or after it stopped |
| `RefreshSafety.TwoRefresherWindow` | src/frontend/src/auth/refresh.ts:121-156 | a tab with a refresh pending is the lease's last taker, or has not beaten idle since that take, or cannot write the lease |
| `RefreshSafety.LeaseNamesTaker` | src/frontend/src/auth/refresh.ts:142-156 | a lease that exists names the last tab that took it |
| `RefreshSafety.WindowCloses` | src/frontend/src/auth/refresh.ts:121-140 | after one idle beat of another tab that can write the lease whenever it acts, that tab has nothing pending for as long as the taker stays the taker, whatever the others can write |
| `RefreshSafety.StoppedIsAbsorbing` | src/frontend/src/auth/refresh.ts:110-119 | over every later state: no timeout, no heartbeat, no channel, no lease taken, and no request begun after the one that may be in flight |
| `RefreshSafety.StoredPairIsIssued` | src/frontend/src/auth/refresh.ts:9-12 | every schedule in a tab's store is a pair some earlier answer carried, or the zeros put for what it lacked |
| `RefreshSafety.TravellingPairIsIssued` | src/frontend/src/auth/refresh.ts:296-311 | and so is every schedule in an undelivered message |
| `RefreshSafety.RefreshReschedules` | src/frontend/src/auth/refresh.ts:240-243 | a success in a tab that may lead arms exactly one timeout, at exactly the server's refresh_at or at once, and every listening tab is sent the pair |
| `RefreshSafety.FollowerAdopts` | src/frontend/src/auth/refresh.ts:286-291 | a running tab adopts the pair and reschedules exactly if it may lead |
| `RefreshSafety.BeatSchedules` | src/frontend/src/auth/refresh.ts:121-140 | after an effective beat a tab with a schedule has a refresh pending exactly if it may lead |
| `RefreshSafety.LogoutNeedsEvidence` | src/frontend/src/auth/refresh.ts:191-248 | over every run without a 401 and without a failed re-probe anywhere, a tab that does not leave by itself stays authenticated and is never redirected |
| `RefreshSafety.RefusalSpreads` | src/frontend/src/auth/refresh.ts:191-198 | a 401 stops, clears and redirects a running tab at once and puts the expiry in every listening tab's inbox |
| `RefreshSafety.ExpiryIsObeyed` | src/frontend/src/auth/refresh.ts:293 | a running tab that receives it leaves too |
| `RefreshOutcomes.FailedPostRetries` | src/frontend/src/auth/refresh.ts:230-249 | after a network error or a status that says nothing of the session, exactly one timeout, due 15 seconds later, the same store, and nobody told |
| `RefreshOutcomes.RateLimitedPostRetries` | src/frontend/src/auth/refresh.ts:199-202 | after a 429, exactly one, due as many seconds later as the server asks for, or ten |
| `RefreshOutcomes.AnsweredPostGoesOn` | src/frontend/src/auth/refresh.ts:203-235 | a 403 is probed and a success is read, and nothing else changes |
| `RefreshOutcomes.LiveProbeRetries` | src/frontend/src/auth/refresh.ts:218-228 | a re-probe that finds a session stores it and leaves one timeout at its refresh time, not within 15 seconds; without a refresh time, none |
| `RefreshOutcomes.DeadProbeLeaves` | src/frontend/src/auth/refresh.ts:206-217 | one that finds none stops, clears, navigates once and tells every running tab through localStorage, if that can be written |
| `RefreshOutcomes.BadBodyRetries` | src/frontend/src/auth/refresh.ts:235-239 | a body without two numbers is a failed refresh |
| `RefreshOutcomes.LoadedMeans` | src/frontend/src/auth/session.ts:22-81 | a session exactly from a body with a token, with its positive timestamps and 0 for any other |
| `RefreshOutcomes.TimeoutRefreshes` | src/frontend/src/auth/refresh.ts:255-258 | the timeout of a running tab puts a POST in flight and is gone |
| `RefreshOutcomes.BeatDoes` | src/frontend/src/auth/refresh.ts:126-140 | what a beat does to the lease, the timeout and the next beat, with the 15 seconds of a lease and the five of a beat spelled out |
| `RefreshOutcomes.OpeningBeats` | src/frontend/src/auth/refresh.ts:68-108 | a page that loads with a session has a driver that beats and, on a free lease, leads and has its timeout set |
| `RefreshOutcomes.StopGivesLeaseUp` | src/frontend/src/auth/refresh.ts:110-119 | whatever stops a running driver takes its own lease away if storage works, and nobody else's |
| `RefreshOutcomes.NextBeatLeads` | src/frontend/src/auth/refresh.ts:115 | so the next beat of any other tab takes the lease at once |
| `RefreshOutcomes.SigningOutStops` | src/frontend/src/auth/refresh.ts:96-102 | whoever clears the store stops the driver; a probe in vain navigates too |
| `RefreshOutcomes.HidingGivesLeaseUp` | src/frontend/src/auth/refresh.ts:91-95 | a pagehide gives the tab's own lease up and changes nothing else |
| `RefreshOutcomes.UnderstoodMeans` | src/frontend/src/auth/refresh.ts:275-294 | two shapes of message are understood, each exactly |
| `RefreshOutcomes.RefresherAdopts` | src/frontend/src/auth/refresh.ts:286-290 | a tab that is refreshing takes the pair it hears and nothing more |
| `RefreshOutcomes.SpreadExactly` | src/frontend/src/auth/refresh.ts:296-311 | what is sent reaches each running listener once, and nobody else |
| `RefreshOutcomes.DeliveredOnce` | src/frontend/src/auth/refresh.ts:275-294 | a message is delivered once, and the others wait in order |
| `RefreshTiming.LeaderKeepsLease` | src/frontend/src/auth/refresh.ts:29-39 | over every run that follows a policy that asks enough, whatever the other tabs do, the lease stays the leader's and at most LEASE_TTL_MS old, so no tab that can read it may lead |
| `RefreshTiming.NextLeads` | src/frontend/src/auth/refresh.ts:126-156 | every single step, of the leader or of any other tab, keeps what that rests on |
| `RefreshTiming.BeatFindsLeader` | src/frontend/src/auth/refresh.ts:142-156 | every effective beat of a tab that can write finds a fresh lease or makes one |
| `RefreshTiming.DeadLeaderIsReplaced` | src/frontend/src/auth/refresh.ts:16-18 | no stretch of LEASE_TTL_MS is without a fresh lease while one tab can write and its beats, refreshes and Retry-After answers keep the times of the exact condition below, whoever crashes or closes |
| `LeaseLoss.KeepsLeaseExactly` | src/frontend/src/auth/refresh.ts:25-39 | a policy keeps the lease with the leader in every run exactly if the leader can write, nobody writes without reading, the leader gets no pagehide, and either there are no refreshes and beats are at most 10 s late, or refreshes take under 5 s, beats are at most 2.5 s late and Retry-After is longer than 5 s and the lateness, or refreshes take under 10 s, beats are not late and Retry-After is longer than 5 s |
| `LeaseLoss.BoundIsTight` | src/frontend/src/auth/refresh.ts:29-39 | a run within the source's own limits in which the leader's lease gets exactly LEASE_TTL_MS old |
| `LeaseLoss.HungPostLosesLease` | src/frontend/src/auth/refresh.ts:37-39 | for every limit beyond REQUEST_TIMEOUT_MS, a run that ends with another tab holding the lease of a running leader |
| `LeaseLoss.ShortRetryAfterLosesLease` | src/frontend/src/auth/refresh.ts:199-202 | such a run for every Retry-After of up to five seconds, with POSTs of at most five |
| `LeaseLoss.BeatLongRetryAfterLosesLease` | src/frontend/src/auth/refresh.ts:199-202 | and one for a Retry-After of five seconds and the lateness of a beat, with POSTs as short as one likes |
| `LeaseLoss.LateBeatLosesLease` | src/frontend/src/auth/refresh.ts:86-88 | such a run for every lateness beyond ten seconds, without any refresh |
| `LeaseLoss.TwoLateBeatsLoseLease` | src/frontend/src/auth/refresh.ts:86-88 | for every lateness beyond 2.5 seconds, with one POST as short as one likes |
| `LeaseLoss.LateBeatInLongPostLosesLease` | src/frontend/src/auth/refresh.ts:37-39 | and for any lateness at all, with a POST a moment longer than HEARTBEAT_MS |
| `LeaseLoss.UnwrittenBeatsLoseLease` | src/frontend/src/auth/refresh.ts:149-154 | such a run of a leader whose writes fail |
| `LeaseLoss.BlindTabTakesLease` | src/frontend/src/auth/refresh.ts:144-156 | such a run in which the other tab cannot read |
| `LeaseLoss.HiddenPageLosesLease` | src/frontend/src/auth/refresh.ts:92-95 | such a run in which the leader gets a pagehide and runs on |
| `StaleResults.StaleResultIsDroppedExactly` | src/frontend/src/auth/refresh.ts:187-189 | from any reachable state, in every run: what comes back to a stopped driver's refresh changes no store and is told to nobody exactly if its POST was unanswered, or nothing in flight, at that state |
| `StaleResults.SigningOutMidway` | src/frontend/src/auth/refresh.ts:187-189 | a run from the start in which signing out lands behind that test: for every success while the body is read, for a 403 while it is probed |
| `StaleResults.StaleBodyIsFannedOut` | src/frontend/src/auth/refresh.ts:235-242 | the body of a stopped tab's refresh then reaches every running tab through localStorage, if that can be written |
| `StaleResults.StaleProbeSignsIn` | src/frontend/src/auth/refresh.ts:206-228 | and its probe, answered with a session, makes the stopped tab authenticated again |
| `Calendar.YearLength` | src/frontend/src/api/period-to-date-range.ts:28-44 | counting leap days makes a year 366 days long exactly where the leap-year rule of appendix C of RFC 3339 says |
| `Calendar.MonthLength` | src/frontend/src/api/period-to-date-range.ts:83-92 | months follow each other without gap or overlap, across years |
| `Calendar.DayNumberOrders` | src/frontend/src/api/period-to-date-range.ts:46-61 | the day number orders real dates as their fields do and tells them apart |
| `Calendar.CivilInverts` | src/frontend/src/api/period-to-date-range.ts:28-44 | dates and day numbers are in bijection |
| `Calendar.AddDaysNumber` | src/frontend/src/api/period-to-date-range.ts:94-122 | moving by k days moves the day number by k, either way |
| `Calendar.GregorianCycle` | src/frontend/src/api/period-to-date-range.ts:24-44 | the calendar repeats after 400 years of 146097 days |
| `ISODate.ParsePrinted` | src/frontend/src/api/period-to-date-range.ts:28-68 | reading a printed date gives it back exactly when its year has four digits |
| `ISODate.PrintParsed` | src/frontend/src/api/period-to-date-range.ts:28-68 | printing a date that was read gives the text back, unless it starts with 0 |
| `ISODate.ParseMeans` | src/frontend/src/api/period-to-date-range.ts:24-44 | a text reads as a date exactly if its ten characters spell a real one |
| `PeriodRange.ClampBack` | src/frontend/src/api/period-to-date-range.ts:83-92 | the setters one after the other land on the clamped day, `months` back |
| `PeriodRange.SubtractMonths` | src/frontend/src/api/period-to-date-range.ts:83-92 | the same on a copy; the argument stays |
| `PeriodRange.StartOf` | src/frontend/src/api/period-to-date-range.ts:100-119 | each branch of the switch finds the day after one period back |
| `PeriodRange.PeriodToDateRange` | src/frontend/src/api/period-to-date-range.ts:94-122 | the printed window from there to yesterday |
| `PeriodRange.ShiftInPlace` | src/frontend/src/api/period-to-date-range.ts:160-184 | each branch moves the day one period back, Feb 29 rolling over in the year branch |
| `PeriodRange.ShiftBack` | src/frontend/src/api/period-to-date-range.ts:155-186 | on ISO text |
| `PeriodRange.PreviousPeriodRange` | src/frontend/src/api/period-to-date-range.ts:151-188 | both ends shifted |
| `PeriodRangeLaws.ClampLandsOn` | src/frontend/src/api/period-to-date-range.ts:83-92 | a clamped shift lands that many months earlier, on the same day or on the month's last |
| `PeriodRangeLaws.YearBackLandsOn` | src/frontend/src/api/period-to-date-range.ts:113-118 | a year back is the same day, Feb 29 becoming Mar 1 |
| `PeriodRangeLaws.ShiftLandsOn` | src/frontend/src/api/period-to-date-range.ts:149-188 | where each shift lands: a week back, the same or last day one or three months back, the same day a year back or Mar 1 |
| `PeriodRangeLaws.ShiftLength` | src/frontend/src/api/period-to-date-range.ts:151-188 | a shift reaches 7, 28-31, 89-92, 365-366 days back for week, month, quarter, year |
| `PeriodRangeLaws.ShiftMonotone` | src/frontend/src/api/period-to-date-range.ts:149-188 | a later day is never shifted before an earlier one, despite clamping and Feb 29 |
| `PeriodRangeLaws.PresetLength` | src/frontend/src/api/period-to-date-range.ts:94-122 | preset windows have 7, 28-31, 89-92, 365-366 days |
| `PeriodRangeLaws.PresetWindow` | src/frontend/src/api/period-to-date-range.ts:94-122 | a preset ends yesterday and starts the day after that |
| `PeriodRangeLaws.Verdicts` | src/frontend/src/api/period-to-date-range.ts:46-61 | when a range is refused as no date, inverted, in the future and over 400 days, in this order, and else accepted with its days |
| `PeriodRangeLaws.LatestIsTheLater` | src/frontend/src/api/period-to-date-range.ts:76-81 | the latest day is the local or the UTC one, and neither is later |
| `PeriodRangeLaws.PresetIsAccepted` | src/frontend/src/api/period-to-date-range.ts:46-122 | validation accepts every preset, with its length, exactly when both its years have four digits |
| `PeriodRangeLaws.ComparisonEndsTheDayBefore` | src/frontend/src/api/period-to-date-range.ts:151-205 | a preset's comparison window ends the day before it starts and has itself an admissible length |
| `PeriodRangeLaws.ShiftedRangeIsNotInverted` | src/frontend/src/api/period-to-date-range.ts:149-188 | both ends of any window are shifted, and a window shifted back by any period keeps its direction |
| `PeriodRangeLaws.CustomComparison` | src/frontend/src/api/period-to-date-range.ts:190-205 | an accepted custom window's comparison ends the day before, has as many days and is accepted |
| `EvidenceOrder.CompareRowsOrders` | src/frontend/src/mocks/metric-drilldown-factory.ts:306-319 | the comparator is antisymmetric and transitive, and equal only on equal tiebreakers |
| `EvidenceOrderLaws.OrderedSorts` | src/frontend/src/mocks/metric-drilldown-factory.ts:297-320 | the result is sorted and a permutation of the rows |
| `EvidenceOrderLaws.SortedOnce` | src/frontend/src/mocks/metric-drilldown-factory.ts:297-320 | with distinct tiebreakers there is one sorted arrangement, so any sort gives it |
| `EvidenceOrderLaws.BlanksComeLast` | src/frontend/src/mocks/metric-drilldown-factory.ts:292-309 | sorted rows are all filled ones followed by all blank ones, whichever way the column runs |
| `EvidenceOrderLaws.DescendingReversesBothBlocks` | src/frontend/src/mocks/metric-drilldown-factory.ts:292-320 | descending is the reverse of the ascending filled block, then the reverse of the blank block |
| `EvidenceOrderLaws.NaturalKeyIsNumeric` | src/frontend/src/mocks/metric-drilldown-factory.ts:264-273 | on cells of at most 20 digits key order is numeric order, leading zeros included |
| `EvidenceOrderLaws.OrderedCells` | src/frontend/src/mocks/metric-drilldown-factory.ts:275-319 | down the result, filled numbers, dates, digits and other texts never fall, or never rise when the column runs down, and equal keys are in tiebreaker order |
| `EvidenceOrderLaws.BlankMeans` | src/frontend/src/mocks/metric-drilldown-factory.ts:304-307 | a cell is blank exactly if it holds nothing but spaces |
| `EvidenceOrderLaws.TrimIsTheMiddle` | src/frontend/src/mocks/metric-drilldown-factory.ts:264-269 | trimming drops the spaces at both ends and nothing else |
| `EvidenceOrderLaws.LessMeans` | src/frontend/src/mocks/metric-drilldown-factory.ts:289 | text order is decided at the first place where two texts differ |
| `EvidenceOrderLaws.LongDigitsAreText` | src/frontend/src/mocks/metric-drilldown-factory.ts:268-273 | for every length from 21 on, a number of that many digits that goes before a smaller one |
| `EvidenceOrderLaws.NumericExactly` | src/frontend/src/mocks/metric-drilldown-factory.ts:264-273 | cells of at most n digits all sort as numbers exactly if n is at most 20 |
| `EvidencePages.RespondTakes` | src/frontend/src/mocks/metric-drilldown-factory.ts:389-418 | one page is the next stretch, of 100 rows or as many as asked from 1 to 250 unless the rows end, with a cursor exactly if they do not |
| `EvidencePages.FollowFrom` | src/frontend/src/mocks/metric-drilldown-factory.ts:367-418 | following from any cursor of the selection serves exactly the rows from there on |
| `EvidencePages.ServedRows` | src/frontend/src/mocks/metric-drilldown-factory.ts:327-340 | following the pages with any limits serves exactly the query's rows that show the trimmed, lower-cased search in some column but `person`, each as often as the query holds it, and all of them if it is empty |
| `EvidencePages.ServedOrder` | src/frontend/src/mocks/metric-drilldown-factory.ts:384-393 | sorted by the column and direction the request names if a column of that key is sortable, and newest first if not |
| `EvidencePages.PagesServeEveryRow` | src/frontend/src/mocks/metric-drilldown-factory.ts:380-419 | following from the first page, with any limits, ends and serves these rows in this order, none lost or repeated |
| `EvidencePages.PagesBounded` | src/frontend/src/mocks/metric-drilldown-factory.ts:395-418 | in at most as many pages as rows |
| `EvidencePages.ForeignCursorRestarts` | src/frontend/src/mocks/metric-drilldown-factory.ts:345-378 | a cursor of another selection restarts at the first page exactly when the hashes differ |
| `EvidencePages.BoundTellsApart` | src/frontend/src/mocks/metric-drilldown-factory.ts:351-365 | two selections are bound to the same exactly if they ask for the same rows, search and order, where none is newest first |
| `EvidencePages.FilterKeepsMatches` | src/frontend/src/mocks/metric-drilldown-factory.ts:327-340 | the search keeps every matching row as often as it was there, and no other |
| `TabSeparated.DecodeInvertsBody` | src/ingestion/scripts/load_field_value_map.py:97-102 | the server reads back exactly the rows and columns sent, whatever the fields hold |
| `TabSeparated.DecodeOfLine` | src/ingestion/scripts/load_field_value_map.py:401-415 | a row of any fields is one line that decodes to those fields |
| `TabSeparated.EscapesAre` | src/ingestion/scripts/load_field_value_map.py:97-102 | the eight escapes, by code point, and that every other character is itself |
| `TabSeparated.LiteralRoundTrip` | src/ingestion/scripts/load_field_value_map.py:480-481 | a quoted literal reads back as its value and ends at its own quote |
| `FieldValueMap.ParseFile` | src/ingestion/scripts/load_field_value_map.py:227-250 | one file adds exactly its accepted rows and its problems; only the first declaring record may be a header |
| `FieldValueMap.ParseFiles` | src/ingestion/scripts/load_field_value_map.py:213-254 | rows if no record of any file is rejected, else every problem and no row |
| `FieldValueMap.Deduplicate` | src/ingestion/scripts/load_field_value_map.py:384-393 | the rows whose key no earlier row has |
| `FieldValueMap.Load` | src/ingestion/scripts/load_field_value_map.py:558-583 | an absent table or empty bundle changes nothing; else the missing rows are appended and counted, through a body that decodes to them |
| `MappingBundle.OneHeader` | src/ingestion/scripts/load_field_value_map.py:227-245 | blank lines and comments go wherever they are; of the rest only the first may be dropped as a header |
| `MappingBundle.AllOrNothing` | src/ingestion/scripts/load_field_value_map.py:219-254 | a bundle is read exactly if no record is rejected, and then record by record in order; else each bad record is reported once |
| `MappingBundle.AcceptedDecision` | src/ingestion/scripts/load_field_value_map.py:275-334 | an accepted record keeps all its columns, has a full key and a target of its field's domain |
| `MappingBundle.AcceptedExactly` | src/ingestion/scripts/load_field_value_map.py:275-334 | a record is a mapping exactly if it has seven or eight columns, the first seven filled, and gives an issue type or a resolution one of its values |
| `MappingBundle.DecisionOf` | src/ingestion/scripts/load_field_value_map.py:257-258 | its key is the first five columns, and the note is the eighth or empty |
| `MappingBundle.NoiseMeans` | src/ingestion/scripts/load_field_value_map.py:232-238 | a record is passed over exactly if it is empty or begins with a hash |
| `MappingBundle.HeaderMeans` | src/ingestion/scripts/load_field_value_map.py:240-244 | and is a header exactly if it begins with tenant_id in any case |
| `MappingBundle.ProblemsReport` | src/ingestion/scripts/load_field_value_map.py:246-253 | what is reported is each rejected record, by file, line and reason, and nothing else |
| `MappingBundle.BundleReachesTheServer` | src/ingestion/scripts/load_field_value_map.py:213-424 | from the records of an accepted bundle to what the server decodes, nothing changes |
| `FieldValueMapLaws.FirstWinsKeepsFirsts` | src/ingestion/scripts/load_field_value_map.py:384-393 | a row is kept exactly if it is the first declaration of its key; each declared key is kept once |
| `FieldValueMapLaws.MissingRows` | src/ingestion/scripts/load_field_value_map.py:396-398 | the missing rows are the first declarations of the declared keys that are not stored |
| `FieldValueMapLaws.LoadIsInsertOnly` | src/ingestion/scripts/load_field_value_map.py:13-21 | no key that holds a row, retracted or not, gets another, so its newest-wins reading is unchanged; each missing declared key gets one row, its first declaration |
| `FieldValueMapLaws.LoadIsIdempotent` | src/ingestion/scripts/load_field_value_map.py:13-21 | a second run of the bundle inserts nothing |
| `FieldValueMapLaws.HttpReadsKeyByKey` | src/ingestion/scripts/load_field_value_map.py:661-662 | the HTTP reader takes the answer apart key by key, whatever the keys hold |
| `FieldValueMapLaws.ReaderIsFaithfulExactly` | src/ingestion/scripts/load_field_value_map.py:661-662 | the line of a stored key reads as that key exactly when no field holds an escaped or line-breaking character |
| `FieldValueMapLaws.PlainMeans` | src/ingestion/scripts/load_field_value_map.py:100-102 | which keys those are, by code point |
| `FieldValueMapLaws.FetchedExactly` | src/ingestion/scripts/load_field_value_map.py:661-662 | over any table, a key is fetched exactly if it appears in the line of some stored key |
| `FieldValueMapLaws.UnbrokenKeyAppearsEscaped` | src/ingestion/scripts/load_field_value_map.py:661-662 | where a stored key has no line breaks, what appears in its line is its escaped form alone |
| `FieldValueMapLaws.HttpLoadOnKey` | src/ingestion/scripts/load_field_value_map.py:558-583 | over any table, a declared key, stored or missing, gets a row exactly if it appears in no stored key's line |
| `FieldValueMapLaws.MissingKeyIsNotSeeded` | src/ingestion/scripts/load_field_value_map.py:661-662 | any plain missing key is left unseeded where a key is stored that goes on after it with a line separator |
| `FieldValueMapLaws.HttpLoadDoesNothingExactly` | src/ingestion/scripts/load_field_value_map.py:558-583 | a load over HTTP changes nothing exactly if every declared key appears |
| `FieldValueMapLaws.SeedingTwiceOverHttp` | src/ingestion/scripts/load_field_value_map.py:558-583 | a bundle seeded into an empty table and loaded again over HTTP leaves it alone exactly if all its keys are plain |
| `FieldValueMapLaws.HttpLeavesAloneExactly` | src/ingestion/scripts/load_field_value_map.py:558-583 | over any table whose keys have at least two fields, no bundle loaded over HTTP gives any stored key another row exactly if all stored keys are plain |
| `FieldValueMapLaws.HttpLoadKeepsPlainKeys` | src/ingestion/scripts/load_field_value_map.py:558-583 | over HTTP a plain stored key is never written again, whatever else is stored |
| `FieldValueMapLaws.HttpLoadIsFaithfulOnPlainTables` | src/ingestion/scripts/load_field_value_map.py:558-583 | where all stored keys are plain the HTTP load is the faithful one |
| `FieldValueMapLaws.QuoteIsNotPlain` | src/ingestion/scripts/load_field_value_map.py:100-102 | a quote in a key is enough |
| `SharingLaws.StrongestIsGreatest` | src/frontend/src/mocks/dashboard-handlers.ts:132-140 | the fold finds a level that is there and that none outranks |
| `SharingLaws.GrantedLevelMeans` | src/frontend/src/mocks/dashboard-handlers.ts:142-148 | editor exactly if some grant to the caller or to everyone says so, nothing exactly if there is no such grant |
| `SharingLaws.StepKeepsInv` | src/frontend/src/mocks/dashboard-handlers.ts:429-616 | every handler keeps the shelves apart, one entry per dashboard and folder, one grant per grantee, distinct pins up to MAX_PINS |
| `SharingLaws.RunKeepsInv` | src/frontend/src/mocks/dashboard-handlers.ts:429-616 | so does every run, with administrators made and unmade between any two steps |
| `SharingLaws.RefusedChangesNothing` | src/frontend/src/mocks/dashboard-handlers.ts:429-616 | every other answer than done leaves everything as it was |
| `SharingLaws.GrantsAfter` | src/frontend/src/mocks/dashboard-handlers.ts:429-451 | the grantee has exactly the level put, or none, and every other grant is as it was |
| `SharingLaws.EntriesAfter` | src/frontend/src/mocks/dashboard-handlers.ts:579-616 | one entry, which carries exactly if the dashboard has no owner or the caller owns it or was granted to edit it, or none; and every other entry is as it was |
| `SharingLaws.PinsAfter` | src/frontend/src/mocks/dashboard-handlers.ts:484-506 | the dashboard is among the pins, last if it is new, or not, and no other pin moves in or out |
| `SharingLaws.UnpinUndoesPin` | src/frontend/src/mocks/dashboard-handlers.ts:484-506 | pinning something new and unpinning it restores the state, order included |
| `SharingLaws.UnfileUndoesFile` | src/frontend/src/mocks/dashboard-handlers.ts:579-616 | so do filing something new and unfiling it |
| `SharingLaws.DeleteUndoesPut` | src/frontend/src/mocks/dashboard-handlers.ts:429-451 | and granting to somebody new and deleting that grant, which whoever put it may do |
| `SharingLaws.WhoMayShareDashboards` | src/frontend/src/mocks/dashboard-handlers.ts:282-325 | a dashboard's grants are open exactly to an administrator who owns it or holds an editor grant, folders apart |
| `SharingLaws.WhoMayShareFolders` | src/frontend/src/mocks/dashboard-handlers.ts:282-325 | the same for a folder, except that a dashboard of the same id decides in its place |
| `SharingLaws.SameIdRefusesEditor` | src/frontend/src/mocks/dashboard-handlers.ts:300-302 | a state in which that refuses an administrator who may edit the folder |
| `SharingLaws.WhoMayShareFoldersApart` | src/frontend/src/mocks/dashboard-handlers.ts:282-325 | where no folder has a dashboard's id, exactly who holds the folder may share it |
| `SharingLaws.IdsStayApart` | src/frontend/src/mocks/dashboard-handlers.ts:531-551 | no handler makes a dashboard, so ids that start apart stay apart unless a folder is given a dashboard's |
| `SharingLaws.AccessTellsOwner` | src/frontend/src/mocks/dashboard-handlers.ts:150-182 | access is `ownerless` exactly on things without an owner |
| `SharingLaws.StepLiftsNobody` | src/frontend/src/mocks/dashboard-handlers.ts:429-616 | no step but a transfer gives the caller more access to any dashboard |
| `SharingLaws.AccessIgnoresRoles` | src/frontend/src/mocks/dashboard-handlers.ts:161-182 | being an administrator changes nobody's access to a dashboard |
| `SharingLaws.NoEscalation` | src/frontend/src/mocks/dashboard-handlers.ts:429-616 | over every run without a transfer, with administrators made and unmade on the way, access never rises, and nobody comes to own or to hold an editor grant |
| `SharingLaws.HeldByTransferOnly` | src/frontend/src/mocks/dashboard-handlers.ts:429-616 | over every run, with administrators made and unmade on the way, the caller comes to hold a thing only by a transfer to himself, as an administrator and from an owner who is none at that step, or by making the folder |
| `SharingLaws.CarriesIsFrozen` | src/frontend/src/mocks/dashboard-handlers.ts:190-196 | only filing, unfiling or deleting the folder changes what a folder carries |
| `SharingOutcomes.FolderAccessMeans` | src/frontend/src/mocks/dashboard-handlers.ts:150-159 | access to a folder, from its owner, its grants and the administrators alone |
| `SharingOutcomes.AccessMeans` | src/frontend/src/mocks/dashboard-handlers.ts:161-182 | access to a dashboard, from the owners, grants and carrying entries alone: who owns, who edits, who sees, and nobody else |
| `SharingOutcomes.FilingLends` | src/frontend/src/mocks/dashboard-handlers.ts:190-196 | filing what one owns or may edit gives it to everybody who has the folder, to edit if he edits the folder; filing anything else gives nobody anything; no other dashboard is touched |
| `SharingOutcomes.WhoMayFile` | src/frontend/src/mocks/dashboard-handlers.ts:579-597 | every answer to a filing, and when |
| `SharingOutcomes.WhoMayChangeFolders` | src/frontend/src/mocks/dashboard-handlers.ts:531-578 | who may rename, empty and delete a folder, and make one, with every refusal |
| `SharingOutcomes.FoldersAfter` | src/frontend/src/mocks/dashboard-handlers.ts:531-578 | and what changes then, and that nothing else does |
| `SharingOutcomes.WhoMayTransfer` | src/frontend/src/mocks/dashboard-handlers.ts:452-471 | every answer to a transfer: exactly from an owner who is no administrator to one who is |
| `SharingOutcomes.TransferAfter` | src/frontend/src/mocks/dashboard-handlers.ts:473-474 | it then has that owner, and everything else is as it was |
| `SharingOutcomes.WhoMayGrant` | src/frontend/src/mocks/dashboard-handlers.ts:308-325 | who may put and delete grants, from owners, grants and administrators alone |
| `SharingOutcomes.WhoMayPin` | src/frontend/src/mocks/dashboard-handlers.ts:484-506 | who may pin, up to twenty, and unpin |
| `SharingMock.StrongestOfSources` | src/frontend/src/mocks/dashboard-handlers.ts:161-182 | folding ownership, grants and every carrying folder finds the access as the model defines it |
| `SharingMock.Mock.Access` | src/frontend/src/mocks/dashboard-handlers.ts:161-182 | the loop over the folders computes it |
| `SharingMock.Mock.PutGrant` | src/frontend/src/mocks/dashboard-handlers.ts:429-443 | replaces the grantee's grant, if the caller may share |
| `SharingMock.Mock.DeleteGrant` | src/frontend/src/mocks/dashboard-handlers.ts:444-451 | removes it, if the caller may share |
| `SharingMock.Mock.Transfer` | src/frontend/src/mocks/dashboard-handlers.ts:452-475 | only from an owner who is no administrator to one who is |
| `SharingMock.Mock.Pin` | src/frontend/src/mocks/dashboard-handlers.ts:484-498 | once each, up to MAX_PINS, and only what the caller reaches |
| `SharingMock.Mock.Unpin` | src/frontend/src/mocks/dashboard-handlers.ts:499-506 | removes the pin even of what is out of reach by now |
| `SharingMock.Mock.CreateFolder` | src/frontend/src/mocks/dashboard-handlers.ts:531-551 | empty and the caller's, up to MAX_FOLDERS |
| `SharingMock.Mock.RenameFolder` | src/frontend/src/mocks/dashboard-handlers.ts:552-567 | for whoever may edit the folder |
| `SharingMock.Mock.DeleteFolder` | src/frontend/src/mocks/dashboard-handlers.ts:568-578 | for its owner, or an administrator if it has none |
| `SharingMock.Mock.FileUnder` | src/frontend/src/mocks/dashboard-handlers.ts:579-604 | one entry, on the right shelf, with the carries bit of this moment |
| `SharingMock.Mock.Unfile` | src/frontend/src/mocks/dashboard-handlers.ts:605-616 | removes the entry |
| `PodNetwork.CoverIsWiden` | deploy/gitops/scripts/gateway-realip.py:73-82 | a network holds another exactly if it is that one masked to its own prefix, section 3.1 of RFC 4632 |
| `PodNetwork.EnclosingNetwork` | deploy/gitops/scripts/gateway-realip.py:73-81 | ends for any slices, fails exactly on two address families, and else returns the smallest common network or the /16 around it |
| `PodNetwork.EnclosingIsUnique` | deploy/gitops/scripts/gateway-realip.py:73-81 | the result does not depend on the order or number of the slices |
| `PodNetwork.EnclosingCovers` | deploy/gitops/scripts/gateway-realip.py:73-81 | it holds every slice, is at most a /16 in prefix, and every network of such a prefix that holds the slices holds it |
| `PodNetwork.ContainsMeans` | deploy/gitops/scripts/gateway-realip.py:100-104 | an address lies in a network exactly if masking it gives that network |
| `PodNetwork.EnclosingIsExactly` | deploy/gitops/scripts/gateway-realip.py:73-81 | it is a given network of at most 16 bits exactly if that one holds all slices and is a /16 or has not all of them in one half |
| `PodNetwork.WholePrivateBlockExactly` | deploy/gitops/scripts/gateway-realip.py:7-9 | it is a whole private block of RFC 1918 exactly if the slices lie in that block and it is the /16 or they are not all in one half of it |
| `PodNetwork.OneSliceWidensToAPrivateBlock` | deploy/gitops/scripts/gateway-realip.py:7-9 | one slice 192.168.1.0/24 gives the whole of 192.168.0.0/16 |
| `PodNetwork.Resolve` | deploy/gitops/scripts/gateway-realip.py:84-109 | what is printed is private, has a prefix of 8 to 16 and holds every slice and Envoy pod; it is printed exactly if the enclosing network is like that; and each refusal says what is wrong, the uncovered pods by name |
| `EnclosingParens.Encl` | src/ingestion/dbt/audit_rmt_read_dedup.py:81-107 | None exactly if no bracket from index 1 on is open at `start`; else the group of the nearest one |
| `EnclosingParens.ScanForward` | src/ingestion/dbt/audit_rmt_read_dedup.py:97-107 | to the bracket that closes it, or the text's end, beyond `start` |
| `EnclosingParens.NoSmallerGroup` | src/ingestion/dbt/audit_rmt_read_dedup.py:81-107 | every bracket group from index 1 on that holds `start` holds the one found |
| `EnclosingParens.SliceIsBalanced` | src/ingestion/dbt/audit_rmt_read_dedup.py:97-107 | the slice holds `start` and is one balanced group, unless the text ends first |
| `EnclosingParens.OnlyTheFirstIsMissed` | src/ingestion/dbt/audit_rmt_read_dedup.py:85-96 | where nothing is found, a bracket group that holds `start` can only open the text |
| `PollLoop.ReadText` | src/ingestion/scripts/airbyte_sync_poll.py:79-82 | a text cut at FAILURE_MESSAGE_MAX_CHARS, and nothing of anything else |
| `PollLoop.Poll` | src/ingestion/scripts/airbyte_sync_poll.py:171-233 | the loop stops at the first reading that settles an exit code, and logs what each reading calls for |
| `PollLoop.ExitZeroMeans` | src/ingestion/scripts/airbyte_sync_poll.py:38-67 | exit 0 exactly if the last answer's JSON says "succeeded" and the last of its attempts lists a stream and no failure, whatever the earlier ones list |
| `PollLoop.ExitOneMeans` | src/ingestion/scripts/airbyte_sync_poll.py:38-67 | exit 1 exactly on a fatal error, or if it says "failed" or "cancelled", or "succeeded" with no stream or with a failure in the last attempt |
| `PollLoop.StatusMeans` | src/ingestion/scripts/airbyte_sync_poll.py:100-112 | the seven status texts and what each is read as |
| `PollLoop.FailureList` | src/ingestion/scripts/airbyte_sync_poll.py:49-56 | the failures are those of the last attempt's list, if it has one |
| `PollLoop.FailuresAre` | src/ingestion/scripts/airbyte_sync_poll.py:70-82 | one failure for each object in the list, in order, with texts cut at 500 characters |
| `PollLoop.FailureIsLogged` | src/ingestion/scripts/airbyte_sync_poll.py:205-231 | the log of a job that did not sync ends with one reason a failure and the last word, with the counters last read |
| `PollLoop.SuccessIsLogged` | src/ingestion/scripts/airbyte_sync_poll.py:223-226 | that of one that did ends with that word and exit code 0 |
| `PollLoop.ProgressLogged` | src/ingestion/scripts/airbyte_sync_poll.py:193-213 | a reading is logged as progress exactly if it has counters other than those last read |
| `PollLoop.ExitTwoMeans` | src/ingestion/scripts/airbyte_sync_poll.py:159-192 | exit 2 exactly at the end of an unbroken unreadable stretch that has lasted the threshold |
| `PollLoop.CompletedExactlyOnce` | src/ingestion/scripts/airbyte_sync_poll.py:131-143 | `sync.completed` is logged once, last and with the exit code, on a terminal status, and never otherwise |
| `PollLoop.UnreadableServerEndsLoop` | src/ingestion/scripts/airbyte_sync_poll.py:159-169 | a server unreadable for good ends the loop within ceil(threshold / interval) + 1 failed reads |
| `SessionProbe.SafeReturnTo` | src/frontend/src/auth/use-auth.ts:17-25 | a path that starts with one slash, and the one asked for unless that is no such path, is `/auth` itself or lies below `/auth/`; `/auth?x` is returned as it is |
| `SessionProbe.Page.SignInNow` | src/frontend/src/auth/use-auth.ts:32-40 | navigates unless the guard is set |
| `SessionProbe.Page.BounceIfSessionEnded` | src/frontend/src/api/fetch-with-auth.ts:28-52 | joins the probe in flight or starts one, unless the store has failed closed or a confirmation stands |
| `SessionProbe.Page.Judge` | src/frontend/src/api/fetch-with-auth.ts:38-43 | a failed probe signs in, a live one is remembered |
| `SessionProbe.Page.Settle` | src/frontend/src/api/fetch-with-auth.ts:48-52 | the probe is over and whoever awaited it returns |
| `SessionProbeLaws.VerdictIsObeyed` | src/frontend/src/api/fetch-with-auth.ts:38-43 | in every run, a probe answered with no session goes to the login once it is judged, and one answered with a session confirms it and moves nothing |
| `SessionProbeLaws.ClosedStoreSignsIn` | src/frontend/src/api/fetch-with-auth.ts:29-34 | a 401 that finds the store signed out goes to the login at once |
| `SessionProbeLaws.LateRefusalIsProbed` | src/frontend/src/api/fetch-with-auth.ts:35-52 | a 401 five seconds or more after the last confirmation waits for the probe in flight, or a new one |
| `SessionProbeLaws.EarlyRefusalIsNot` | src/frontend/src/api/fetch-with-auth.ts:35 | a sooner one returns and changes nothing |
| `SessionProbeLaws.OtherHands` | src/frontend/src/auth/use-auth.ts:6-40 | a sign-in by anybody navigates, a restored page may navigate again, and the store is what was written last |
| `SessionProbeLaws.NextKeepsInv` | src/frontend/src/api/fetch-with-auth.ts:5-52 | every step keeps: the only unfinished probe is the current one, and everyone who waits waits for it |
| `SessionProbeLaws.OneProbeInFlight` | src/frontend/src/api/fetch-with-auth.ts:5-6 | at most one probe is in flight, in every interleaving |
| `SessionProbeLaws.SettlingReleasesEveryone` | src/frontend/src/api/fetch-with-auth.ts:48-52 | a probe that settles is always the current one, and releases every waiter |
| `SessionProbeLaws.NoProbeSoonAfterConfirmation` | src/frontend/src/api/fetch-with-auth.ts:9-12 | no probe starts within CONFIRMED_FOR_MS of any confirmation before it |
| `SessionProbeLaws.SignInNeedsEvidence` | src/frontend/src/api/fetch-with-auth.ts:28-43 | a 401 navigates only if the store had failed closed or its probe was answered so |
| `SessionProbeLaws.RefusalsAreNotALogout` | src/frontend/src/api/fetch-with-auth.ts:21-27 | over every run, any number of 401s leave the page signed in and in place until somebody says the session is over |
| `SessionProbeLaws.OneNavigationPerPageLife` | src/frontend/src/auth/use-auth.ts:6-15 | at most one navigation more than there were bfcache restores |
| `IntensityPivot.PivotIntensity` | src/frontend/src/lib/ingestion-chart.ts:124-149 | the loop over the points and the two sorts, for any points at all |
| `IntensityPivot.TotalsByKeyLoop` | src/frontend/src/lib/ingestion-chart.ts:152-162 | the roster's loop and sort |
| `IntensityPivotLaws.RowHolds` | src/frontend/src/lib/ingestion-chart.ts:128-138 | a bucket has a row exactly if a point parses into it; its bands are the sums of its points, and `total` and `epoch` are off by the band of that name |
| `IntensityPivotLaws.TotalIsRightExactly` | src/frontend/src/lib/ingestion-chart.ts:131-135 | a row's total is right exactly if the band `total` of that bucket adds up to 0 |
| `IntensityPivotLaws.TotalAsAKeyCountsTwice` | src/frontend/src/lib/ingestion-chart.ts:134-135 | one row under the key `total` counts as two |
| `IntensityPivotLaws.PivotRows` | src/frontend/src/lib/ingestion-chart.ts:124-148 | for any points, one row for each bucket that has a point, in ascending order of the epochs shown; these strictly increase exactly if no two buckets show the same |
| `IntensityPivotLaws.EpochAsAKeyMerges` | src/frontend/src/lib/ingestion-chart.ts:130-133 | rows banded under `epoch` make two buckets show one epoch |
| `IntensityPivotLaws.RosterHolds` | src/frontend/src/lib/ingestion-chart.ts:151-162 | one band a key with its sum, the widest first, names between equals |
| `IntensityPivotLaws.PivotKeys` | src/frontend/src/lib/ingestion-chart.ts:140-143 | for any points, the keys are the roster's of the parsable points, in its order, each once |
| `IntensityPivotLaws.RowsAddUp` | src/frontend/src/lib/ingestion-chart.ts:131-135 | for any points, what a row's bands over those keys add up to, which is its total exactly if what is off under the keys `epoch` and `total` cancels out |
| `IntensityPivotLaws.OrdinaryKeysAddUp` | src/frontend/src/lib/ingestion-chart.ts:131-148 | without these two keys epochs strictly increase and every total is the sum of its bands |
| `IntensityPivotLaws.ColumnsAddUp` | src/frontend/src/lib/ingestion-chart.ts:134-137 | for any points, each band's column adds up to what the roster shows, plus for the bands `epoch` and `total` what the rows keep under these names |

## Left out

Session refresh and 401 probe:

- `setTimeout`'s own limits: a delay over 2^31 ms, and the clock running backwards.
- Non-finite JSON numbers: a timestamp that overflows to Infinity counts as a number in the source and is none in the model's `real`.
- The text of localStorage entries: a lease is read whole or as absent, which is also what a corrupt one is.
- `start()` on a page without BroadcastChannel is a tab that is not wired; a channel that fails later is not modelled.
- The steps of a promise chain between an await and its continuation in `refresh()`: other code runs between the three awaits, not within the parts.
- A well-formed message comes from a tab of the model; from elsewhere come only messages the driver does not understand.
- The identity fields of a session are one opaque string; roles, experiments and impersonation do not matter here.
- `signOut`'s request and logout URL: only its write to the store is a step.
- `resetSessionProbe`, which is for the repository's own tests.
- In a run a timer goes off when it is due or later, never before; how late is a parameter of the timing results for the leader's heartbeats and unbounded for everything else.
- Nothing but the tabs writes to localStorage: somebody clearing it is not a step.
- A page's redirect guard is reset by a bfcache restore in the probe model only; in the refresh model a page navigates at most once.

Calendar:

- Time of day and daylight saving: all dates are civil days.
- PeriodRange.PeriodToDateRange: asks for years from 1001, and PeriodRange.PreviousPeriodRange and PeriodRange.ShiftBack for real dates from the year 1000, because `Date` reads the years 0 to 99 as 1900 to 1999 and years below 1000 are not printed with four digits. The laws on values have no such bound and say what happens there.
- date-fns: a parsed date is a real one of the civil calendar.
- The number of days a `too_long` refusal reports.

Evidence rows:

- `String.prototype.toLowerCase`, `Number.parseFloat` and the hash are functions the results hold for whatever they are; a number cell is finite.
- Strings compare character by character; UTF-16 surrogates against characters above them in the same string order are not distinguished.
- How the mock makes up its rows and columns, and the CSV export. That they depend on nothing but what a cursor is bound to is built into the model's queries and not proved of the mock.
- EvidenceOrderLaws.SortedOnce: asks for distinct tiebreakers, which the mock's dated rows have; rows that share one keep the order they came in, which the stable sort of the model does too.
- EvidenceOrderLaws.DescendingReversesBothBlocks: asks for the same, because two rows that compare equal do not change places when the direction turns.
- A cursor is one a page handed out or one that does not decode; a hand-made one with a negative or fractional offset is not modelled.

Loader:

- Splitting a file into records (csv) and stripping fields; a file is its records.
- The rejections of `defaults.tsv`, `roles.tsv` and `task-values.tsv`: `_parse_files` and `_load` are modelled for any of them, the rules only for mappings.
- FieldValueMap.Warehouse.Execute: the table is a list of rows to which an INSERT adds; ClickHouse's merges, quorum and replicas, and the statement around the body, are not modelled.
- `splitlines` takes `\r\n` as one break and the model as two, which makes an empty line more, and empty lines are dropped.
- Whether ClickHouse's own output escapes exactly the characters of TSV_ESCAPES is taken from its documented format.

Sharing:

- Handlers run one at a time; the pause in which a request body is read is not a step.
- Reading lists, tags and widgets, and what a dashboard shows.
- A new folder's id is an input: the mock's `folder-${count + 1}` can repeat after a delete.
- Trimming a folder's name.
- Who granted something and when.
- The handlers that make and unmake administrators: who is one is an input of each step.

Pod network and brackets:

- `is_private` is any predicate; kubectl's answers are parsed networks and addresses.
- The regular expressions that find reads and deduplication in SQL text.
- EnclosingParens.Encl: `start` lies inside the text, as the start of a match does.

Poll loop:

- Reading the counters of an answer is any function that finds none, raises or returns them.
- Log texts, durations and levels; the token and the request.
- An interval that is not positive: the bound on failed reads needs the loop to sleep.

Intensity pivot:

- Keys every JavaScript object inherits, such as `constructor`, are ordinary columns in the model.
- `localeCompare` is any consistent order of names, `Date.parse` any function.
- `logTicks`, labels, colours and axis padding would add easy members.

Not modelled at all: the Rust services, React components and routes, API clients, CI gates, formatting.
