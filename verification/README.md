# Ocar: proofs about the shared-state, money and codec code

This project models nine parts of the Ocar monorepo in Dafny 4.11 and proves what they guarantee. Amounts, clocks and
coordinates are exact numbers (`Math.round(x)` is `floor(x + 1/2)`); randomness, the wall clock, database replies and
network failures are arguments or events, so every statement holds for all of them. `dafny verify dfyconfig.toml`
checks everything.

| file | what it models |
|---|---|
| `Otp.dfy`, `OtpTheorems.dfy`, `OtpExact.dfy`, `OtpServer.dfy` | one-time codes and their brute-force counters: any number of interleaved calls on one Redis, with TTLs running out and calls abandoned between or during commands; then the same calls as plain sequential methods |
| `GpsBuffer.dfy`, `GpsMemory.dfy` | the breadcrumb buffer with one INSERT in flight: where every row goes, in which order, and how much memory it takes |
| `NearbyCells.dfy`, `Nearby.dfy` | the "cars near you" subscription: subscribe, unsubscribe and recheck racing with database lookups, and the sliding-window limiter |
| `Fare.dfy`, `FareExact.dfy`, `TripWindow.dfy` | quotes in four pricing branches, rental and overtime settlement, and the booked-time clock |
| `Migrate.dfy` | concurrent, crashing migration runners under one advisory lock |
| `Drain.dfy` | the shuffled, timed closing of a server's sockets |
| `Polyline.dfy` | both copies of the polyline decoder, with 32-bit words and NaN past the end, against the published encoding |
| `Geo.dfy` | nearest point on a polyline |
| `OffersCsv.dfy` | the redemptions export and an RFC 4180 reader |
| `Options.dfy`, `Sequences.dfy`, `Spans.dfy`, `JsNumber.dfy` | optional values, repeated values, counting, JavaScript rounding |

The concurrent parts are a state, an event type and a `Step` function; a run is a list of events, and theorems are about
`Run` over every list. The code that updates variables is a class or a method beside it, whose postcondition is the
matching `Step` or specification function. Fields called history (`serial`, `life`, `ticket`, `accepted`, ...) record
what happened and are never read by a decision.

## Where the code and its comments differ

- `otp.ts:90` says two parallel correct submissions cannot both succeed. Of one stored value that is so
  (`ConsumedOnce`), but one code can let two calls in: both read it, the first consumes it, a new code is stored, and the
  second call's DEL takes the new code (`OneCodeTwoSuccesses`). A success consumed the code it was compared with exactly
  when no code was stored for the account between its GET and its DEL (`SuccessMatched`).
- A verifier that reads an expired code deletes whatever code its account's key holds by then (`otp.ts:107-108`): a
  newer one than it read exactly when one was stored since its GET (`StaleDelHits`, `StaleDelLosesNewCode`).
- `gps-buffer.ts:15` calls `MAX_BUFFERED` a hard cap. Failed flushes put rows back without trimming, so the buffer can
  reach three times the cap and memory four times (`MemoryBoundIsTight`), and never more (`MemoryBound`). The buffer is
  over the cap exactly from a failure whose rows to retry overfill it until the next enqueue or flush
  (`CapFailsExactly`), so never in a run without a failed flush (`CapHoldsWithoutFailures`).
- `socket.server.ts:248` gives each subscribe a new generation so that an overtaken lookup does nothing, and of lookups
  of an older generation that is so (`StaleLookupIsIgnored`). But a recheck takes its generation at the tick (line 273)
  and its ride from the last commit (line 271). A tick between a subscribe to another ride and its answer asks about the
  old ride under the new generation, and "no longer searching" then ends the new subscription, or throws its lookup away
  (`RecheckEndsAnotherRide`). A recheck cannot do either exactly when no subscribe to another ride is waiting at its
  tick (`RecheckEndsOnlyItsRide`).
- The clock and the bill agree at every whole millisecond, unless the booked time ends before 1970 between two
  milliseconds, where `Date` truncates upwards (`ClockMatchesBillExactly`).
- Package-rental lines add up exactly when the package price is in whole paise (`LinesAddUp`).

## Model

| member | source | states |
|---|---|---|
| OtpTheorems.GuessBudget | api/src/lib/otp.ts:82-128 | In every run of any number of verifiers, issuers, expiries and abandoned calls, at most 10 hash comparisons are made under numbers of one life of the guess counter, however many codes are stored in it; a comparison is never made without a number |
| OtpTheorems.LifeBudget | api/src/lib/otp.ts:87-90 | INCR hands each number of a counter life to one call only, so at most `bound` calls ever hold one of its first `bound` numbers |
| OtpTheorems.LimiterBudget | api/src/lib/otp.ts:144-172 | Per counter life at most 10 OTP requests are allowed and at most 5 ride-PIN attempts pass |
| OtpTheorems.SuccessesNeedWrites | api/src/lib/otp.ts:103-128 | Successful verifications never outnumber the codes held at the start plus the `storeOtp` writes made since |
| OtpTheorems.WritesAreIssued | api/src/lib/otp.ts:84 | Codes stored during a run and `storeOtp` calls whose SET reached Redis are equally many |
| OtpTheorems.ConsumedOnce | api/src/lib/otp.ts:126 | Two successes never consume the same stored code |
| OtpTheorems.SuccessMatched | api/src/lib/otp.ts:103-126 | A success's guess is the hash last stored for the account when the call read it; it consumed that code if and only if none was stored in between |
| OtpTheorems.SharedCodeNeedsReissue | api/src/lib/otp.ts:118-126 | If two successes were compared with the same stored code, a new code was stored between the GET and the DEL of one of them |
| OtpTheorems.OneCodeTwoSuccesses | api/src/lib/otp.ts:87-128 | A concrete run in which two calls compared with one stored code both succeed |
| OtpTheorems.CodesLeave | api/src/lib/otp.ts:84-126 | A stored code stays unless it expires, is replaced by an issuer, or is deleted by a verifier of its account: the DEL that claims it, which records that very code unless its caller gave up, or the DEL of one that read an expired code |
| OtpTheorems.StaleDelHits | api/src/lib/otp.ts:103-108 | In every run, the DEL after reading an expired code leaves the account without a code; if the account still has one by then, it is a code other than the one read if and only if one was stored since the GET |
| OtpTheorems.StaleDelLosesNewCode | api/src/lib/otp.ts:84-108 | From any state in which a verifier is about to send that DEL, a code stored first, whose `storeOtp` reports success, is gone after it |
| OtpTheorems.StaleReaderReachable | api/src/lib/otp.ts:84-107 | Such a state is reached 300 seconds after a code is issued, while Redis still holds it |
| OtpTheorems.NoPermanentCounter | api/src/lib/otp.ts:50-65 | A call that incremented a live counter life without a TTL has its EXPIRE still to run, or was abandoned at the INCR itself; so every call past its `incrWithTtl`, abandoned later or not, leaves its life ended or with a TTL |
| OtpTheorems.LivesEndForGood | api/src/lib/otp.ts:53-65 | A counter life that has ended never comes back |
| Otp.RunKeepsInv | api/src/lib/otp.ts:53-179 | The invariant behind these: stored codes are the last write to their account, lives are distinct, numbers and claims are never shared |
| OtpTheorems.VerifyAlone | api/src/lib/otp.ts:91-142 | The step machine run without interference answers and changes Redis exactly as the sequential `consumeOtp` |
| OtpTheorems.LimiterAlone | api/src/lib/otp.ts:144-172 | The same for `checkRateLimit`, its remaining requests included, and `checkRideOtpAttempts` |
| OtpExact.VerifyExactly | api/src/lib/otp.ts:91-142 | A new `consumeOtp` with no one else about, case by case on what Redis holds: the answer, and every key it leaves, with the 300-second lock and counter and the ten guesses written out |
| OtpExact.IssueExactly | api/src/lib/otp.ts:70-85 | A new `storeOtp` leaves the code, its hash and its 300 seconds, and no other change |
| OtpExact.RateLimitExactly | api/src/lib/otp.ts:144-154 | A new `checkRateLimit` counts one hit on its account's request counter, with 300 seconds, and allows ten |
| OtpExact.RideAttemptExactly | api/src/lib/otp.ts:162-172 | A new `checkRideOtpAttempts` counts one hit on that ride's and that end's counter, with 900 seconds, and lets five through |
| OtpExact.RideClearExactly | api/src/lib/otp.ts:174-179 | A new `clearRideOtpAttempts` removes that counter only |
| OtpExact.TouchesItsOwn | api/src/lib/otp.ts:53-179 | In any state, a command changes no code or lock of another account, no counter but its call's own, and no other call |
| OtpExact.AnswersAreJustified | api/src/lib/otp.ts:109-172 | In every run, however calls interleave, each answer, and each lock or claim about to be made, is the one that the number the call was given and the hash it read call for |
| OtpExact.LostRace | api/src/lib/otp.ts:126 | A call whose code was taken before its DEL is told it has expired and changes nothing |
| OtpExact.AbandonedStillActs | api/src/lib/otp.ts:53-142 | Giving up on a call changes nothing in Redis; its command may still run with its full effect, unread |
| OtpExact.TtlsRunOut | api/src/lib/otp.ts:50-65 | Codes and locks can expire at any moment, a counter only if it has a TTL |
| OtpServer.Redis.IncrWithTtl | api/src/lib/otp.ts:53-65 | The returned count is the counter's, and the counter it leaves always has a TTL, kept if it had one |
| OtpServer.Redis.StoreOtp | api/src/lib/otp.ts:70-85 | The code is replaced; neither the guess counter nor the lock is touched |
| OtpServer.Redis.IsVerifyLocked | api/src/lib/otp.ts:131-142 | True exactly when the lock key exists or the stored code carries a lock still in force |
| OtpServer.Redis.ConsumeOtp | api/src/lib/otp.ts:91-129 | Success exactly when unlocked, a live code is stored, the hash fits and fewer than 10 guesses were counted; then code and counter are gone |
| OtpServer.Redis.CheckRateLimit | api/src/lib/otp.ts:144-154 | Allowed exactly when fewer than 10 requests were counted; allowed and remaining add up to the limit |
| OtpServer.Redis.CheckRideOtpAttempts | api/src/lib/otp.ts:162-172 | The attempt number, or an error from the sixth attempt on; one hit is counted and the counter has a TTL |
| OtpServer.Redis.ClearRideOtpAttempts | api/src/lib/otp.ts:174-179 | That ride's counter is gone and every other counter, code and lock is as it was; the next five attempts are numbered 1 to 5 again and the sixth is refused |
| OtpServer.AttemptNumber | api/src/lib/otp.ts:162-172 | Attempts in a row are numbered on from the counter and refused from the sixth on |
| OtpServer.WrongGuesses | api/src/lib/otp.ts:112-124 | Wrong guesses, each at its own later instant before the code expires, are told 9, 8, ... left, the one that uses up the budget is locked out, and every later one meets the lock |
| GpsBuffer.RunKeepsInv | api/src/lib/gps-buffer.ts:25-61 | Over any run every enqueued row is in exactly one of inserted, in flight, buffered, overflowed, given up; kept rows are in enqueue order without repeats; content is unchanged and `attempts` is the number of failed batches the row was in; a row is given up only at 3 |
| GpsBuffer.OverflowDropsOldest | api/src/lib/gps-buffer.ts:27-31 | An overflow drops only rows older than every row it keeps, down to the cap |
| GpsBuffer.SplitBatch | api/src/lib/gps-buffer.ts:54-56 | A failed batch is split without loss between rows to retry and rows given up |
| GpsBuffer.EnqueueExactly | api/src/lib/gps-buffer.ts:25-37 | A row goes last, only the excess over 5000 is dropped, from the front, and 200 waiting rows start a flush of them all exactly when none is in flight |
| GpsBuffer.FlushExactly | api/src/lib/gps-buffer.ts:39-59 | A flush takes the whole buffer or does nothing; a success appends the batch to the inserted rows |
| GpsBuffer.FailedExactly | api/src/lib/gps-buffer.ts:52-59 | After a failure each row has one attempt more; rows on their third failure are given up, all others stand in front of the buffer in order, and nothing else moves |
| GpsBuffer.Buffer.EnqueueBreadcrumb | api/src/lib/gps-buffer.ts:25-37 | The update of the buffer is the machine's enqueue step, flush at 200 rows included |
| GpsBuffer.Buffer.FlushBreadcrumbs | api/src/lib/gps-buffer.ts:39-46 | One flush at a time takes the whole buffer; no row in memory is lost or moved past another |
| GpsBuffer.Buffer.InsertSucceeded | api/src/lib/gps-buffer.ts:52-59 | The batch in flight joins the inserted rows and the next flush may start |
| GpsBuffer.Buffer.InsertFailed | api/src/lib/gps-buffer.ts:53-59 | Counts the attempt on each row and puts rows with attempts left back in front, in order |
| GpsMemory.MemoryBound | api/src/lib/gps-buffer.ts:14-56 | Through any run from an empty buffer it holds at most 3 x 5000 rows, at most 5000 while a flush is in flight, and with the batch at most 4 x 5000 |
| GpsMemory.MemoryBoundIsTight | api/src/lib/gps-buffer.ts:15-56 | Runs that reach both bounds |
| GpsMemory.StepOverCap | api/src/lib/gps-buffer.ts:27-56 | One event leaves the buffer over 5000 rows if and only if it fails a batch whose rows with an attempt left do not fit beside the buffer, or it is an outcome that finds the buffer over the cap already |
| GpsMemory.CapFailsExactly | api/src/lib/gps-buffer.ts:15-56 | In every run the buffer is over 5000 rows if and only if such a failure has happened and no enqueue or flush since |
| GpsMemory.CapHoldsWithoutFailures | api/src/lib/gps-buffer.ts:15-31 | Without a failed flush the cap is never exceeded |
| GpsMemory.RetryCohorts | api/src/lib/gps-buffer.ts:54 | A failed flush moves each attempts cohort up by one, whole, and gives up the last |
| NearbyCells.CollectRoomsAround | api/src/websocket/nearby-cells.ts:34-41 | The nested loops build the specified block for any ring |
| NearbyCells.RoomInjective | api/src/websocket/nearby-cells.ts:24-26 | A room name stands for one cell |
| NearbyCells.RoomSays | api/src/websocket/nearby-cells.ts:20-31 | A room's name is `nearby:` and the two canonical decimal numerals of its cell, latitude first: the whole fiftieths of a degree at or below the point |
| NearbyCells.BlockCovers | api/src/websocket/nearby-cells.ts:34-41 | The block holds a cell's room exactly when the cell is within the ring of the pickup's |
| NearbyCells.NearCarsAreHeard | api/src/websocket/nearby-cells.ts:34-41 | A rider has 25 rooms, among them the room of every point within two cell widths each way |
| NearbyCells.GuaranteedRadius | api/src/websocket/nearby-cells.ts:3-14 | Every car within 3500 m of any pickup is heard if and only if a degree is at least 87500 m each way |
| Nearby.RoomsAreTheLastBlock | api/src/websocket/socket.server.ts:245-298 | In every reachable state the joined rooms are none, or the whole block of the pickup the last committed lookup returned; while connected they are that block whenever there is one |
| Nearby.StaleLookupIsIgnored | api/src/websocket/socket.server.ts:248-288 | A lookup of an older generation changes nothing whenever it answers |
| Nearby.RecheckEndsOnlyItsRide | api/src/websocket/socket.server.ts:268-296 | A recheck issued now can never end a subscription to another ride than it asks about, whatever happens before it answers, if and only if no subscribe to another ride is waiting for its lookup; under the same condition, and only then, it can never throw such a lookup away |
| Nearby.RecheckEndsAnotherRide | api/src/websocket/socket.server.ts:268-296 | A run in which the recheck of the old ride empties the rooms of the new one, and one in which it keeps the new one from joining |
| Nearby.RecheckCutsOff | api/src/websocket/socket.server.ts:241-276 | While the socket is in rooms its timer is armed and each tick asks about its ride; unless a subscribe or a leave comes first, "no longer searching" empties the rooms until the rider subscribes again |
| Nearby.StillSearching | api/src/websocket/socket.server.ts:275 | A recheck that finds the ride still searching changes nothing, whatever its generation |
| Nearby.RoomsEmptyExactly | api/src/websocket/socket.server.ts:260-298 | One event takes a connected socket out of its rooms if and only if it is an unsubscribe, a disconnect, or a lookup of the current generation that finds no searching ride |
| Nearby.StaysInRooms | api/src/websocket/socket.server.ts:245-298 | Through every run without such an event a socket in rooms stays in rooms |
| Nearby.OnlyAnswersMoveRooms | api/src/websocket/socket.server.ts:260-299 | Subscribing, ticking and failed lookups move no room, ride or timer; what a tick, a failed lookup, an unsubscribe and a disconnect change, and nothing more |
| Nearby.NewerOvertakes | api/src/websocket/socket.server.ts:248-286 | An accepted subscribe, and leaving, overtake every lookup issued before |
| Nearby.CurrentLookupCommits | api/src/websocket/socket.server.ts:287-296 | A lookup that was not overtaken moves the socket to exactly its pickup's block and arms the recheck |
| Nearby.UnsubscribeIsFinal | api/src/websocket/socket.server.ts:260-298 | After an unsubscribe the socket is in no nearby room until it subscribes again, whatever lookups were in flight |
| Nearby.AskRate | api/src/websocket/socket.server.ts:282-285 | With a clock that does not go back, no closed window of 60000 ms holds more than 12 accepted asks |
| Nearby.AcceptedExactly | api/src/websocket/socket.server.ts:280-287 | With such a clock, a subscribe with a ride id is accepted and its lookup issued if and only if fewer than 12 accepted asks are at most 60 seconds old; otherwise only the queue is trimmed |
| Nearby.NearbySocket.LeaveNearby | api/src/websocket/socket.server.ts:260-267 | Exactly the subscribed rooms are left, and the state is the machine's after leaving |
| Nearby.NearbySocket.OnSubscribe | api/src/websocket/socket.server.ts:279-287 | Trims the queue and issues a lookup in a new generation, or does nothing when over the limit or without a ride id |
| Nearby.NearbySocket.AfterLookup | api/src/websocket/socket.server.ts:288-296 | Leaving and joining room by room gives the machine's reply step |
| Nearby.NearbySocket.OnTick | api/src/websocket/socket.server.ts:270-274 | The recheck's lookup carries the subscribed ride and the generation of the tick |
| Nearby.NearbySocket.AfterRecheck | api/src/websocket/socket.server.ts:275 | Whatever ride it asked about, a recheck of the current generation without a row leaves; any other leaves rooms, ride, timer and generation as they were |
| Fare.LinesAddUp | api/src/lib/fare.ts:86-213 | The printed lines, top-up inside the base line included, sum exactly to the subtotal in every branch; for a package rental if and only if the package is in whole paise |
| Fare.TotalIsSurgedSubtotal | api/src/lib/fare.ts:107-200 | The subtotal is in whole paise and the total, computed as two rounded parts, is `round2(subtotal * surge)` |
| Fare.MeteredWithinAPaisa | api/src/lib/fare.ts:159-170 | A per-day trip's two rounded lines are within a paisa of max(km driven, package km) times the card's rate |
| Fare.SubtotalNearExact | api/src/lib/fare.ts:86-213 | In every branch rounding line by line moves the subtotal by at most four paise from the unrounded price |
| Fare.DaysCoverTheTrip | api/src/lib/fare.ts:160 | The fewest whole days that cover the trip, at least one |
| FareExact.PackagePriced | api/src/lib/fare.ts:104-122 | Every amount of a package rental from the inputs alone: the package, kilometres and minutes beyond it at their own rates rounded once, nothing else, and the surge |
| FareExact.HourlyPriced | api/src/lib/fare.ts:136-157 | Every amount of an hourly round trip (version 2, at most 24 hours, an hourly rate): kilometres, booked hours, stops, flat base with top-up, each rounded once to the paisa |
| FareExact.PerDayPriced | api/src/lib/fare.ts:159-189 | Every amount of any other round trip: the fewest days that cover it, the package of kilometres and the allowance per day, and the kilometres beyond |
| FareExact.OneWayPriced | api/src/lib/fare.ts:191-213 | Every amount of a one-way trip: kilometres, minutes, stops, flat base with top-up |
| FareExact.ReturnRate | api/src/lib/fare.ts:124-126 | The return rate never matters to an ordinary cab, takes the place of the ordinary rate for a return cab, and counts for nothing when missing or 0 |
| Fare.TotalMonotoneInKm | api/src/lib/fare.ts:86-213 | For a non-negative rate and surge the total never decreases as `estimated_km` grows |
| Fare.SettledAtLeastQuoted | api/src/lib/fare.ts:253-281 | A rental settles at no less than its quote without overage |
| Fare.SettledMonotoneInTime | api/src/lib/fare.ts:253-281 | For one GPS distance the settled total never falls as minutes pass, even when the distance becomes plausible |
| Fare.UnflaggedSkipIsSafe | api/src/lib/fare.ts:262-279 | When distance is skipped without a flag, every distance plausible for the time has no overage and settles the same |
| FareExact.SettledExactly | api/src/lib/fare.ts:224-281 | Every amount of a rental settlement from its inputs: when a distance is plausible, minutes and kilometres beyond limit and grace, what they cost, the surged total, and exactly when a review is asked for |
| FareExact.OvertimeExactly | api/src/lib/fare.ts:297-316 | The fewest whole minutes past booked hours and grace that reach completion, in whole rupees at a sixtieth of the hourly rate, and flagged beyond the threshold; 5 and 60 minutes by default |
| JsNumber.RoundError | api/src/lib/fare.ts:215-217 | The rounding is to the nearest, halves up |
| TripWindow.ClockMatchesBillExactly | api/src/lib/fare.ts:297-316 | At every whole millisecond the clock shows overtime exactly when the settlement bills minutes, with the same minutes and rupees, if and only if the booked end is at or after 1970 or in whole milliseconds |
| TripWindow.WindowIffPricedHourly | api/src/lib/trip-window.ts:38-43 | A ride has a window exactly when its quote is priced hourly |
| TripWindow.FieldsExactly | api/src/lib/trip-window.ts:38-54 | Which rides have a window, where its end lies to the millisecond, its rate and its grace, and that settled overtime shows only on completed rides |
| TripWindow.ClockExactly | apps/user/lib/tripWindow.ts:29-48 | The five states by the instants at which each begins, with the time left, the started minutes and the rounded amount of each |
| TripWindow.ClockMovesForward | apps/user/lib/tripWindow.ts:29-48 | As time passes the state, the billed minutes and the amount only move forward |
| TripWindow.StartedMinutes | api/src/lib/trip-window.ts:48 | Dropping a fraction of a millisecond never changes how many minutes have started |
| Migrate.MigrationsAreAPrefix | api/src/db/migrate.ts:70-169 | In every reachable state the committed SQL files are the recorded rows, each once: the rows of before and then the missing files in sorted order up to a point (a prefix of the list on a new database); at most one runner is between lock and unlock |
| Migrate.CompletedMeansApplied | api/src/db/migrate.ts:126-164 | A runner that completes leaves every `.sql` file of the directory applied |
| Migrate.HolderCompletes | api/src/db/migrate.ts:133-167 | From any reachable state the runner holding the lock completes and frees it if nothing stops it |
| Migrate.SqlFilesAscend | api/src/db/migrate.ts:127-130 | The list ascends by character code, a prefix first, and holds exactly the directory's names ending in `.sql` |
| Migrate.NewRowsAscend | api/src/db/migrate.ts:126-169 | In every run, what has been applied since the start ascends, and is exactly what an initial stretch of the sorted list lacked |
| Migrate.FailureFreesTheLock | api/src/db/migrate.ts:155-168 | A holder that fails, throws or dies leaves rows and files as they were, is gone, and its lock goes with it |
| Migrate.FailsWhere | api/src/db/migrate.ts:126-168 | SQL can fail exactly inside a transaction, other errors exactly outside, and a runner can die anywhere up to its unlock |
| Migrate.AnotherTakesOver | api/src/db/migrate.ts:70-169 | Wherever the holder dies, a waiting runner then takes the lock, loses nothing of what was applied, and applies the rest |
| Migrate.TableStays | api/src/db/migrate.ts:118-124 | In every run, whoever is past preparing finds the bookkeeping table there |
| Migrate.Database.Migrate | api/src/db/migrate.ts:132-164 | One run adds the missing files in order up to the first that fails, and succeeds exactly when none fails |
| Drain.Shuffle | api/src/websocket/drain.ts:44-51 | The in-place swaps produce the specified order |
| Drain.ShufflePermutes | api/src/websocket/drain.ts:44-51 | The order is a permutation of the sockets |
| Drain.EveryOrder | api/src/websocket/drain.ts:44-51 | Every permutation comes out of some draws |
| Drain.DrainsInAnyOrder | api/src/websocket/drain.ts:60-84 | For every order of the sockets there are draws that make a drain close them in that order |
| Drain.EvenOdds | api/src/websocket/drain.ts:47 | Each open position is picked by the draws of one interval, and all intervals are equally long |
| Drain.PicksFromOrder | api/src/websocket/drain.ts:44-51 | Different picks give different orders of distinct sockets, so all orders are equally likely |
| Drain.ScheduledExactly | api/src/websocket/drain.ts:57-88 | A drain sets one counted timer per socket; timer `i` of `n` waits for the moment (i + jitter)/n of the duration, rounded to a millisecond and capped by the end; an empty drain is done at once |
| Drain.LateArrival | api/src/websocket/drain.ts:88-93 | A late arrival is closed after at most five seconds or half the duration, uncounted; before a drain nothing happens |
| Drain.FiresExactly | api/src/websocket/drain.ts:79-83 | A timer closes its own socket and is gone |
| Drain.Drainer.StartDrain | api/src/websocket/drain.ts:57-97 | One timer per socket in shuffled order, each in its slot; a second call changes nothing and returns the drain in progress |
| Drain.Drainer.TimerFires | api/src/websocket/drain.ts:79-83 | A counted close; `done` resolves on the last one only |
| Drain.DoneMeansAllClosed | api/src/websocket/drain.ts:65-86 | In every run, late arrivals included, `done` resolves at most once and has resolved exactly when each socket present at the start has been closed once |
| Drain.SecondStartAddsNothing | api/src/websocket/drain.ts:58 | A `startDrain` during a drain adds no timer |
| Drain.RateBound | api/src/websocket/drain.ts:75-78 | For any draws at most (w + 1) / step + 2 closes are scheduled in any window of w ms |
| Drain.DelayInSlot | api/src/websocket/drain.ts:78 | Each close is scheduled within half a millisecond of its slot |
| Polyline.DecodeAdmin | apps/admin/lib/polyline.ts:4-17 | Returns the specified decoding and ends on every string, truncated ones included; of an encoding of valid points it returns their degrees, latitude first |
| Polyline.DecodeUser | apps/user/lib/polyline.ts:1-25 | The second copy returns the same points on every string |
| Polyline.DecodeUndoesEncode | apps/admin/lib/polyline.ts:4-17 | Decoding the published encoding gives each point back in degrees, latitude first, if and only if every offset fits in 31 bits |
| Polyline.RoundTrip | apps/user/lib/polyline.ts:1-25 | So it does for every list of valid coordinates |
| Polyline.ReadChunks | apps/admin/lib/polyline.ts:9 | The chunks of a number that fits the word read back as that number |
| Polyline.ReadBits | apps/admin/lib/polyline.ts:8-12 | What any string reads as, malformed or truncated: a number ends at the first character below 95 or past the end, and its 32 bits are those its characters set, each five further up, modulo 32 |
| Polyline.UnfoldExactly | apps/admin/lib/polyline.ts:10-13 | Whatever the word, the offset is the one in 31 bits that is congruent to its upper bits, or to their complement when the last bit is set |
| Polyline.PublishedExample | apps/admin/lib/polyline.ts:9-10 | The example of the published format encodes and reads back as published |
| Geo.NearestPointOnPolyline | apps/user/lib/geo.ts:37-77 | In degrees: the returned point lies on its segment, no point of any segment is nearer in the plane, and no earlier segment has one as near |
| Geo.FootIsNearest | apps/user/lib/geo.ts:61-70 | The clamped foot is as near as any point of the segment, degenerate ones included |
| OffersCsv.ExportReadsBack | apps/admin/lib/offers-model.ts:224-234 | An RFC 4180 reader gets back the ten column titles and, for every row in order, its ten fields, null as empty |
| OffersCsv.QuotedOnlyWhenNeeded | apps/admin/lib/offers-model.ts:224-227 | A cell without quote, comma or line feed is printed as it is; any other stands in quotes |
| OffersCsv.FileReadsBack | apps/admin/lib/offers-model.ts:224-234 | The same for any table whose records have at least two cells |
| OffersCsv.CellReadsBack | apps/admin/lib/offers-model.ts:224-227 | One printed cell reads back as its text, quotes, commas and line feeds included |

## Left out

- HTTP routing, logging, metrics, the user interface and every external service: no invariant of their own.
- Floating point: all amounts, instants and coordinates are exact.
- Redis and JavaScript timing: TTLs run out at any moment once set, so the seconds of a TTL are recorded but bound nothing.
- `hashOtp` is any function: a call carries the hash of its guess, and a stored code the hash of its code.
- ConsumeOtp, StoreOtp and the other methods of `OtpServer.Redis`: sequential, without interference; the interleavings are the step machine's, tied to them by `VerifyAlone` and `LimiterAlone`.
- An INSERT of breadcrumbs stores all rows or none, and `ON CONFLICT DO NOTHING` is not modelled: inserted means sent in an INSERT that succeeded.
- Buffered rows are values: incrementing `attempts` in place is modelled as replacing the row, since nothing else holds it.
- A final `flushBreadcrumbs` that waits for a running flush does not empty the buffer; nothing is claimed about shutdown.
- WrongGuesses, AttemptNumber: no TTL runs out between the guesses; the step machine has the runs in which one does.
- RoomsAreTheLastBlock: says nothing on whether a room joined by a late lookup outlives the disconnect.
- GuaranteedRadius: on a flat map around the pickup, with the length of a degree as a parameter (87500 m of longitude is
  met up to about 38 degrees of latitude); the globe itself is not modelled.
- NearestPointOnPolyline: distances in the plane are kept squared, the trigonometric factors are two non-zero constants, and the single-point great-circle distance is returned unevaluated.
- DecodeAdmin, DecodeUser: the inner loop, which each source copy writes out twice, is one shared method here.
- UnflaggedSkipIsSafe: one direction only; inside the grace a flagged settlement may also have had nothing to bill.
- `migrate --fresh`, connection setup and the contents of SQL files; a file's transaction control is taken as its runner's.
- A directory that changes between deployments is covered only through the rows recorded before (`rows` in `MigrationsAreAPrefix`).
- The single-socket details of `closeTransport` and the logging of drains; Node's truncation of timer delays.
- Ride dispatch, wallets, settlements beyond the fare functions, and offer reservation are not part of this model.
