# A model of the trust engine, its reverse proxy and its RASP emitter

The project models the parts of the web application firewall that decide whether a request
gets through, and proves what they promise over whole runs and in every interleaving.

**The trust engine.** An `IPProfile` (an address) and a `UserTrustProfile` (an account) are
changed by scored requests, RASP hits, Tier 1 corrections and solved challenges. Each is a class
whose methods are proved against functions on its value (`View()`). Scoring is not atomic in the
source: it takes the profile's lock several times. `IPInterleaving` and `UserInterleaving` are
state machines in which one scoring is four steps and anything may land in between;
`ComputeTrustScore` and `ComputeUserTrustScore` are proved equal to those four steps when nothing
does. The main results are about what a CRITICAL RASP hit does for ever after, what sensitive-path
hits and failed logins do, and what the trimmed timestamp lists still know of the full history.
`FusionLaws` says how many cents each input of a score is worth; `IPHistory` and `UserHistory` that
every counter, set, flag and list of a profile is the right function of the run.
`IPStores` adds eviction and says exactly when a ban ends.

**The Tier 1 pipeline.** Any number of workers over Redis lists, with retries, dead letters,
feedback and shutdown, as a step relation: every accepted job is in exactly one place, attempts are
bounded, every fair schedule drains the pipeline, and `Stop` returns. `Tier1Letters` says when a job
is dead-lettered, when it can be lost, and which answers become feedback.

**The rate limiters.** The token bucket with idle eviction, the fixed-window counter in Redis, and
the proxy's use of the two. Eviction is unobservable exactly when a bucket refills within the idle
time; a request is granted exactly when the rate and burst allow one more over every interval.

**The proxy.** `ServeHTTP` as a method over the two limiters, the gatekeeper and the clearance
cookie, and state machines of requests against one address's trust profile and against one account's:
after a CRITICAL hit nothing judged later is forwarded without a valid cookie.

**Algorithmic cores.** In-place quicksort with inter-arrival statistics, clearance tokens, TF-IDF
vectors, and the C code that escapes evidence into a fixed buffer and prints the verdict line.

## Conventions

* Scores are whole cents (`Cents`, 0 to 1000), which is what `math.Round(x*100)/100` leaves of a
  score; everything before rounding is an exact real. `math.Sqrt` is a function parameter with the
  contract of an exact square root, the keyed hash one whose output holds no colon, and the IPv6
  mask an arbitrary function.
* The eight behavioural sub-scores, the habit counters behind the boost, the live weights, Coraza,
  LightGBM, the Tier 1 model, geo-location and Redis availability are arbitrary inputs of a step.
* Times are the caller's; nothing reads a clock.
* A step of a state machine that is not enabled changes nothing (but the clock), so every sequence
  of actions is a run. "Past its check" means that a scoring has read the overrides and has not
  committed.

## Where the code and its own words differ

* The user policy layer promises at least a challenge for a login from a new country, for a once
  blocked account on a new device, and for an address the IP layer refuses
  (trustscore/user_fusion.go:290-309). The first rule answers "allow+stricter" and returns before the
  other two are looked at, so all three have a gap. `UserPolicyRuns.LetThroughExactlyWhen` gives the
  exact conditions for every report of every run, `UserPolicyRuns.RefusedNewCountryLoginPasses` and
  `UserPolicyRuns.BlockedDevicePasses` concrete runs.
* The "/5min" counts of account abuse run over lists trimmed to one minute
  (trustscore/account_abuse.go:12-26). `TimeWindow.AbuseCountExactness` says when they are right.
* The /24 and /64 fallbacks of the challenge cookie compare with the network's base address, while
  tokens are issued for full addresses (tier-0/proxy.go:119-130, tier-0/proxy.go:232).
  `Clearance.NeighbourAcceptedIff` and `Clearance.Network64AcceptedIff` say which neighbours pass.
* Twenty failed logins do not force every later report to 0.00 or 0.50 when an older scoring can
  still commit (trustscore/user_fusion.go:166-193). `UserLockOut.LockOutExactlyWhen` gives the
  exact condition, `UserLockOut.OvertakenScoringSoftensLockOut` a run from the initial state.
* RASP hits do not count as seeing an address, so an address known only from hits loses its ban at
  the first eviction pass (trustscore/ip_store.go:40-52, trustscore/rasp.go:81-93).
  `IPStores.HitsAloneAreForgotten` and `IPStores.BanLastsUntilUnseen`.

## Model

| member | source | states |
|---|---|---|
| `IPInterleaving.CriticalHitIsForever` | trustscore/rasp.go:81-93 | In every interleaving after a CRITICAL hit the exploit and blocked flags stay set, each scoring that checks later commits at most 0.15 with "ban", other commits number at most the scorings past their check at the hit, the gatekeeper is never lenient for any user, and says "ban" to anonymous callers unless the last commit was an overtaken one |
| `IPInterleaving.CriticalHitBansWhenQuiet` | trustscore/api.go:26-63 | If no scoring was past its check at the hit, the gatekeeper says "ban" to anonymous callers in every later state |
| `IPHistory.SensitiveHitsAreNeverForgiven` | trustscore/fusion.go:227-300 | Once one request to a sensitive path has been committed every scoring that checks later commits at most 4.15 and is never lenient; after three, and off Tor, at most 2.15 and it refuses; whatever the interleaving |
| `IPHistory.ProfileRemembersCommits` | trustscore/types.go:186-332 | In every reachable state the request count, the number of sensitive-path hits, the countries, the last request's time and network and the challenged flag are those of the complete commit history |
| `IPHistory.AttemptsAreCounted` | trustscore/bruteforce.go:26-62 | Each attempt counter is the number of such attempts begun since the last commit that passed a challenge |
| `IPHistory.ProfileRemembersHits` | trustscore/rasp.go:81-93 | The hit and correction logs are the last hundred of the run, the exploit flag says exactly whether a CRITICAL hit came, the blocked flag exactly whether one did or some commit refused |
| `IPHistory.ScoreHistoryIsRecent` | trustscore/types.go:322-325 | The score history is the end of everything decided, zeros of CRITICAL hits included, and holds at least the last ten |
| `IPHistory.FactsAreHistory` | trustscore/trust_boosters.go:8-60 | The facts a scoring takes its boost from are counts over the commit history and this event's challenge |
| `IPHistory.ReturningVisitorIsClean` | trustscore/trust_boosters.go:62-76 | The returning-visitor bonus goes exactly to addresses with three scores or more, the last five averaging 7.00, no commit that refused or challenged and no CRITICAL hit in the whole run |
| `IPHistory.RaspEvidenceCosts` | trustscore/rasp.go:120-149 | End to end, hits of which the worst is LOW or MEDIUM cost 200 or 450 times the RASP weight in cents, to within one cent |
| `IPHistory.Tier1VerdictReachesScore` | trustscore/fusion.go:147-155 | End to end, the Tier 1 score on file moves the next score by its worth, to within one cent, or not at all below a cent |
| `IPHistory.DecisionIsPolicy` | trustscore/fusion.go:302-344 | The exact conditions on score and profile under which a scoring decides "allow", is lenient, or refuses |
| `IPInterleaving.ProfileStaysBounded` | trustscore/tier1_feedback.go:57-74 | In every reachable state the Tier 1 score is in [0,1], the hit and correction logs hold at most 100, and the score history at most 10 plus the number of CRITICAL hits |
| `IPInterleaving.PassedChallengeIsNeverRefused` | trustscore/fusion.go:107-164 | In every reachable state, under shipped weights and gain, a scoring whose event passed a challenge and that found no override decides on at least 7.00 and is not refused, policy layer included |
| `IPInterleaving.WindowsMatchHistory` | trustscore/types.go:282-292 | In every reachable state the recent, burst and per-path lists are what trimming on each commit leaves of the whole commit history |
| `IPInterleaving.PathCountsAreExact` | trustscore/time_window.go:5-13 | For non-decreasing times a per-path count over at most 60 s equals the count over the path's complete history |
| `IPInterleaving.ComputeTrustScore` | trustscore/fusion.go:54-183 | Undisturbed, the live profile ends exactly where the machine's four steps lead, with the same score and decision |
| `IPProfiles.IPProfile.Update` | trustscore/types.go:186-332 | The whole new profile value: lists appended and trimmed, counters, sticky flags only ever set, history of ten |
| `IPProfiles.IPProfile.AddRASPHit` | trustscore/rasp.go:81-93 | The hit list keeps the last hundred; a CRITICAL hit also sets both sticky flags and pushes a zero without trimming |
| `IPProfiles.IPProfile.ApplyCorrection` | trustscore/tier1_feedback.go:56-74 | The clamped Tier 1 score and the last hundred corrections, nothing else changed |
| `IPProfiles.CorrectionIsNearest` | trustscore/tier1_feedback.go:56-74 | The corrected score is the point of [0,1] nearest to the old one plus the correction |
| `IPProfiles.IPProfile.RecordChallengeSolved` | trustscore/api.go:127-143 | Sets the solved flag and its time, nothing else changed |
| `IPProfiles.SolvedLastsTenMinutes` | trustscore/types.go:192-195 | A later commit leaves the solved bonus exactly up to ten minutes after the challenge |
| `IPProfiles.IPProfile.CountLoginAttempt` | trustscore/bruteforce.go:26-62 | Exactly the counter of the endpoint's kind grows by one |
| `IPProfiles.IPProfile.RaspMaxSeverity` | trustscore/rasp.go:153-161 | The loop finds the severity that MaxSeverityIsMax characterises |
| `IPProfiles.MaxSeverityIsMax` | trustscore/rasp.go:153-161 | It bounds every hit on file and is one of them |
| `IPProfiles.IPProfile.ScoreRASP` | trustscore/rasp.go:120-149 | The accumulator over all hits is the penalty of the worst one, and the exploit signal is raised exactly when a CRITICAL hit is on file |
| `IPProfiles.SeverityOrdersPenalty` | trustscore/rasp.go:120-149 | Worse effects weigh strictly more, from 0 over 0.20, 0.45 and 0.85 to 1 |
| `IPProfiles.IPProfile.CheckHardOverrides` | trustscore/fusion.go:227-300 | The live checks give the first matching override of the rule list that the machine uses |
| `IPProfiles.OverrideBands` | trustscore/fusion.go:227-300 | Which of seven kinds of evidence force an override, and exactly when it bans or blocks |
| `IPProfiles.ThreeSensitiveHits` | trustscore/fusion.go:248-277 | With three sensitive hits the override exceeds 2.00 if and only if the Tor rule fires before it |
| `IPProfiles.PolicyOnlyEscalates` | trustscore/fusion.go:322-344 | The policy layer never makes a decision lenient, never creates or removes a refusal, and leaves non-lenient decisions alone |
| `IPProfiles.PolicyEscalatesExactly` | trustscore/fusion.go:322-344 | The exact conditions under which the policy layer leaves "allow", and leniency, standing |
| `Fusion.ComputeFinalScore` | trustscore/fusion.go:107-155 | The accumulator form computes the score function that the monotonicity and bound results are about |
| `Fusion.ScoreIsMonotone` | trustscore/fusion.go:116-155 | Without an override the rounded score falls weakly in every sub-score and rises weakly in boost, solved challenge and Tier 1 score, for all non-negative weights |
| `FusionLaws.CleanSlateScoresTen` | trustscore/fusion.go:116-155 | Nothing against an address and nothing for it scores exactly 10.00 |
| `FusionLaws.EachModuleCounts` | trustscore/fusion.go:125-136 | For each of the nine modules alone, raising its sub-score by d lowers the score by 1000 * weight * d cents, to within one cent, inside the scale |
| `FusionLaws.BoostCounts` | trustscore/fusion.go:135-136 | Raising the boost by d raises the score by 300 * d cents, to within one cent, inside the scale |
| `FusionLaws.SolvedChallengeCounts` | trustscore/fusion.go:141-145 | A solved challenge is worth exactly fifteen cents up to the top of the scale |
| `FusionLaws.Tier1Counts` | trustscore/fusion.go:147-155 | A Tier 1 verdict moves the score by its worth to within one cent, and by nothing below a cent |
| `Fusion.Tier1MovesAtMostGain` | trustscore/fusion.go:147-155 | Tier 1 moves the rounded score by at most the gain from its neutral value |
| `Fusion.PassedChallengeScoresSeven` | trustscore/trust_boosters.go:83-91 | With shipped weights and gain a passed challenge scores at least 7.00, so the decision is lenient |
| `Fusion.OverrideScore` | trustscore/fusion.go:110-155 | With an override only the override and the challenge bonus of 0.15 matter |
| `Fusion.ComputeTrustBoost` | trustscore/trust_boosters.go:8-92 | The accumulator computes the boost of the eight tests, which is in [0,1] without a passed challenge and at least 5 with one |
| `FusionLaws.EachHabitCounts` | trustscore/trust_boosters.go:8-80 | Each of the eight habits earns at least its bonus; all of them, exactly 1.65; none, nothing |
| `Fusion.ComputeRawUserScore` | trustscore/user_fusion.go:129-162 | The steps of the source compute the merged raw score that the user machine takes as its observation |
| `Fusion.RawUserScoreIsMonotone` | trustscore/user_fusion.go:129-162 | A safer address, smaller penalty, more boost, solved challenge and kinder Tier 1 verdict can only raise the raw event score |
| `FusionLaws.CleanAccountScoresTen` | trustscore/user_fusion.go:129-141 | A perfectly safe address without penalty or boost gives a raw score of exactly 10 |
| `FusionLaws.RawScoresDifferByWorth` | trustscore/user_fusion.go:129-141 | Inside the scale two raw scores differ by exactly what their address scores, penalties and boosts are worth at the weights |
| `FusionLaws.RawBonusesCount` | trustscore/user_fusion.go:143-162 | A solved challenge is worth 0.15 and a Tier 1 verdict its worth, or nothing below a hundredth, up to the ends of the scale |
| `Fusion.IsReturningCleanVisitor` | trustscore/trust_boosters.go:62-76 | The loop decides: at least three scores, never refused or challenged, and the last five average at least 7.00 |
| `Gatekeeping.GatekeeperBands` | trustscore/api.go:26-63 | The exact bands: an account by its own score, an anonymous caller by the most recent score of the address or 7.50; a block on record costs leniency and nothing else |
| `Gatekeeping.AccountOutranksAddress` | trustscore/api.go:45-53 | For an account the address matters only through its blocked flag |
| `UserInterleaving.CriticalHitCapsScore` | trustscore/rasp.go:99-115 | In every interleaving after a CRITICAL hit with k user scorings past their check the score never exceeds the k-fold rebound, the flags stay, later checks reset the score to zero and the gatekeeper is never lenient |
| `UserInterleaving.ReboundIsReached` | trustscore/user_profile.go:105-117 | For every k some run ends at exactly that bound |
| `UserInterleaving.ReboundValues` | trustscore/user_profile.go:105-117 | The bound is 1.50, 2.78 and 3.86 for one, two and three overtaken scorings |
| `UserLockOut.TwentyFailuresLockOut` | trustscore/user_fusion.go:252-261 | With twenty failed logins and no older scoring about to commit a smoothed score, every scoring that checks from then on reports 0.00 or 0.50 and "ban", in every interleaving |
| `UserLockOut.LockOutExactlyWhen` | trustscore/user_fusion.go:166-193 | For every account with twenty failed logins the lock-out holds in every future if and only if no older scoring waits with a smoothed score, or the exploit is confirmed and the waiting ones can make nothing but 0.00 or a last 0.50 of zero |
| `UserLockOut.OvertakenScoringSoftensLockOut` | trustscore/user_fusion.go:166-193 | A run from the initial state with twenty failed logins whose last scoring reports 1.93 and "block" |
| `UserPolicyRuns.LetThroughExactlyWhen` | trustscore/user_fusion.go:283-312 | In every report of every run: from a refused address, or of a once blocked account on a new device, it is lenient exactly for a login of 8.00 or more from a new country of a known account; and such a login is lenient exactly from 8.00, or from 5.00 with neither of the other two against it |
| `UserPolicyRuns.RefusedNewCountryLoginPasses` | trustscore/user_fusion.go:290-309 | An undisturbed run in which a new-country login from a blocked address is answered 8.02 and "allow+stricter" |
| `UserPolicyRuns.BlockedDevicePasses` | trustscore/user_fusion.go:297-302 | A run in which a blocked account's new device is answered 8.04 and "allow+stricter" |
| `UserPolicyRuns.UndisturbedBlockedDeviceIsStopped` | trustscore/user_fusion.go:245-312 | A scoring that nothing disturbs never lets a blocked account's new device through: there the hard override fires first |
| `UserInterleaving.ComputeUserTrustScore` | trustscore/user_fusion.go:82-209 | Undisturbed, the live account ends exactly where the machine's four steps lead on the merged raw score, with the same report |
| `UserProfiles.UserTrustProfile.RecordLogin` | trustscore/user_profile.go:224-250 | The whole new account value after a successful or failed login |
| `UserHistory.RecordRemembersLogins` | trustscore/user_profile.go:224-250 | In every reachable state the login counters and the known addresses, countries and prints are those of the complete login history, without repeats |
| `UserHistory.RecordRemembersVerdicts` | trustscore/user_fusion.go:192-197 | The hit log is the last hundred, and the three flags say exactly whether a CRITICAL hit came, some report refused or a hit came, and some report challenged |
| `UserHistory.HistoryIsRecent` | trustscore/user_profile.go:120-129 | The score is the latest ever stored, 7.50 before the first, and the history the last thirty |
| `UserProfiles.UserTrustProfile.UpdateEWMA` | trustscore/user_profile.go:105-117 | Score and bounded history become those of one smoothing step, nothing else changed |
| `UserProfiles.UserTrustProfile.AddRASPHit` | trustscore/rasp.go:99-115 | The last hundred hits; a CRITICAL one zeroes the score at once and sets both sticky flags |
| `UserProfiles.UserTrustProfile.AverageRecentScore` | trustscore/user_profile.go:132-149 | The mean of the last n stored scores, or the score itself when there are none |
| `Ewma.BlendStaysBetween` | trustscore/user_profile.go:105-117 | A smoothing step lands between the old score and the observation, never past it, rounding included |
| `Ewma.BlendGap` | trustscore/user_profile.go:105-117 | Under a whole-cent observation the gap shrinks strictly from four cents up and is fixed at three or less |
| `Ewma.ConvergesGeometrically` | trustscore/user_profile.go:105-117 | After n steps the gap is at most 0.85^n times the first gap plus 10/3 cents |
| `Ewma.Settles` | trustscore/user_profile.go:105-117 | After gap-many steps the score is within three cents and never moves again |
| `IPStores.BanLastsUntilUnseen` | trustscore/ip_store.go:40-52 | After a quiet CRITICAL hit the next anonymous verdict following an eviction pass is "ban" if and only if that pass did not find the address unseen for over an hour |
| `IPStores.KeptAliveRunsAlone` | trustscore/ip_store.go:40-64 | While no pass finds an address unseen, its state in the shared store is that of its own actions alone |
| `IPStores.HitsAloneAreForgotten` | trustscore/ip_store.go:40-52 | An address known from RASP hits alone, however many, is unseen for the first pass |
| `IPStores.MemoryIPStore.EvictUnseen` | trustscore/ip_store.go:40-52 | The loop keeps exactly the profiles seen within the hour, unchanged |
| `IPStores.MemoryIPStore.Load` | trustscore/ip_store.go:55-64 | Returns the stored object, or stores a fresh one; all other profiles unchanged |
| `TimeWindow.TrimTimestamps` | trustscore/types.go:334-342 | The loop keeps exactly the times inside the window, in order |
| `TimeWindow.SlidingWindowCount` | trustscore/time_window.go:5-13 | The number of times inside the window |
| `TimeWindow.RecordedIsSurvivors` | trustscore/types.go:282-292 | For any arrival order the trimmed list is exactly the events that no later event outlived by more than the window |
| `TimeWindow.RecordedIsWindow` | trustscore/types.go:282-292 | For non-decreasing times it is the window filter of the whole history |
| `TimeWindow.AbuseCountExactness` | trustscore/account_abuse.go:12-26 | The five-minute count sees exactly what is also within one minute of the path's last event, and is the true count if and only if nothing else is within five minutes |
| `TimeWindow.AbuseCountCanForget` | trustscore/account_abuse.go:12-26 | Three concrete registrations of which two are missed |
| `Tier1Pipeline.JobsAreConserved` | trustscore/tier1.go:136-255 | In every reachable state each accepted job is in exactly one of the queue, one worker's hands, the dead letters, finished or dropped |
| `Tier1Pipeline.AttemptsAreBounded` | trustscore/tier1.go:171-210 | A job is predicted at most max(1, MaxRetries) times, Retries is its number of failed predictions, feedback is applied at most once and only to a finished job |
| `Tier1Letters.DeadLetteredExactlyWhen` | trustscore/tier1.go:171-210 | While Redis takes its requeues and dead letters, an accepted job is in the dead-letter list exactly when the model failed on it max(1, MaxRetries) times |
| `Tier1Letters.ExhaustedIsDeadLettered` | trustscore/tier1.go:196-210 | A job that has used up its attempts is a dead letter unless Redis refused that |
| `Tier1Letters.LostOnlyIfLetterRefused` | trustscore/tier1.go:206-210 | A job is lost only if Redis refused its dead letter |
| `Tier1Letters.NothingIsLost` | trustscore/tier1.go:206-210 | A run in which Redis takes every dead letter loses nothing |
| `Tier1Letters.HandledGoesWhere` | trustscore/tier1.go:171-255 | Which list a handled job is in next, and with how many retries |
| `Tier1Letters.FirstInFirstOut` | trustscore/tier1_redis.go:32-77 | Jobs are received in the order they were pushed, retried ones included; the queue is what is still to come |
| `Tier1Letters.FedExactlyWhen` | trustscore/tier1_feedback.go:32-54 | Feedback is applied for a job exactly when a confident answer disagreed with its decision |
| `Tier1Letters.FeedbackPullsBack` | trustscore/tier1_feedback.go:32-54 | It raises trust after a wrong refusal and lowers it after a wrong permission |
| `Tier1Pipeline.CountersMatchQueue` | trustscore/tier1_redis.go:32-77 | enqueued + requeued - popped is always the queue length |
| `Tier1Pipeline.StopReturns` | trustscore/tier1.go:96-107 | Once cancelled, three rounds in which every worker gets a turn end with every worker out of its loop, new jobs or not, and each accepted job queued, dead-lettered, finished or dropped |
| `Tier1Pipeline.StopHandlesAtMostOne` | trustscore/tier1.go:136-168 | After the cancellation a worker handles at most one more job, and none if it was not waiting for or holding one |
| `Tier1Pipeline.PipelineDrains` | trustscore/tier1.go:136-210 | With no new jobs there are at most Work-many productive steps on any schedule; and a live state from which none is possible any more has an empty queue and free hands |
| `Tier1Pipeline.FairSchedulesDrain` | trustscore/tier1.go:136-210 | From every reachable live state every fair schedule without new jobs, whatever the model answers and Redis refuses, has emptied the queue and every hand after two rounds per unit of remaining work |
| `Tier1Pipeline.RoundRobinIsFair` | trustscore/tier1.go:136-168 | Workers taking turns form such a schedule from every state and for every sequence of verdicts |
| `Tier1Pipeline.CanDrain` | trustscore/tier1.go:136-210 | From every reachable state with a worker and no shutdown some schedule empties the queue and frees every hand |
| `Tier1Queue.RedisQueue.Process` | trustscore/tier1.go:171-255 | Outcome, feedback direction and the new lists, for every model answer and every Redis failure |
| `Tier1Queue.RedisQueue.Dequeue` | trustscore/tier1_redis.go:47-62 | First in, first out, or nothing and no change |
| `TokenBuckets.TokenBucket.Allow` | tier-0/rate_limiter.go:30-54 | Answer and new bucket of refill, cap and charge |
| `TokenBuckets.ChargeAccounts` | tier-0/rate_limiter.go:30-54 | What a call takes and leaves is at most what was there plus what was earned, and at most the burst |
| `RateLimiters.RateLimiter.Allow` | tier-0/rate_limiter.go:93-130 | The answer and the table after creating the bucket on first use |
| `RateLimiters.RateLimiter.Sweep` | tier-0/rate_limiter.go:133-150 | Exactly the buckets idle over the limit are gone |
| `RateLimiters.EvictionIsUnobservable` | tier-0/rate_limiter.go:30-151 | For every orderly run whose settings refill a bucket within the idle limit, evicting and never evicting give the same answers |
| `RateLimiters.UnobservableExactlyWhen` | tier-0/rate_limiter.go:133-150 | For fixed settings that is so if and only if rate times idle limit covers the burst, or the burst is below one |
| `RateLimiters.RateIsEnforced` | tier-0/rate_limiter.go:30-54 | The requests of a key granted between t1 and t2 number at most burst + rate * (t2 - t1), evictions included |
| `RateExactness.AdmittedExactlyWhen` | tier-0/rate_limiter.go:30-54 | A request is granted if and only if, over every interval that ends with it, the earlier grants of its key and this one number at most burst + rate * length; evictions included |
| `RateLimiters.TokensStayInRange` | tier-0/rate_limiter.go:30-54 | Tokens stay between zero and the burst in every reachable table |
| `FixedWindows.RedisRateLimiter.Allow` | tier-0/redis_rate_limiter.go:46-64 | The counter and expiry after the call and the answer, or no change and a fall-back when Redis does not answer |
| `FixedWindows.ExpiryOutlivesWindow` | tier-0/redis_rate_limiter.go:46-64 | For any order of times the live counter is the number of calls of its window: no expiry clears it in progress |
| `FixedWindows.AdmittedByOrdinal` | tier-0/redis_rate_limiter.go:46-64 | A call is admitted if and only if its ordinal within its window is at most its limit |
| `FixedWindows.WindowAdmitsLimit` | tier-0/redis_rate_limiter.go:46-64 | Of the calls of a window min(count, limit) are admitted, and they are the first ones |
| `FixedWindows.WindowEnforcesRate` | tier-0/redis_rate_limiter.go:46-64 | A window admits at most 60 * rate requests, and all of them if no more are made |
| `FixedWindows.SpanAdmitsTwiceLimit` | tier-0/redis_rate_limiter.go:46-64 | Any 60 s admit at most twice the limit |
| `FixedWindows.TwiceLimitIsReached` | tier-0/redis_rate_limiter.go:46-64 | For every limit a run in which 60 s admit exactly twice as many |
| `Proxy.WAFProxy.ServeHTTP` | tier-0/proxy.go:315-640 | A request reaches the backend exactly when gatekeeper, cookie, limits, Coraza and LightGBM let it; past the body read there is exactly one trust event, which tells how it ended; limiters are asked exactly when the gatekeeper lets it by; only a Coraza refusal writes no status |
| `Proxy.ForwardedWasCleared` | tier-0/proxy.go:403-610 | In every run whatever reached the backend was not refused, met its challenge, had a probability below the threshold and every yes of Coraza it needed |
| `Proxy.ConcludedCleared` | tier-0/proxy.go:403-610 | A concluded request is forwarded exactly when it is readable, admitted and has all of these |
| `Proxy.WAFProxy.CheckRateLimits` | tier-0/proxy.go:151-196 | Address then user against the active limiter with the bucket as fall-back, and one rate-limit event exactly on refusal |
| `Proxy.GrantedPaysTierRate` | tier-0/proxy.go:151-196 | A granted request has paid in both allowances, address and user, at the rates of its verdict's tier |
| `Proxy.RefusedAddressSparesUser` | tier-0/proxy.go:167-193 | A refused address leaves every user's bucket and counter as they were, in both backends |
| `Proxy.ForwardedAfterCriticalHit` | tier-0/proxy.go:403-520 | After a CRITICAL hit on an address that is not evicted every request judged later that reaches the backend had a valid cookie; if the hit was quiet no anonymous one ever does |
| `Proxy.ForwardedCookieWasIssued` | tier-0/proxy.go:94-131 | Behind each such request is a token issued today or yesterday to an address the client is bound to |
| `AccountProxy.ForwardedAfterAccountHit` | tier-0/proxy.go:403-520 | After a CRITICAL hit on an account no request of it judged later reaches the backend without a valid cookie, from any address, and none at all while what the overtaken scorings can rebuild stays below 3.00 |
| `AccountProxy.AccountIsShutOut` | tier-0/proxy.go:403-520 | With at most two overtaken scorings nothing judged later is forwarded for that account |
| `AccountProxy.AccountForwardedWasCleared` | tier-0/proxy.go:403-610 | The same as ForwardedWasCleared for the requests of one account |
| `Clearance.RoundTrip` | tier-0/crypto.go:14-57 | For a dated salt, verifying the generated token returns exactly that salt and nonce if and only if the nonce holds no colon |
| `Clearance.SignatureCoversParts` | tier-0/crypto.go:27-57 | Three fields are accepted exactly when the first is dated and the last is the keyed hash of the other two as they stand |
| `Clearance.AcceptsExactlyIssued` | tier-0/crypto.go:27-57 | An accepted token is regenerated by its parsed parts, which are dated and colon-free, and every token so generated is accepted with those parts |
| `Clearance.IssuedCookieNamesItsAddress` | tier-0/proxy.go:94-131 | A cookie issued for any address, colons included, is accepted exactly for the clients bound to that address |
| `Clearance.AcceptedCookieWasIssued` | tier-0/proxy.go:94-131 | Every accepted cookie was generated for some address the client is bound to |
| `Clearance.NeighbourAcceptedIff` | tier-0/proxy.go:119-130 | Within a /24 another host's cookie passes if and only if it was issued to the network's base address |
| `Clearance.Network64AcceptedIff` | tier-0/proxy.go:119-130 | Within a /64 another address's cookie passes if and only if it was issued to the prefix's base address |
| `QuickSort.Partition` | trustscore/time_window.go:75-86 | In place: smaller elements before the pivot, the rest after it, the range permuted and everything else unchanged |
| `QuickSort.Sort` | trustscore/time_window.go:60-73 | In place: sorted, and a permutation |
| `InterArrival.InterArrivalStats` | trustscore/time_window.go:23-50 | Mean and deviation of the gaps between sorted times, or zeros below three times |
| `InterArrival.CoefficientOfVariation` | trustscore/time_window.go:52-58 | Deviation over mean of the sorted gaps, or zero where the mean is |
| `InterArrival.MeanGapIsSpan` | trustscore/time_window.go:23-50 | The mean gap is (max - min)/(n - 1) |
| `InterArrival.VarianceIsMeanSquare` | trustscore/time_window.go:38-49 | The variance is the mean of the squares less the square of the mean |
| `InterArrival.CVIgnoresOrder` | trustscore/time_window.go:52-58 | The coefficient of variation depends only on the multiset of times |
| `InterArrival.CVZeroForEqualGaps` | trustscore/time_window.go:52-58 | It is never negative, and with three or more times zero exactly when all sorted gaps are equal |
| `InterArrival.CVIsAffineInvariant` | trustscore/time_window.go:52-58 | Shifting or positively scaling all times leaves it unchanged |
| `JsonEscape.JsonEscape` | rasp/src/emitter.c:119-138 | The buffer holds the escaped kept prefix and a terminator inside cap, and everything after it is untouched |
| `JsonEscape.DecodeEscape` | rasp/src/emitter.c:119-138 | Decoding an escaped text as a JSON string (section 7 of RFC 8259) gives the text with control characters as spaces |
| `JsonEscape.KeptAll` | rasp/src/emitter.c:123 | Nothing is lost if and only if all but the last character leave three bytes free |
| `JsonEscape.EvidenceRoundTrips` | rasp/src/emitter.c:140-146 | The emitted evidence always decodes to a cleaned prefix, to all of it up to 255 characters, and to exactly that if it is printable |
| `JsonEscape.CopyField` | rasp/src/context.c:12-21 | The field holds the source cut to the field's length, terminated, and nothing at or past its end is touched |
| `JsonEscape.FieldIsLongestPrefix` | rasp/src/context.c:12-21 | The field is the longest prefix of the source that leaves room for the terminator |
| `JsonEscape.LineNeverTruncated` | rasp/src/emitter.c:148-163 | For every context, evidence and 64-bit time the verdict line is shorter than its buffer |
| `JsonEscape.EveryFieldIsPrinted` | rasp/src/emitter.c:148-158 | Each of the eight keys stands in the line with its value |
| `JsonEscape.SeverityCrossesSocket` | trustscore/rasp.go:62-75 | The trust engine reads every severity name as the severity the agent meant |
| `Tfidf.Vectorizer.CountTerms` | tier-0/tfidf.go:55-64 | Each column's count is the number of distinct windows of all lengths that map to it, and columns without one have no entry |
| `Tfidf.Vectorizer.Transform` | tier-0/tfidf.go:46-84 | Whatever order the map is ranged over in, the result is one and the same vector |
| `Tfidf.Vectorizer.TransformIsUnit` | tier-0/tfidf.go:66-84 | The vector is zero, exactly when every count times frequency is, or its squares sum to exactly 1; it is zero where no n-gram maps, and every column is the same multiple of its count of windows times its frequency weight |

## Left out

- The internals of the behavioural scoring modules (recon with its identifier sequences, session,
  scraping, evasion, DDoS, vulnerability probes, account abuse penalties, user behaviour): long lists
  of thresholds whose sub-scores enter the model as arbitrary numbers, so the results hold for all of them.
- The profile fields that only those modules read: user agents, JA4 prints of addresses, asset and
  status counters, pagination and identifier sequences, sessions. Fields the model keeps are grouped
  into `Windows`, `Attempts` and `Network`.
- Reason strings, result maps, log lines, dashboards, audit rows and the export of scores to Redis.
- Rounding errors of float64 before the final rounding, NaN and infinities.
- HTTP, Redis, SQLite and socket transport, heartbeats and the results store of Tier 1, Coraza,
  LightGBM, the Tier 1 model and identity resolution: arbitrary inputs or absent.
- The challenge page and its solving endpoint (its own limiter and the proof of work), and enqueuing
  Tier 1 jobs from `ServeHTTP`: one guard each.
- Unsynchronised access to plain fields: a login counter increment under a read lock, the
  commit of an account's forced score and its history entry are each one atomic step.
- Redis pipelines are atomic, one limiter call reads one clock, and a bucket swept while another
  request still holds it is not modelled.
- The user store keeps accounts for ever, as the in-memory one does; solved challenges and Tier 1
  corrections of accounts only change the raw event score, an arbitrary observation of the user machine.
- FusionLaws.EachModuleCounts: where a clamp is active at either end the difference is smaller; ScoreIsMonotone
  still gives its direction.
- RateExactness.AdmittedExactlyWhen: for settings that stay fixed over the run, and evictions that are harmless;
  RateLimiters.UnobservableExactlyWhen says when they are.
- RateLimiters.EvictionIsUnobservable: the two maps of the limiter (addresses and users) are one table
  keyed by kind, swept together.
- Proxy.ForwardedAfterCriticalHit: about one address whose profile is not evicted; requests the gatekeeper
  had already judged when the hit landed may still be forwarded.
- IPInterleaving.ComputeTrustScore: the sub-scores other than RASP and the habit counters behind the boost
  are parameters, because the modules and fields that produce them are not modelled.
- Fusion.ComputeTrustBoost: the session age, the coefficient of variation and the counters of user agents,
  JA4 prints, assets, pages and failed answers are numbers given to it.
- UserInterleaving.ComputeUserTrustScore: the user penalty and boost are numbers given to it, and the
  challenge-solved flags of address and account are one flag.
- Tier1Pipeline.StopReturns: that every worker gets turns is the fairness of the Go scheduler and the
  timeouts of the pop and the model call, which are not modelled.
- Tier1Pipeline.AttemptsAreBounded: feedback is recorded with the step that handles the job; a crash
  between the two is not modelled.
- JsonEscape.LineNeverTruncated: request identifier, address and user are printed unescaped, as in the
  source, so the line is bounded but not claimed to be well-formed JSON.
- JsonEscape.DecodeEscape: the \u form, which the emitter never writes, is not decoded, and bytes above 127
  are not interpreted as UTF-8.
- Tfidf.Vectorizer.Transform: lower-casing and the conversion to runes happen before; a vocabulary that
  names a missing column is excluded, since the source would panic on it.
