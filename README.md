# lykos game start, mayor, augur and wolf shaman — a Dafny model

This project models the game-start logic of the lykos Werewolf IRC bot and three of its role plug-ins:

- **`src/pregame.py`**:
  - The `start` command. It covers the per-player rate limit, the restart cap, the lobby checks and the start vote with its quorum `min(ceil(n * scale), max)`.
  - Gamemode selection: a win by vote, then a vote pool padded with `None` placeholders, then a pool weighted by each mode's declared weight.
  - The role multiset. The role-guide tiers the roster size reaches are stripped of `(…)` annotations, `-role` entries are subtracted, and counts are raised to the forced counts. The population check follows.
  - Roleset expansion. Each alias gets a committed sample and the statistics get a cross product over every combination.
  - Seating of the main roles: forced players first, then a draw from the unforced players, then the default role for everyone left.
  - The published statistics, then seating of the secondary roles.
  - The `retract`, `del_player`, start-vote expiry and `reset` handlers.
- **`src/roles/mayor.py`**: the first lynch of an unrevealed mayor is cancelled and the mayor is revealed.
- **`src/roles/augur.py`**: the once-per-night `see` command and its red/grey/blue aura.
- **`src/roles/wolfshaman.py`**:
  - By day, a shaman that did not give its totem gets a random recipient, never last night's one.
  - By night, every living shaman draws a totem by cumulative weight.
  - The default totem weights and the role's categories.

How the model handles what the code leaves to chance or to code outside this model:

- **Iteration order.** Python dict and set iteration is an arbitrary order in the model: loops pick their next key with `:|`. Every contract holds for every order.
- **Randomness.** `random.sample`, `random.choice` and `random.shuffle` are arbitrary choices from the allowed set.
- **Outside collaborators.** The bot's other modules become parameters: the roster, `FORCE_ROLES`, `cgamemode`, `get_players`, `give_totem`, `try_misdirection`, `try_exchange`, and the listeners of `role_attribution`, `reconfigure_stats` and `investigate`.
- **Exceptions.** Python exceptions the code lets escape are explicit `Crash` outcomes, not preconditions.
- **Time.** Times are whole seconds passed in as arguments.

The module state of `pregame.py` and of each role file is a class, as are the role tables that `start` writes: `Pregame.Session`, `Mayor.Mayors`, `Augur.Augurs` and `WolfShaman.Shamans`. Their methods carry `modifies` clauses and are proved against functions of the old state.

Where the code differs from the documented behaviour, the model follows the code:

- `START_VOTES` is not cleared when a game starts.
- `fstart` still runs the phase and player-count checks.
- A role-guide entry whose `-role` subtraction leaves a negative count is kept. Only a net of exactly zero removes it.
- The vote pool skips only modes of weight exactly 0, so a negative weight still admits votes.
- The night-end candidate list of the wolf shaman is built and shuffled but never used.

## Model

| member | source | states |
|---|---|---|
| Pregame.Ceil | src/pregame.py:123 | the result is the least integer not below `x` |
| Pregame.RequiredVotes | src/pregame.py:123 | the quorum is capped by `START_VOTES_MAX`; below the cap it is the least count covering `n * scale` |
| Pregame.ThrottledBumpsOnly | src/pregame.py:71-76 | a throttled request is refused as rate-limited; it adds exactly 1 to the source's counter, keeps its time, and leaves every other entry and every other field unchanged |
| Pregame.RestartCounted | src/pregame.py:78-84 | a restart is never throttled and always counts one try; it aborts exactly when the count exceeds the cap, touching nothing else; otherwise it goes on with only the count changed |
| Pregame.VoteOutcomes | src/pregame.py:118-140 | a repeated voter is refused with the votes and timers unchanged; below the last needed vote the voter is added, the reply names the votes still needed, and the timer is created with the first vote; the start goes on exactly when forced or at the last needed vote, which is not recorded |
| Pregame.RestartSkipsLobby | src/pregame.py:86-100 | a restart within the cap passes every lobby check and leaves the votes and `LAST_START` alone |
| Pregame.GateKeepsVoteTimer | src/pregame.py:134-139 | while joining, a non-empty vote set always has its expiry timer, before and after a request |
| Pregame.GateNeverRejectsSettings | src/pregame.py:70-140 | the gate never stops a start for the custom-settings reasons |
| Pregame.ResetAsWritten | src/pregame.py:454-459 | the reset as written empties `LAST_START` and `START_VOTES`, sets `MAX_RETRIES` to 0 and keeps `RESTART_TRIES` |
| Pregame.ResetAsWrittenAbortsStarts | src/pregame.py:78-84 | after the reset as written, once any restart has happened, every start that gets past the rate limit aborts, ordinary starts included |
| Pregame.Reset | src/pregame.py:454-459 | the intended reset empties `LAST_START` and `START_VOTES`, restarts the try count at 0 and keeps the cap |
| Pregame.ResetAllowsStarts | src/pregame.py:78-84 | after the intended reset an ordinary start never aborts, and a restart aborts exactly when the cap is below 1 |
| Pregame.TooManyPlayersCrashes | src/pregame.py:114-116 | the gate as written raises AttributeError exactly when a start reaches the player-count maximum past the earlier checks, after stamping the request and the game-start time |
| Pregame.TooManyPlayersRefused | src/pregame.py:114-116 | the intended gate never raises; it refuses with `max_players` exactly at that check, and only the rate-limit stamp and the game-start time change |
| Pregame.Session.constructor | src/pregame.py:22-25 | no start requests, no votes, no tries, the cap 3, no timers |
| Pregame.Session.RunGate | src/pregame.py:71-140 | the new gate state and the stop reason are those of `StartGate`, the AttributeError at the maximum check included; the role tables are untouched; a start that goes on keeps the timers |
| Pregame.Session.CheckLobby | src/pregame.py:92-140 | the new gate state and the stop reason are those of `LobbyGate`, the AttributeError at the maximum check included; the role tables are untouched |
| Pregame.Session.Retract | src/pregame.py:40-56 | outside the join phase, or for a non-player or a disconnected player, nothing changes. Otherwise only that player's vote goes, and the timer goes with the last vote. A missing timer at that point raises KeyError, and it cannot be missing while the vote-timer invariant holds. Every other field is kept |
| Pregame.Session.OnDelPlayer | src/pregame.py:58-67 | while joining only that player's vote goes and the timer goes with the last vote; otherwise nothing changes; the vote-timer invariant is kept |
| Pregame.Session.ExpireStartVotes | src/pregame.py:444-452 | outside the join phase nothing changes; otherwise the vote set is emptied and nothing else changes |
| Pregame.Session.OnReset | src/pregame.py:454-459 | the gate becomes `ResetAsWritten` of the old gate: no start requests or votes, `MAX_RETRIES` zeroed and `RESTART_TRIES` kept; the phase and the role tables are kept |
| Pregame.Session.PickMode | src/pregame.py:142-175 | a restart installs its own mode; `fgame` keeps the current mode; otherwise the installed mode is a known gamemode, and a failed draw is a crash that keeps the current mode |
| Pregame.Session.Prepare | src/pregame.py:142-257 | a stop is a crash, `no_settings_defined`, `too_many_roles` or a custom-settings rejection; rejected custom settings are reset and the phase returns to joining; after any other outcome, success or stop, both are kept |
| Pregame.Session.BuildRoles | src/pregame.py:177-257 | a stop is a crash, `no_settings_defined`, `too_many_roles` or a custom-settings rejection; only a rejection resets the settings and the phase |
| Pregame.Session.SeatAll | src/pregame.py:263-359 | on success the role tables, the statistics and both main-role maps are installed as seated and the join timers are cancelled; a stop is a crash, too many forced players or missing targets, and missing targets reset the custom settings and return the phase to joining; after any other outcome both are kept |
| Pregame.Session.Start | src/pregame.py:70-439 | a gate stop leaves everything but the gate as it was; a stop past the gate leaves the gate state as the gate made it, so the try is counted and the request stamped; a settings rejection or missing targets reset the custom settings and return the phase to joining, and every other stop keeps both; a full start has passed the gate, cancelled the join timers, installed seated main roles, settled secondary roles and non-negative statistics, covered the roster when every forced primary role is played, and entered day or night as configured |
| Pregame.Session.Proceed | src/pregame.py:142-439 | everything after the gate: a stop is one of the mode, role-count or seating stops and keeps the timers; a settings rejection or missing targets reset the custom settings and return the phase to joining, and every other stop keeps both; on success the same guarantees as `Start` |
| Pregame.Session.EnterCycle | src/pregame.py:420-430 | a restart passes through the join phase; the game phase is day or night as `START_WITH_DAY` says |
| Pregame.Attribute | src/pregame.py:177-206 | a stopped `role_attribution` keeps the listeners' counter. Otherwise it crashes exactly on an empty guide name, stops with `no_settings_defined` exactly when the net guide counter is empty and with `too_many_roles` exactly when the floored total exceeds the roster. On success every catalogue, guide and listener role has a key, every guide role is at least its forced count and its listener or guide count, listener-only roles keep their count, and the primary total fits the roster |
| Pregame.RoleCounts | src/pregame.py:177-257 | a stop has one of the listed reasons; a custom-settings rejection happens only for custom settings outside a restart, and a success there passes the custom check |
| Pregame.SeatTables | src/pregame.py:263-353 | the setup is built from the counts and tables; success seats the main roles, settles every secondary role on top of them and keeps only non-negative statistics; missing targets stop only custom settings |
| Gamemodes.Tally | src/pregame.py:143-146 | a vote for an unknown mode raises; otherwise the tally maps each compatible voted mode to its number of voters |
| Gamemodes.VotedModes | src/pregame.py:147 | some mode wins by vote exactly when the largest tally (`MaxTally`) covers half the roster, and the winners are then exactly the modes at that tally |
| Gamemodes.MaxTallyIsMax | src/pregame.py:147 | the folded maximum is the tally of some mode and no tally exceeds it |
| Gamemodes.VotedModesTie | src/pregame.py:147 | all modes that win by vote have the same tally |
| Gamemodes.VotePool | src/pregame.py:152-160 | each counted mode appears as often as its (non-negative) tally, other modes never, and `None` exactly `(n - numvotes) // 2` times when positive |
| Gamemodes.FallbackPool | src/pregame.py:164-167 | each enabled, compatible, positive-weight mode appears exactly `weight` times and nothing else appears |
| Gamemodes.Draw | src/pregame.py:147-168 | a winner by vote is taken whenever there is one; otherwise a vote-pool draw is a counted mode and a fallback draw a drawable mode. A crash means an empty vote pool or an empty fallback pool, and conversely an empty vote pool, or a vote pool of placeholders only with nothing drawable, always crashes |
| Gamemodes.Choose | src/pregame.py:142-170 | the tally then the draw, with every case above, the crash and its converse included, stated against the true tally |
| RoleNames.StripRemovesAnnotation | src/pregame.py:181 | a stripped name has no `(` before a `)` |
| RoleNames.StripKeepsPlainName | src/pregame.py:181 | a name without an annotation is unchanged |
| RoleNames.StripIsCut | src/pregame.py:181 | stripping cuts out one contiguous piece |
| RoleNames.StripIdempotent | src/pregame.py:181 | stripping twice is stripping once |
| RoleGuide.IncludedMembership | src/pregame.py:184-186 | a name is collected exactly when some tier with threshold at most `n` lists it |
| RoleGuide.CollectTiers | src/pregame.py:183-186 | the loop collects exactly the included tiers in guide order |
| RoleGuide.StripAll | src/pregame.py:187 | no stripped name keeps an annotation, a name without one is kept as it is, and stripping the result again changes nothing |
| RoleGuide.ApplyNegations | src/pregame.py:188-194 | an empty name raises. Otherwise every plain role loses the count of its `-` entry and disappears only when the net is exactly zero. A non-plain key survives only when its own negation was present |
| RoleGuide.ApplyFloors | src/pregame.py:198-199 | every base role gets the preset or guide count raised to its forced count; other preset roles keep their count |
| RoleGuide.SetDefaults | src/pregame.py:203-204 | every catalogue role gets a key, existing counts are kept and new ones are 0 |
| RoleGuide.CheckPopulation | src/pregame.py:200-204 | the start is refused exactly when the non-secondary total exceeds the roster; otherwise the catalogue is added with zero counts and the total stays within the roster |
| RoleGuide.ResolveBase | src/pregame.py:181-194 | the guide counter for `n` players with the negations applied |
| RoleGuide.ResolveAddroles | src/pregame.py:181-204 | a crash exactly for an empty name. `no_settings_defined` exactly for an empty base, and `too_many_roles` exactly when the floored total exceeds the roster. On success every base role is at least its forced count and its preset or guide count, and the primary total fits the roster |
| Rolesets.ElementsOf | src/pregame.py:225 | `elements()` repeats each role `max(count, 0)` times |
| Rolesets.Sample | src/pregame.py:225 | a sample of exactly `k` elements from the population; a negative or too large `k` raises |
| Rolesets.BumpAll | src/pregame.py:213-216 | every distribution gets the plain role's amount added |
| Rolesets.ZeroKeys | src/pregame.py:222-224 | every distribution gains the group's keys with its counts unchanged |
| Rolesets.CountersOf | src/pregame.py:231-232 | one Counter per combination, in order |
| Rolesets.RowsLength | src/pregame.py:233-238 | the cross product has `|possible| * |adds|` entries |
| Rolesets.RowsContains | src/pregame.py:233-238 | every pair's merge is in the cross product |
| Rolesets.RowsOnlyPairs | src/pregame.py:233-238 | the cross product holds nothing but merges of pairs |
| Rolesets.CrossMerge | src/pregame.py:233-238 | the nested loop builds the cross product row by row |
| Rolesets.AddEach | src/pregame.py:226-228 | each sampled role adds one to its count |
| Rolesets.ExpandAlias | src/pregame.py:217-238 | an invalid amount raises. Otherwise the alias key is gone and the committed sample has exactly `amt` elements from the group and is added. The distributions multiply by C(g, amt), and the committed distribution is among them |
| Rolesets.TargetExpands | src/pregame.py:225-238 | the distribution the committed sample produces is in the cross product |
| Rolesets.Expand | src/pregame.py:209-238 | the loop fails exactly when some alias has an invalid amount. The number of distributions is the product of the binomial factors, and every alias has one committed sample. With no nested aliases, the aliases are gone, the counts are the plain amounts plus the samples, and one distribution equals the committed counter |
| Combinatorics.BinomPositive | src/pregame.py:231 | C(n, k) is positive exactly when k ≤ n |
| Combinatorics.CombinationsCount | src/pregame.py:231 | `itertools.combinations` yields exactly C(|s|, k) tuples |
| Combinatorics.CombinationIsSubmultiset | src/pregame.py:231 | every combination has k elements drawn from the list |
| Combinatorics.SubmultisetIsCombination | src/pregame.py:225-232 | every size-k sub-multiset, so every outcome of the sample, is some combination |
| Combinatorics.PrefixIsSample | src/pregame.py:225 | a sample exists whenever k is at most the population |
| Common.Bump | src/pregame.py:215 | `c[r] += n` adds `n` to `r` only and inserts the key |
| Common.Merge | src/pregame.py:235-236 | `Counter(pr).update(ar)` adds counts key-wise |
| Common.CounterOf | src/pregame.py:232 | `Counter(xs)` counts each name's occurrences |
| Common.SumCounts | src/pregame.py:200 | the summing loop gives the order-independent sum |
| Common.Times | src/pregame.py:157 | `[x] * k` holds `x` exactly `max(k, 0)` times |
| Assignment.CustomVerdict | src/pregame.py:240-250 | the three reasons are tested in order. Too few players is reported exactly when the primary total exceeds the roster. A pass means the total fits, wolf-chat roles are at most half the roster, and their count is non-zero outside the villager game (a negative count passes, as `not wvs` lets it) |
| Assignment.PrimaryTotalIsDifference | src/pregame.py:243 | total minus secondary sum equals the non-secondary sum |
| Assignment.RemoveForced | src/pregame.py:278-280 | the pool is the roster minus every player of a primary forced entry |
| Assignment.SampleSet | src/pregame.py:301 | a subset of exactly `k` players from the pool; a negative or too large `k` raises |
| Assignment.SeatForced | src/pregame.py:293-299 | forced players get the role as original main role, and as main role only when they had none |
| Assignment.Label | src/pregame.py:302-305 | drawn players get the role as main and original main role; nobody else changes |
| Assignment.Fresh | src/pregame.py:275-277 | every catalogue role and the default start with no holders |
| Assignment.ForcedFor | src/pregame.py:289-299 | too many forced players is reported exactly when they outnumber the count; otherwise they are seated |
| Assignment.DrawFor | src/pregame.py:289-305 | one role's draw has exactly `count − |forced|` unseated players and moves the role maps; a failure is too many forced players or a sample that cannot be drawn |
| Assignment.PrimaryStep | src/pregame.py:282-307 | one primary role is seated with its forced players and its draw, or fails for a stated reason |
| Assignment.SeatDefault | src/pregame.py:308-314 | leftovers get the default role and every distribution counts them; a secondary default role is a crash |
| Assignment.CommitPrimary | src/pregame.py:263-314 | seating completes exactly when it is not blocked. Success is a complete seating: every primary role holds its forced players plus exactly `count − |forced|` drawn players, no player is drawn twice, leftovers get the default role, and secondary roles hold placeholders. A failure is a crash or too many forced players |
| Assignment.BlockedByForced | src/pregame.py:290-292 | more forced players than a role's count blocks seating |
| Assignment.SeatedHolds | src/pregame.py:282-311 | every player with a main role is among that role's holders |
| Assignment.SeatedCounts | src/pregame.py:282-314 | every role holds exactly its count of players, and the default role also holds the leftovers |
| Assignment.SeatedCoversRoster | src/pregame.py:278-311 | when every forced primary role is played, every player of the roster has a main role |
| Stats.Outputs | src/pregame.py:319-323 | the listeners' outputs are exactly what they return for some possible roleset |
| Stats.PublishStats | src/pregame.py:316-326 | an empty output raises; otherwise the statistics are exactly the outputs whose every count is non-negative |
| Stats.PlainStats | src/pregame.py:319-325 | without rewriting listeners the outputs are the possible rolesets |
| Secondary.SecondaryStep | src/pregame.py:329-353 | one secondary role: its forced players plus a draw of the remaining count from the eligible players, none when forced enough, and a skip or a custom reset when too few are eligible |
| Secondary.SeatSecondary | src/pregame.py:328-353 | every secondary role is settled from a snapshot of the tables, other roles are untouched; failures are a missing role or too few targets under custom settings |
| Secondary.SecondaryFull | src/pregame.py:339-353 | with enough eligible players outside the forced ones, the role holds exactly its reserved count |
| Mayor.RevealedAfter | src/roles/mayor.py:16-24 | the revealed set only grows, by at most one mayor, and changes exactly when the votee is an unrevealed mayor |
| Mayor.LaterLynchPassesThrough | src/roles/mayor.py:16-24 | once revealed, the same lynch passes through and changes nothing |
| Mayor.OnGetRoleMetadata | src/roles/mayor.py:30-33 | the mayor's categories are `{"Village","Safe"}`; other entries and kinds are kept |
| Mayor.Mayors.constructor | src/roles/mayor.py:14 | no mayor is revealed |
| Mayor.Mayors.OnChkDecisionLynch | src/roles/mayor.py:16-24 | an unrevealed mayor is revealed, the votee cleared and both flags set; any other lynch leaves the event and the set alone |
| Mayor.Mayors.OnReset | src/roles/mayor.py:26-28 | the revealed set is emptied |
| Augur.AuraOf | src/roles/augur.py:41-45 | red exactly for Wolfteam, grey exactly for non-Wolfteam Neutral, blue otherwise |
| Augur.OnGetRoleMetadata | src/roles/augur.py:51-56 | the augur's categories and its lycanthropy role; other entries and kinds are kept |
| Augur.Augurs.constructor | src/roles/augur.py:17 | no augur has seen yet |
| Augur.Augurs.See | src/roles/augur.py:19-49 | a second look fails, an unresolved target or a successful exchange ends it, and only a look that sees adds the augur to `SEEN`. The aura is that of the misdirected target's rewritten role |
| Augur.AurasOfTheseRoles | src/roles/augur.py:41-45 | with categories from the metadata, the wolf shaman looks red and the mayor and augur blue |
| WolfShaman.RemoveFirst | src/roles/wolfshaman.py:43 | `list.remove` takes one occurrence out |
| WolfShaman.RemoveFirstGone | src/roles/wolfshaman.py:40-43 | in a list without repeats the removed player is gone |
| WolfShaman.CandidatesExcludeLast | src/roles/wolfshaman.py:40-43 | the candidates never hold the last recipient and hold every other listed player |
| WolfShaman.ChosenIsFirstReaching | src/roles/wolfshaman.py:72-78 | the scan picks the first totem whose running sum reaches the draw, and none exactly when no sum does |
| WolfShaman.RunningBounded | src/roles/wolfshaman.py:72-75 | with non-negative weights every running sum lies between 0 and `max_totems` |
| WolfShaman.AlwaysChosen | src/roles/wolfshaman.py:72-78 | with non-negative weights and a non-empty table, `random.random() * max_totems` always picks a totem |
| WolfShaman.SumWeights | src/roles/wolfshaman.py:58 | the sum raises exactly when some totem lacks a wolf-shaman weight; otherwise it is `max_totems` |
| WolfShaman.PickTotem | src/roles/wolfshaman.py:72-78 | the loop with `break` returns the first reaching totem, or none when no sum reaches |
| WolfShaman.SetWolfTotems | src/roles/wolfshaman.py:93-103 | weight 1 for exactly the nine totems when all are present, every other entry kept; a missing one raises, with the totems before it already set and the rest untouched |
| WolfShaman.OnGetRoleMetadata | src/roles/wolfshaman.py:88-91 | the wolf shaman's five categories; other entries and kinds are kept |
| WolfShaman.Shamans.constructor | src/roles/wolfshaman.py:18 | no totems, recipients or givers |
| WolfShaman.Shamans.Give | src/roles/wolfshaman.py:22-30 | an unresolved target changes nothing; a resolved one raises KeyError exactly when the shaman holds no totem, recording nothing, and otherwise records what `give_totem` returns |
| WolfShaman.Shamans.OnTransitionDayBegin | src/roles/wolfshaman.py:34-53 | it raises KeyError exactly when a living, unsilenced shaman that has not given and has a candidate holds no totem. Shamans that gave are untouched, and every new giver is a living, unsilenced shaman giving to one of its candidates. Without the error every such shaman gives, and exactly the silenced or candidate-less ones have their last recipient cleared; after the error every `LASTGIVEN` entry is its old value or a cleared one of those shamans |
| WolfShaman.Shamans.OnTransitionNightEnd | src/roles/wolfshaman.py:55-86 | a missing weight raises before anything changes. Otherwise `LASTGIVEN` keeps only living shamans, every living shaman gets the totem its draw picks, and the run fails exactly when a shaman picks none and had none |
| WolfShaman.Shamans.PruneLastGiven | src/roles/wolfshaman.py:61-63 | `LASTGIVEN` keeps exactly the living shamans' entries |

## Left out

- Chat output and its text: every message and `mode("+m")`. The option sentence at `src/pregame.py:369-406` is also omitted; it only builds a message.
- Threads and locks: `threading.Timer`, the reaper thread and the two locks. A timer is only the presence of its key in `TIMERS`.
- The wall clock: the current time is an integer argument, and `GAME_ID`, `DAY_START_TIME` and the other time stamps are not kept.
- Randomness: the `random` module is an arbitrary choice, so the model says nothing about distributions or uniformity.
- `random.random()` is the real number `u` in [0, 1) of `draw(s)`, with exact real arithmetic instead of floating point.
- Outside collaborators. These are `cgamemode`, `reset_settings`, `stop_game`, `transition_night`/`transition_day`, `chk_win_conditions`, `decrement_stasis`, `get_players`, `give_totem`, `get_totem_target`, `try_misdirection`, `try_exchange` and `relay_wolfchat_command`. They are parameters or uninterpreted results.
  - `stop_game` is recorded only as the `aborted` flag.
  - `reset_settings` is recorded only as dropping the custom settings.
- `src/events.py`, `src/cats.py` and `src/roles/helper/` are not part of this model.
  - Listener effects on `role_attribution`, `reconfigure_stats` and `investigate` are arbitrary functions.
  - The category sets are read off the role metadata.
- The `new_role` notification loop, the command disabling for `ADMIN_TO_PING` and the copy into `var.PLAYERS`. None of them has an effect the model tracks.
- The resets of `NIGHT_COUNT`, `DAY_COUNT`, `TRAITOR_TURNED`, `FINAL_ROLES`, `EXTRA_WOLVES` and the spectator sets, the clearing of `LAST_STATS` and the setting of `FIRST_DAY`. These are plain clears with no rule to state.
- WolfShaman.Shamans.OnTransitionNightEnd: the shuffled candidate list `pl` is never used by the code. It appears only as the `Candidates` function of the day-begin pass.
- WolfShaman.SetWolfTotems: the table is a value. The update in place of the gamemode's shared dict, and its aliasing, are not modelled.
- Pregame.RequiredVotes: the product `n * START_VOTES_SCALE` is exact; floating-point rounding of the product is not modelled, so for some scales the quorum differs by one vote (the double 0.1 with 10 players gives 1 in Python, 2 here).
- Pregame.Session.Start: after a stop past the gate (a crash or too many forced players while seating the main roles), the role tables left behind are not specified; `Pregame.Session.Proceed` likewise.
- Pregame.Session.PickMode: states only that the installed mode is a known gamemode. Which rule chose it is stated by `Gamemodes.Choose`.
- Pregame.Session.Prepare: states the stop kinds, the settings reset and that the settings and phase are otherwise kept, but not the counts it computes. The counts are stated by `Pregame.RoleCounts` and `RoleGuide.ResolveAddroles`.
- Pregame.RoleCounts: states the error kinds and the custom check only. The expanded counter is stated by `Rolesets.Expand`.
- Rolesets.Expand: states the counts of `addroles` and the committed distribution only when no roleset group lists another alias of the snapshot. A nested alias can be re-added by a sample and deleted again later, in an order-dependent way.
- Gamemodes.Draw: states which pool a draw comes from, not the probability of any mode.

## Findings

| source | as written | input that shows it | evidently intended | confidence | as-written member | corrected member |
|---|---|---|---|---|---|---|
| src/pregame.py:456-459 | `on_reset` declares `global MAX_RETRIES` and sets it to 0, leaving `RESTART_TRIES` as it was | one restart (`RESTART_TRIES` = 1), then a reset, then an ordinary `start`: `1 > 0` aborts the game | reset the restart count (`RESTART_TRIES = 0`) and keep the cap of 3 | not executed | Pregame.ResetAsWrittenAbortsStarts | Pregame.ResetAllowsStarts |
| src/pregame.py:114-116 | `wrapper.send.send(...)` looks up `send` on a bound method | a start with more players than `MAX_PLAYERS`, past the earlier checks | refuse the start with the `max_players` message | not executed | Pregame.TooManyPlayersCrashes | Pregame.TooManyPlayersRefused |
