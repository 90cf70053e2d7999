/** The start command and its bookkeeping (`src/pregame.py`): the rate
    limit, the restart cap, the lobby checks and the start vote, then the
    gamemode choice, the role multiset, the roleset expansion, the seating
    and the statistics, and the handlers that retract, drop or expire start
    votes and reset the module state. */
module Pregame {
  import opened Common
  import opened Gamemodes
  import opened RoleGuide
  import opened Rolesets
  import opened Assignment
  import opened Stats
  import opened Secondary

  /** A `LAST_START` entry: when the player last asked to start, and how often since. */
  datatype Stamp = Stamp(time: int, count: int)

  /** The `TIMERS` key of the start-vote expiry timer. */
  const START_TIMER: string := "start_votes"

  /** The other timers a start cancels. */
  const JOIN_TIMERS: set<string> := {"join", "join_pinger", START_TIMER}

  /** The module-level restart cap before any reset. */
  const INITIAL_MAX_RETRIES: int := 3

  /** `math.ceil` on an exactly represented product. */
  function Ceil(x: real): (c: int)
    ensures c as real >= x && (c - 1) as real < x
  {
    var f := x.Floor;
    if f as real == x then f else f + 1
  }

  /** `min(math.ceil(n * START_VOTES_SCALE), START_VOTES_MAX)`: the least
      number of votes covering the scaled player count, capped. */
  function RequiredVotes(n: nat, scale: real, votesMax: int): (k: int)
    ensures k <= votesMax
    ensures (k - 1) as real < n as real * scale
    ensures k == votesMax || k as real >= n as real * scale
  {
    Min(Ceil(n as real * scale), votesMax)
  }

  /** Who asks, when, and how: `fstart` passes `forced`, a restart passes the
      name of the gamemode to restart with. */
  datatype Request = Request(source: Player, now: int, forced: bool, restart: Option<Mode>)

  /** What the gate reads besides its own state: `get_players()`, `var.PHASE`
      and the settings it compares against. Times are whole seconds. */
  datatype Lobby = Lobby(
    players: set<Player>, phase: Phase, canStart: int,
    minPlayers: int, maxPlayers: int, rateLimit: int,
    scale: real, votesMax: int)

  /** The state the gate reads and writes. `aborted` records a call of
      `stop_game(abort=True)`, whose own effects are not part of this model. */
  datatype Gate = Gate(
    lastStart: map<Player, Stamp>,
    votes: set<Player>,
    tries: int,
    maxRetries: int,
    timers: set<string>,
    aborted: bool,
    gameStartTime: int)

  /** The source asked again within the rate limit (never for `fstart` or a restart). */
  predicate Throttled(g: Gate, q: Request, l: Lobby) {
    && !q.forced && q.restart.None?
    && q.source in g.lastStart
    && g.lastStart[q.source].time + l.rateLimit > q.now
  }

  /** `RESTART_TRIES` after this call. */
  function TriesAfter(g: Gate, q: Request): int {
    if q.restart.Some? then g.tries + 1 else g.tries
  }

  /** The request gets past every lobby check up to the vote. */
  predicate ReachesVote(g: Gate, q: Request, l: Lobby) {
    && !Throttled(g, q, l)
    && TriesAfter(g, q) <= g.maxRetries
    && q.restart.None?
    && l.phase == Join
    && (q.source in l.players || q.forced)
    && !(l.canStart - q.now > 0 && !q.forced)
    && l.minPlayers <= |l.players| <= l.maxPlayers
  }

  /** Lines from the rate limit to the end of the start vote: the new gate
      state, and why the start stops here (`None`: it goes on). A player
      count above the maximum raises, as the code is written (see
      `MAX_PLAYERS_CRASH`). */
  function StartGate(g: Gate, q: Request, l: Lobby): (Gate, Option<StartError>) {
    if Throttled(g, q, l) then
      var st := g.lastStart[q.source];
      (g.(lastStart := g.lastStart[q.source := st.(count := st.count + 1)]), Some(RateLimited))
    else
      var tries := TriesAfter(g, q);
      if tries > g.maxRetries then (g.(tries := tries, aborted := true), Some(Aborted))
      else
        var g1 := g.(tries := tries,
                     lastStart := if q.restart.None? then g.lastStart[q.source := Stamp(q.now, 1)] else g.lastStart);
        if q.restart.Some? then (g1, None)
        else LobbyGate(g1, q, l)
  }

  /** From the phase checks to the end of the start vote. */
  function LobbyGate(g: Gate, q: Request, l: Lobby): (Gate, Option<StartError>) {
    if l.phase == NoGame then (g, Some(NoGameRunning))
    else if l.phase != Join then (g, Some(AlreadyRunning))
    else if q.source !in l.players && !q.forced then (g, Some(NotPlaying))
    else
      var g2 := g.(gameStartTime := q.now);
      var n := |l.players|;
      if l.canStart - q.now > 0 && !q.forced then (g2, Some(PleaseWait))
      else if n < l.minPlayers then (g2, Some(NotEnoughPlayers))
      else if n > l.maxPlayers then (g2, Some(MAX_PLAYERS_CRASH))
      else if !q.forced && q.source in g.votes then (g2, Some(AlreadyVoted))
      else
        var required := RequiredVotes(n, l.scale, l.votesMax);
        if !q.forced && |g.votes| < required - 1 then
          var votes := g.votes + {q.source};
          (g2.(votes := votes, timers := if |votes| == 1 then g.timers + {START_TIMER} else g.timers),
           Some(Voted(required - |votes|)))
        else (g2, None)
  }

  /** A throttled request bumps the source's counter by one and changes nothing else. */
  lemma ThrottledBumpsOnly(g: Gate, q: Request, l: Lobby)
    requires Throttled(g, q, l)
    ensures StartGate(g, q, l).1 == Some(RateLimited)
    ensures StartGate(g, q, l).0.lastStart.Keys == g.lastStart.Keys
    ensures StartGate(g, q, l).0.lastStart[q.source].count == g.lastStart[q.source].count + 1
    ensures StartGate(g, q, l).0.lastStart[q.source].time == g.lastStart[q.source].time
    ensures forall p :: p in g.lastStart && p != q.source ==> StartGate(g, q, l).0.lastStart[p] == g.lastStart[p]
    ensures StartGate(g, q, l).0.(lastStart := g.lastStart) == g
  {
  }

  /** Every restart that gets past the rate limit counts as a try, and one
      over the cap aborts the game before anything else is touched. */
  lemma RestartCounted(g: Gate, q: Request, l: Lobby)
    requires q.restart.Some?
    ensures !Throttled(g, q, l)
    ensures StartGate(g, q, l).0.tries == g.tries + 1
    ensures StartGate(g, q, l).1 == Some(Aborted) <==> g.tries + 1 > g.maxRetries
    ensures g.tries + 1 > g.maxRetries ==> StartGate(g, q, l).0 == g.(tries := g.tries + 1, aborted := true)
    ensures g.tries + 1 <= g.maxRetries ==> StartGate(g, q, l) == (g.(tries := g.tries + 1), None)
  {
  }

  /** A request that reaches the vote: a repeated voter is turned away with
      the votes as they were; below the last needed vote the voter is added
      and the timer starts with the first vote; the last needed vote (or
      `fstart`) starts the game without being recorded. */
  lemma VoteOutcomes(g: Gate, q: Request, l: Lobby)
    requires ReachesVote(g, q, l)
    ensures var (g', v) := StartGate(g, q, l);
      && g'.lastStart == g.lastStart[q.source := Stamp(q.now, 1)]
      && g'.tries == g.tries && !(g'.aborted && !g.aborted)
      && (!q.forced && q.source in g.votes ==> v == Some(AlreadyVoted) && g'.votes == g.votes && g'.timers == g.timers)
      && (!q.forced && q.source !in g.votes && |g.votes| < RequiredVotes(|l.players|, l.scale, l.votesMax) - 1 ==>
            && g'.votes == g.votes + {q.source}
            && v == Some(Voted(RequiredVotes(|l.players|, l.scale, l.votesMax) - |g.votes| - 1))
            && (g'.timers == if g.votes == {} then g.timers + {START_TIMER} else g.timers))
      && (v.None? <==> q.forced || (q.source !in g.votes && |g.votes| >= RequiredVotes(|l.players|, l.scale, l.votesMax) - 1))
      && (v.None? ==> g'.votes == g.votes && g'.timers == g.timers)
  {
    if !q.forced && q.source !in g.votes && |g.votes| < RequiredVotes(|l.players|, l.scale, l.votesMax) - 1 {
      assert |g.votes + {q.source}| == |g.votes| + 1;
      if g.votes != {} {
        assert |g.votes + {q.source}| > 1;
      }
    }
  }

  /** A restart skips every lobby check and the vote. */
  lemma RestartSkipsLobby(g: Gate, q: Request, l: Lobby)
    requires q.restart.Some? && TriesAfter(g, q) <= g.maxRetries
    ensures StartGate(g, q, l).1.None?
    ensures StartGate(g, q, l).0.votes == g.votes && StartGate(g, q, l).0.lastStart == g.lastStart
  {
  }

  /** While players join, a non-empty vote set always has its expiry timer. */
  predicate VoteTimerInv(phase: Phase, votes: set<Player>, timers: set<string>) {
    phase == Join && votes != {} ==> START_TIMER in timers
  }

  /** The gate keeps the vote-timer invariant. */
  lemma GateKeepsVoteTimer(g: Gate, q: Request, l: Lobby)
    requires VoteTimerInv(l.phase, g.votes, g.timers)
    ensures VoteTimerInv(l.phase, StartGate(g, q, l).0.votes, StartGate(g, q, l).0.timers)
  {
    if ReachesVote(g, q, l) {
      VoteOutcomes(g, q, l);
    }
  }

  /** The gate stops a start for its own reasons, never for the custom
      settings, which are judged only after the roles are counted. */
  lemma GateNeverRejectsSettings(g: Gate, q: Request, l: Lobby)
    ensures StartGate(g, q, l).1.Some? ==> !SettingsRejected(StartGate(g, q, l).1.value)
  {
  }

  // ---------------------------------------------------------------------
  // The reset handler as written and as intended

  /** `on_reset` as written: it zeroes `MAX_RETRIES` and leaves `RESTART_TRIES` alone. */
  function ResetAsWritten(g: Gate): (g': Gate)
    ensures g'.lastStart == map[] && g'.votes == {} && g'.maxRetries == 0 && g'.tries == g.tries
  {
    g.(lastStart := map[], votes := {}, maxRetries := 0)
  }

  /** `on_reset` as intended: the restart count starts over and the cap stays. */
  function Reset(g: Gate): (g': Gate)
    ensures g'.lastStart == map[] && g'.votes == {} && g'.maxRetries == g.maxRetries && g'.tries == 0
  {
    g.(lastStart := map[], votes := {}, tries := 0)
  }

  /** After the reset as written, once any restart has happened, every later
      start aborts, ordinary ones included. */
  lemma ResetAsWrittenAbortsStarts(g: Gate, q: Request, l: Lobby)
    requires g.tries >= 1 && !Throttled(ResetAsWritten(g), q, l)
    ensures StartGate(ResetAsWritten(g), q, l).1 == Some(Aborted)
  {
  }

  /** After the intended reset, an ordinary start is never aborted, and the
      restart cap allows exactly `maxRetries` restarts again. */
  lemma ResetAllowsStarts(g: Gate, q: Request, l: Lobby)
    requires g.maxRetries >= 0
    ensures q.restart.None? ==> StartGate(Reset(g), q, l).1 != Some(Aborted)
    ensures q.restart.Some? ==> (StartGate(Reset(g), q, l).1 == Some(Aborted) <==> g.maxRetries < 1)
  {
  }

  /** `max_players` as written: `wrapper.send.send(...)` looks up an attribute
      the bound method does not have, so the check raises AttributeError
      instead of refusing the start. */
  const MAX_PLAYERS_CRASH: StartError := Crash("AttributeError: 'function' object has no attribute 'send'")

  /** Past every earlier check, the roster is above the maximum. */
  predicate ReachesMaxCheck(g: Gate, q: Request, l: Lobby) {
    && !Throttled(g, q, l) && TriesAfter(g, q) <= g.maxRetries
    && q.restart.None? && l.phase == Join && (q.source in l.players || q.forced)
    && !(l.canStart - q.now > 0 && !q.forced)
    && l.minPlayers <= |l.players| && |l.players| > l.maxPlayers
  }

  /** The gate as intended: the same, except that a roster above the maximum
      is refused with `max_players` instead of raising. */
  function StartGateIntended(g: Gate, q: Request, l: Lobby): (Gate, Option<StartError>) {
    var (g', stop) := StartGate(g, q, l);
    if ReachesMaxCheck(g, q, l) then (g', Some(TooManyPlayers)) else (g', stop)
  }

  /** The gate as written raises exactly when the maximum check is reached,
      after stamping the request and the game-start time, so that such a
      start never reaches the vote. */
  lemma TooManyPlayersCrashes(g: Gate, q: Request, l: Lobby)
    ensures (StartGate(g, q, l).1.Some? && StartGate(g, q, l).1.value.Crash?) <==> ReachesMaxCheck(g, q, l)
    ensures ReachesMaxCheck(g, q, l) ==>
      StartGate(g, q, l).0 == g.(lastStart := g.lastStart[q.source := Stamp(q.now, 1)], gameStartTime := q.now)
  {
  }

  /** The intended gate never raises: a roster above the maximum is refused
      with `max_players`, the vote and its timer stay as they were, and only
      the rate-limit stamp and the game-start time move. */
  lemma TooManyPlayersRefused(g: Gate, q: Request, l: Lobby)
    ensures StartGateIntended(g, q, l).1.Some? ==> !StartGateIntended(g, q, l).1.value.Crash?
    ensures StartGateIntended(g, q, l).1 == Some(TooManyPlayers) <==> ReachesMaxCheck(g, q, l)
    ensures ReachesMaxCheck(g, q, l) ==>
      StartGateIntended(g, q, l) == (g.(lastStart := g.lastStart[q.source := Stamp(q.now, 1)], gameStartTime := q.now), Some(TooManyPlayers))
  {
  }

  // ---------------------------------------------------------------------
  // The session

  /** The settings errors of custom role counts, after which the settings are reset. */
  predicate SettingsRejected(e: StartError) {
    e == TooFewPlayersCustom || e == NeedOneWolf || e == TooManyWolves
  }

  /** Holds when a player's seat is looked at; it is the trigger that takes
      `Seated` out of `SeatedWhenLooked`. */
  ghost predicate Look(p: Player) { true }

  /** `Seated`, kept folded behind `Look` so that the proofs about the
      session's fields, which never look into the seating, do not unfold it. */
  ghost predicate SeatedWhenLooked(s: Setup, sampled: map<Role, set<Player>>, prim: Seating, orig0: map<Player, Role>) {
    forall p {:trigger Look(p)} :: Look(p) ==> Seated(s, sampled, prim, orig0)
  }

  /** The role tables after a complete start: the main roles as seated and
      the secondary roles settled on top of them (`roles`), with statistics
      that are all non-negative. */
  ghost predicate Began(t: Table, s: Setup, sampled: map<Role, set<Player>>, prim: Seating, orig0: map<Player, Role>,
                        snap: map<Role, map<Role, Holders>>, drawn: map<Role, set<Player>>,
                        eligible: (map<Role, Holders>, set<Role>) -> set<Player>,
                        gm: Gamemode, custom: bool, roles: map<Role, Holders>, stats: set<Counter>)
  {
    && s.forced == t.forced && s.all == t.all && s.def == t.def && s.secondary == gm.secondary.Keys
    && SeatedWhenLooked(s, sampled, prim, orig0)
    && roles.Keys == prim.roles.Keys
    && (forall r :: r in roles && r !in gm.secondary ==> roles[r] == prim.roles[r])
    && (forall r :: r in gm.secondary ==>
          SettledIn(t.forced, gm.secondary, custom, eligible, prim.roles, r, snap, drawn, roles))
    && (forall v :: v in stats ==> NonNegative(v))
  }

  /** The settings and tables `start` reads: `GAME_MODES`, the disabled
      modes, `GAMEMODE_VOTES`, whether `fgame` fixed the mode, `FORCE_ROLES`,
      the role catalogue `All`, `DEFAULT_ROLE`, the `Wolfchat` category and
      `START_WITH_DAY`. */
  datatype Table = Table(
    modes: map<Mode, ModeEntry>, disabled: set<Mode>, modeVotes: map<Player, Mode>, fgamed: bool,
    forced: map<Role, set<Player>>, all: set<Role>, def: Role, wolfchat: set<Role>, startWithDay: bool)

  /** The `role_attribution` event: whether `dispatch` returned true, and the
      `addroles` counter its listeners left behind. */
  datatype Attribution = Attribution(proceed: bool, addroles: Counter)

  /** The state `start` and its handlers update: the module globals
      `LAST_START`, `START_VOTES`, `RESTART_TRIES`, `MAX_RETRIES`, and the
      parts of `var` involved. */
  class Session {
    var lastStart: map<Player, Stamp>
    var votes: set<Player>
    var tries: int
    var maxRetries: int
    var timers: set<string>          // the keys of `var.TIMERS`
    var aborted: bool                // `stop_game(abort=True)` was called
    var gameStartTime: int
    var current: Gamemode            // `var.CURRENT_GAMEMODE`
    var custom: bool                 // `var.ORIGINAL_SETTINGS` is non-empty
    var phase: Phase                 // `var.PHASE`
    var gamePhase: Phase             // `var.GAMEPHASE`
    var roles: map<Role, Holders>
    var mainRoles: map<Player, Role>
    var origMain: map<Player, Role>  // `var.ORIGINAL_MAIN_ROLES`
    var origRoles: map<Role, Holders>
    var stats: set<Counter>          // `var.ROLE_STATS`

    /** The part of the state the gate reads and writes. */
    function GateOf(): Gate
      reads this
    {
      Gate(lastStart, votes, tries, maxRetries, timers, aborted, gameStartTime)
    }

    /** Everything outside the gate. */
    function Tables(): (Gamemode, bool, Phase, Phase, map<Role, Holders>, map<Player, Role>, map<Player, Role>,
                        map<Role, Holders>, set<Counter>)
      reads this
    {
      (current, custom, phase, gamePhase, roles, mainRoles, origMain, origRoles, stats)
    }

    /** `var.ROLES` and `var.ORIGINAL_ROLES` are `tables`, `var.ROLE_STATS`
        is `published`, and the main roles are as `prim` seated them. */
    ghost predicate Installed(tables: map<Role, Holders>, published: set<Counter>, prim: Seating)
      reads this
    {
      && roles == tables && origRoles == tables && stats == published
      && mainRoles == prim.main && origMain == prim.orig
    }

    /** The module state at import: no start requests, no votes, no restarts. */
    constructor(gm: Gamemode)
      ensures GateOf() == Gate(map[], {}, 0, INITIAL_MAX_RETRIES, {}, false, 0)
      ensures current == gm && !custom && phase == NoGame
      ensures roles == map[] && mainRoles == map[] && origMain == map[] && origRoles == map[] && stats == {}
    {
      lastStart, votes, tries, maxRetries := map[], {}, 0, INITIAL_MAX_RETRIES;
      timers, aborted, gameStartTime := {}, false, 0;
      current, custom, phase, gamePhase := gm, false, NoGame, NoGame;
      roles, mainRoles, origMain, origRoles, stats := map[], map[], map[], map[], {};
    }

    /** Lines from the rate limit to the end of the start vote. */
    method RunGate(q: Request, l: Lobby) returns (stop: Option<StartError>)
      requires l.phase == phase
      modifies this
      ensures (GateOf(), stop) == StartGate(old(GateOf()), q, l)
      ensures stop.None? ==> timers == old(timers)
      ensures Tables() == old(Tables())
    {
      if !q.forced && q.source in lastStart && lastStart[q.source].time + l.rateLimit > q.now && q.restart.None? {
        var st := lastStart[q.source];
        lastStart := lastStart[q.source := st.(count := st.count + 1)];
        return Some(RateLimited);
      }
      if q.restart.Some? {
        tries := tries + 1;
      }
      if tries > maxRetries {
        aborted := true;
        return Some(Aborted);
      }
      if q.restart.Some? {
        return None;
      }
      lastStart := lastStart[q.source := Stamp(q.now, 1)];
      stop := CheckLobby(q, l);
    }

    /** The phase and population checks and the start vote. */
    method CheckLobby(q: Request, l: Lobby) returns (stop: Option<StartError>)
      requires l.phase == phase
      modifies this
      ensures (GateOf(), stop) == LobbyGate(old(GateOf()), q, l)
      ensures Tables() == old(Tables())
    {
      if phase == NoGame {
        return Some(NoGameRunning);
      }
      if phase != Join {
        return Some(AlreadyRunning);
      }
      if q.source !in l.players && !q.forced {
        return Some(NotPlaying);
      }
      gameStartTime := q.now;
      var dur := l.canStart - q.now;
      if dur > 0 && !q.forced {
        return Some(PleaseWait);
      }
      if |l.players| < l.minPlayers {
        return Some(NotEnoughPlayers);
      }
      if |l.players| > l.maxPlayers {
        return Some(MAX_PLAYERS_CRASH);
      }
      if !q.forced && q.source in votes {
        return Some(AlreadyVoted);
      }
      var required := RequiredVotes(|l.players|, l.scale, l.votesMax);
      if !q.forced && |votes| < required {
        if |votes| < required - 1 {
          votes := votes + {q.source};
          if |votes| == 1 {
            timers := timers + {START_TIMER};
          }
          return Some(Voted(required - |votes|));
        }
      }
      stop := None;
    }

    /** `retract` during the join phase: a current, connected voter takes the
        vote back, and the last vote going cancels the expiry timer, which
        raises KeyError when there is no such timer. */
    method Retract(source: Player, players: set<Player>, disconnected: set<Player>)
      returns (err: Option<StartError>)
      modifies this
      ensures source !in players || source in disconnected || phase != Join ==>
        GateOf() == old(GateOf()) && err.None?
      ensures source in players && source !in disconnected && phase == Join ==>
        && votes == old(votes) - {source}
        && (err.Some? <==> source in old(votes) && votes == {} && START_TIMER !in old(timers))
        && (err.Some? ==> err.value.Crash?)
        && timers == (if source in old(votes) && votes == {} then old(timers) - {START_TIMER} else old(timers))
      ensures lastStart == old(lastStart) && tries == old(tries) && maxRetries == old(maxRetries)
      ensures aborted == old(aborted) && gameStartTime == old(gameStartTime) && phase == old(phase)
      ensures VoteTimerInv(old(phase), old(votes), old(timers)) ==> err.None? && VoteTimerInv(phase, votes, timers)
      ensures Tables() == old(Tables())
    {
      if source !in players || source in disconnected {
        return None;
      }
      if phase == Join && source in votes {
        votes := votes - {source};
        if votes == {} {
          if START_TIMER !in timers {
            return Some(Crash("KeyError: 'start_votes'"));
          }
          timers := timers - {START_TIMER};
        }
      }
      err := None;
    }

    /** The `del_player` listener: during the join phase the player's vote
        goes, and with the last vote its timer. */
    method OnDelPlayer(player: Player)
      modifies this
      ensures phase == Join ==> votes == old(votes) - {player}
      ensures phase == Join ==>
        timers == (if votes == {} then old(timers) - {START_TIMER} else old(timers))
      ensures phase != Join ==> GateOf() == old(GateOf())
      ensures lastStart == old(lastStart) && tries == old(tries) && maxRetries == old(maxRetries)
      ensures aborted == old(aborted) && gameStartTime == old(gameStartTime) && phase == old(phase)
      ensures VoteTimerInv(old(phase), old(votes), old(timers)) ==> VoteTimerInv(phase, votes, timers)
      ensures Tables() == old(Tables())
    {
      if phase == Join {
        votes := votes - {player};
        if votes == {} && START_TIMER in timers {
          timers := timers - {START_TIMER};
        }
      }
    }

    /** The expiry timer: outside the join phase nothing happens, otherwise
        every start vote is dropped (the timer entry stays). */
    method ExpireStartVotes()
      modifies this
      ensures GateOf() == if old(phase) == Join then old(GateOf()).(votes := {}) else old(GateOf())
      ensures phase == old(phase) && Tables() == old(Tables())
      ensures VoteTimerInv(phase, votes, timers)
    {
      if phase != Join {
        return;
      }
      votes := {};
    }

    /** The `reset` listener as written: it zeroes `MAX_RETRIES` and keeps
        `RESTART_TRIES` (the intended reset is `Reset`). */
    method OnReset()
      modifies this
      ensures GateOf() == ResetAsWritten(old(GateOf()))
      ensures phase == old(phase) && Tables() == old(Tables())
    {
      lastStart := map[];
      votes := {};
      maxRetries := 0;
    }
 
    /** The gamemode for this start: the restart's mode, or, unless `fgame`
        fixed it, the one `Choose` draws. `install` stands for `cgamemode`,
        giving the gamemode it makes current. */
    method PickMode(q: Request, n: nat, t: Table, install: Mode -> Gamemode) returns (err: Option<StartError>)
      modifies this`current
      ensures err.Some? ==> err.value.Crash? && q.restart.None? && !t.fgamed
      ensures err.Some? || (q.restart.None? && t.fgamed) ==> current == old(current)
      ensures q.restart.Some? ==> err.None? && current == install(q.restart.value)
      ensures err.None? && q.restart.None? && !t.fgamed ==> exists m :: m in t.modes && current == install(m)
    {
      if q.restart.Some? {
        current := install(q.restart.value);
        return None;
      }
      if t.fgamed {
        return None;
      }
      var sel := Choose(t.modeVotes, t.modes, t.disabled, n);
      if sel.Err? {
        return Some(sel.error);
      }
      current := install(sel.value.mode);
      err := None;
    }

    /** The gamemode and the role counts for this start. */
    method Prepare(q: Request, n: nat, t: Table, install: Mode -> Gamemode, attribution: Attribution)
      returns (err: Option<StartError>, add: Counter, possible: seq<Counter>)
      modifies this`current, this`custom, this`phase
      ensures err.Some? ==>
        err.value.Crash? || err.value == NoSettingsDefined || err.value == TooManyRoles || SettingsRejected(err.value)
      ensures err.Some? && SettingsRejected(err.value) ==> !custom && phase == Join
      ensures !(err.Some? && SettingsRejected(err.value)) ==> custom == old(custom) && phase == old(phase)
    {
      add, possible := map[], [];
      err := PickMode(q, n, t, install);
      if err.Some? {
        return;
      }
      err, add, possible := BuildRoles(q, n, t, attribution);
    }

    /** From `role_attribution` to the custom-settings check; rejected
        custom settings are reset and the phase goes back to joining. */
    method BuildRoles(q: Request, n: nat, t: Table, attribution: Attribution)
      returns (err: Option<StartError>, add: Counter, possible: seq<Counter>)
      modifies this`custom, this`phase
      ensures err.Some? && SettingsRejected(err.value) ==> !custom && phase == Join
      ensures !(err.Some? && SettingsRejected(err.value)) ==> custom == old(custom) && phase == old(phase)
      ensures err.Some? ==>
        err.value.Crash? || err.value == NoSettingsDefined || err.value == TooManyRoles || SettingsRejected(err.value)
    {
      err, add, possible := RoleCounts(q.restart.None? && custom, current, n, t, attribution);
      if err.Some? && SettingsRejected(err.value) {
        custom, phase := false, Join;
      }
    }

    /** From clearing the role tables to cancelling the join timers;
        `tables` and `published` are the new `var.ROLES` and `var.ROLE_STATS`. */
    method SeatAll(q: Request, l: Lobby, t: Table, add: Counter, possible: seq<Counter>,
                   reconfigure: Counter -> seq<Counter>, eligible: (map<Role, Holders>, set<Role>) -> set<Player>)
      returns (err: Option<StartError>, s: Setup, ghost sampled: map<Role, set<Player>>, prim: Seating,
               ghost snap: map<Role, map<Role, Holders>>, ghost drawn: map<Role, set<Player>>,
               tables: map<Role, Holders>, published: set<Counter>)
      modifies this`roles, this`mainRoles, this`origMain, this`stats, this`timers, this`origRoles, this`custom, this`phase
      ensures timers == if err.None? then old(timers) - JOIN_TIMERS else old(timers)
      ensures err.Some? ==> err.value.Crash? || err.value.ForcedTooMany? || err.value.NotEnoughTargets?
      ensures err.Some? && err.value.NotEnoughTargets? ==> !custom && phase == Join
      ensures !(err.Some? && err.value.NotEnoughTargets?) ==> custom == old(custom) && phase == old(phase)
      ensures err.None? ==> Installed(tables, published, prim)
      ensures err.None? ==> s.roster == l.players && s.add == add
      ensures err.None? ==> Began(t, s, sampled, prim, old(origMain), snap, drawn, eligible,
                                  old(current), old(custom), tables, published)
      ensures err.None? && (forall r :: r in t.forced && r !in s.secondary ==> r in s.add) ==>
        l.players <= prim.main.Keys
    {
      err, s, sampled, prim, snap, drawn, tables, published :=
        SeatTables(t, current, custom, l.players, origMain, add, possible, reconfigure, eligible, stats);
      roles, mainRoles, origMain, stats := tables, prim.main, prim.orig, published;
      if err.Some? {
        if err.value.NotEnoughTargets? {
          custom, phase := false, Join;
        }
        return;
      }
      timers := timers - JOIN_TIMERS;
      origRoles := tables;
    }

    /** A whole start request, from the gate to the day or night it begins
        with. `install` stands for `cgamemode`, `reconfigure` for the
        `reconfigure_stats` listeners and `eligible` for `get_players`. */
    method Start(q: Request, l: Lobby, t: Table, install: Mode -> Gamemode, attribution: Attribution,
                 reconfigure: Counter -> seq<Counter>, eligible: (map<Role, Holders>, set<Role>) -> set<Player>)
      returns (err: Option<StartError>, s: Setup, ghost sampled: map<Role, set<Player>>, prim: Seating,
               ghost snap: map<Role, map<Role, Holders>>, ghost drawn: map<Role, set<Player>>,
               tables: map<Role, Holders>, published: set<Counter>)
      requires l.phase == phase
      modifies this
      ensures StartGate(old(GateOf()), q, l).1.Some? ==>
        err == StartGate(old(GateOf()), q, l).1 && GateOf() == StartGate(old(GateOf()), q, l).0 &&
        Tables() == old(Tables())
      ensures StartGate(old(GateOf()), q, l).1.None? && err.Some? ==>
        GateOf() == StartGate(old(GateOf()), q, l).0
      ensures err.Some? && (SettingsRejected(err.value) || err.value.NotEnoughTargets?) ==>
        !custom && phase == Join
      ensures err.Some? && !SettingsRejected(err.value) && !err.value.NotEnoughTargets? ==>
        custom == old(custom) && phase == old(phase)
      ensures err.None? ==> StartGate(old(GateOf()), q, l).1.None?
      ensures err.None? ==> GateOf() == StartGate(old(GateOf()), q, l).0.(timers := old(timers) - JOIN_TIMERS)
      ensures err.None? ==> Installed(tables, published, prim)
      ensures err.None? ==> s.roster == l.players && Began(t, s, sampled, prim, old(origMain), snap, drawn, eligible,
                                                        current, custom, tables, published)
      ensures err.None? && (forall r :: r in t.forced && r !in s.secondary ==> r in s.add) ==>
        l.players <= prim.main.Keys
      ensures err.None? ==> gamePhase == (if t.startWithDay then Day else Night)
      ensures err.None? ==> phase == (if q.restart.Some? then Join else old(phase))
    {
      s, prim := Setup(map[], map[], {}, {}, t.def, {}), Seating(map[], map[], map[], {});
      sampled, snap, drawn, tables, published := map[], map[], map[], map[], {};
      err := RunGate(q, l);
      if err.Some? {
        GateNeverRejectsSettings(old(GateOf()), q, l);
        return;
      }
      ghost var passed := GateOf();
      err, s, sampled, prim, snap, drawn, tables, published := Proceed(q, l, t, install, attribution, reconfigure, eligible);
      assert err.None? ==> GateOf() == passed.(timers := passed.timers - JOIN_TIMERS);
    }

    /** Everything a start does once the gate lets it through. */
    method Proceed(q: Request, l: Lobby, t: Table, install: Mode -> Gamemode, attribution: Attribution,
                   reconfigure: Counter -> seq<Counter>, eligible: (map<Role, Holders>, set<Role>) -> set<Player>)
      returns (err: Option<StartError>, s: Setup, ghost sampled: map<Role, set<Player>>, prim: Seating,
               ghost snap: map<Role, map<Role, Holders>>, ghost drawn: map<Role, set<Player>>,
               tables: map<Role, Holders>, published: set<Counter>)
      modifies this`current, this`custom, this`phase, this`gamePhase, this`roles, this`mainRoles
      modifies this`origMain, this`origRoles, this`stats, this`timers
      ensures err.Some? ==>
        err.value.Crash? || err.value == NoSettingsDefined || err.value == TooManyRoles ||
        SettingsRejected(err.value) || err.value.ForcedTooMany? || err.value.NotEnoughTargets?
      ensures err.Some? && (SettingsRejected(err.value) || err.value.NotEnoughTargets?) ==> !custom && phase == Join
      ensures err.Some? && !SettingsRejected(err.value) && !err.value.NotEnoughTargets? ==>
        custom == old(custom) && phase == old(phase)
      ensures timers == if err.None? then old(timers) - JOIN_TIMERS else old(timers)
      ensures err.None? ==> Installed(tables, published, prim)
      ensures err.None? ==> s.roster == l.players && Began(t, s, sampled, prim, old(origMain), snap, drawn, eligible,
                                                        current, custom, tables, published)
      ensures err.None? && (forall r :: r in t.forced && r !in s.secondary ==> r in s.add) ==>
        l.players <= prim.main.Keys
      ensures err.None? ==> gamePhase == (if t.startWithDay then Day else Night)
      ensures err.None? ==> phase == (if q.restart.Some? then Join else old(phase))
    {
      s, prim := Setup(map[], map[], {}, {}, t.def, {}), Seating(map[], map[], map[], {});
      sampled, snap, drawn, tables, published := map[], map[], map[], map[], {};
      var add, possible;
      err, add, possible := Prepare(q, |l.players|, t, install, attribution);
      if err.Some? {
        return;
      }
      err, s, sampled, prim, snap, drawn, tables, published := SeatAll(q, l, t, add, possible, reconfigure, eligible);
      if err.Some? {
        return;
      }
      EnterCycle(q, t);
    }

    /** The phase the game begins in: a restart passes through joining again,
        and the first phase is day or night as configured. */
    method EnterCycle(q: Request, t: Table)
      modifies this`phase, this`gamePhase
      ensures gamePhase == (if t.startWithDay then Day else Night)
      ensures phase == (if q.restart.Some? then Join else old(phase))
    {
      if q.restart.Some? {
        phase := Join;
      }
      gamePhase := if t.startWithDay then Day else Night;
    }
  }

  /** `addroles` once the `role_attribution` event has run: the listeners'
      counter when one of them stopped the event, otherwise the gamemode's
      role guide resolved for `n` players on top of the listeners' counter;
      `base` is the guide counter with the negations applied. */
  method Attribute(gm: Gamemode, n: nat, t: Table, attribution: Attribution)
    returns (err: Option<StartError>, add: Counter, ghost base: Counter)
    ensures !attribution.proceed ==> err.None? && add == attribution.addroles
    ensures err.Some? ==> err.value.Crash? || err.value == NoSettingsDefined || err.value == TooManyRoles
    ensures attribution.proceed ==>
      (err.Some? && err.value.Crash? <==> "" in GuideCounter(gm.guide, n))
    ensures attribution.proceed && "" !in GuideCounter(gm.guide, n) ==>
      && NetOfNegations(GuideCounter(gm.guide, n), base)
      && (err == Some(NoSettingsDefined) <==> base == map[])
      && (err == Some(TooManyRoles) <==>
            base != map[] && PrimaryTotal(Floored(attribution.addroles, base, t.forced), gm.secondary.Keys) > n)
    ensures attribution.proceed && err.None? ==>
      && t.all <= add.Keys && base.Keys <= add.Keys && attribution.addroles.Keys <= add.Keys
      && (forall x :: x in base ==> add[x] >= ForcedCount(t.forced, x))
      && (forall x :: x in base ==>
            add[x] >= (if x in attribution.addroles then attribution.addroles[x] else base[x]))
      && (forall x :: x in attribution.addroles && x !in base ==> add[x] == attribution.addroles[x])
      && PrimaryTotal(add, gm.secondary.Keys) <= n
  {
    add := attribution.addroles;
    err := None;
    base := map[];
    if attribution.proceed {
      var r;
      r, base := ResolveAddroles(gm.guide, n, add, t.forced, gm.secondary.Keys, t.all);
      if r.Err? {
        return Some(r.error), add, base;
      }
      add := r.value;
    }
  }

  /** `addroles` from the `role_attribution` event through the roleset
      expansion and, for custom settings outside a restart (`checkCustom`),
      the sanity check. */
  method RoleCounts(checkCustom: bool, gm: Gamemode, n: nat, t: Table, attribution: Attribution)
    returns (err: Option<StartError>, add: Counter, possible: seq<Counter>)
    ensures err.Some? ==>
      err.value.Crash? || err.value == NoSettingsDefined || err.value == TooManyRoles || SettingsRejected(err.value)
    ensures err.Some? && SettingsRejected(err.value) ==> checkCustom
    ensures err.None? && checkCustom ==> CustomVerdictOf(add, n, t.wolfchat, gm.secondary.Keys, gm.name).None?
  {
    possible := [];
    ghost var base;
    err, add, base := Attribute(gm, n, t, attribution);
    if err.Some? {
      return;
    }
    var ex, picks := Expand(add, gm.roleSets);
    if ex.Err? {
      return Some(ex.error), add, possible;
    }
    add, possible := ex.value.addroles, ex.value.possible;
    if checkCustom {
      err := CustomVerdict(add, n, t.wolfchat, gm.secondary.Keys, gm.name);
    }
  }

  /** Main roles, statistics and secondary roles, as values: the new
      `var.ROLES`, `var.ROLE_STATS` (`stats0` when publishing fails) and the
      seating of the main roles. */
  method SeatTables(t: Table, gm: Gamemode, custom: bool, players: set<Player>, orig0: map<Player, Role>,
                    add: Counter, possible: seq<Counter>, reconfigure: Counter -> seq<Counter>,
                    eligible: (map<Role, Holders>, set<Role>) -> set<Player>, stats0: set<Counter>)
    returns (err: Option<StartError>, s: Setup, ghost sampled: map<Role, set<Player>>, prim: Seating,
             ghost snap: map<Role, map<Role, Holders>>, ghost drawn: map<Role, set<Player>>,
             roles: map<Role, Holders>, stats: set<Counter>)
    ensures err.Some? ==> err.value.Crash? || err.value.ForcedTooMany? || err.value.NotEnoughTargets?
    ensures err.Some? && err.value.NotEnoughTargets? ==> custom
    ensures s == Setup(add, t.forced, gm.secondary.Keys, t.all, t.def, players)
    ensures err.None? ==> Began(t, s, sampled, prim, orig0, snap, drawn, eligible, gm, custom, roles, stats)
    ensures err.None? && (forall r :: r in t.forced && r !in s.secondary ==> r in s.add) ==>
      players <= prim.main.Keys
  {
    s := Setup(add, t.forced, gm.secondary.Keys, t.all, t.def, players);
    var possible';
    err, prim, possible', sampled := CommitPrimary(s, orig0, possible);
    snap, drawn, roles, stats := map[], map[], prim.roles, stats0;
    if err.Some? {
      return;
    }
    var published := PublishStats(possible', reconfigure);
    if published.Err? {
      return Some(published.error), s, sampled, prim, snap, drawn, roles, stats;
    }
    stats := published.value;
    err, roles, snap, drawn := SeatSecondary(t.forced, gm.secondary, custom, players, prim.roles, eligible);
    if err.Some? {
      return;
    }
    if forall r :: r in t.forced && r !in s.secondary ==> r in s.add {
      SeatedCoversRoster(s, sampled, prim, orig0);
    }
  }
}
