/** Gamemode selection when no mode was forced: votes are tallied over the
    population-compatible modes, a mode with the top tally that covers half
    the roster wins outright; otherwise one entry is drawn from a pool of
    votes padded with `None` placeholders, and a `None` draw falls back to a
    pool weighted by each mode's declared weight. `random.choice` is an
    arbitrary pick from the pool, so every contract holds for every draw. */
module Gamemodes {
  import opened Common
  import opened RoleGuide

  /** The parts of a gamemode class the start sequence reads. */
  datatype Gamemode = Gamemode(
    name: Mode,
    guide: seq<Tier>,
    roleSets: map<Role, Counter>,
    secondary: map<Role, set<Role>>)

  /** One `GAME_MODES` entry: the class and its (minimum, maximum, weight). */
  datatype ModeEntry = ModeEntry(config: Gamemode, minPlayers: int, maxPlayers: int, weight: int)

  /** `n >= GAME_MODES[m][1] and n <= GAME_MODES[m][2]` */
  predicate Fits(e: ModeEntry, n: int) {
    e.minPlayers <= n <= e.maxPlayers
  }

  /** The voters among `voters` whose `GAMEMODE_VOTES` entry is `m`. */
  ghost function VotersFor(votes: map<Player, Mode>, voters: set<Player>, m: Mode): set<Player> {
    set p | p in voters && p in votes && votes[p] == m
  }

  /** Some vote names a mode that `GAME_MODES` does not know (a KeyError). */
  ghost predicate UnknownVote(votes: map<Player, Mode>, modes: map<Mode, ModeEntry>) {
    exists p :: p in votes && votes[p] !in modes
  }

  /** The tally the loop is meant to build: every compatible mode with at
      least one vote, mapped to its number of voters. */
  ghost function TallyOf(votes: map<Player, Mode>, modes: map<Mode, ModeEntry>, n: int): Counter
    requires !UnknownVote(votes, modes)
  {
    map m | m in votes.Values && Fits(modes[m], n) :: |VotersFor(votes, votes.Keys, m)|
  }

  /** `for gamemode in GAMEMODE_VOTES.values(): if compatible: votes[gamemode] += 1` */
  method Tally(votes: map<Player, Mode>, modes: map<Mode, ModeEntry>, n: int) returns (r: Result<Counter>)
    ensures r.Err? <==> UnknownVote(votes, modes)
    ensures r.Err? ==> r.error.Crash?
    ensures r.Ok? ==> r.value == TallyOf(votes, modes, n)
  {
    var tally: Counter := map[];
    var todo := votes.Keys;
    while todo != {}
      invariant todo <= votes.Keys
      invariant Tallied(votes, modes, n, votes.Keys - todo, tally)
      decreases todo
    {
      var p :| p in todo;
      var m := votes[p];
      if m !in modes {
        return Err(Crash("KeyError: a vote for an unknown gamemode"));
      }
      ghost var done := votes.Keys - todo;
      todo := todo - {p};
      assert votes.Keys - todo == done + {p};
      var tally' := if Fits(modes[m], n) then tally[m := Get(tally, m) + 1] else tally;
      TallyStep(votes, modes, n, done, p, tally, tally');
      tally := tally';
    }
    assert votes.Keys - todo == votes.Keys;
    TallyDone(votes, modes, n, tally);
    r := Ok(tally);
  }

  /** The tally of the voters in `done`: every one of them voted for a known
      mode, and each compatible mode with one of their votes has its count. */
  ghost predicate Tallied(votes: map<Player, Mode>, modes: map<Mode, ModeEntry>, n: int,
                          done: set<Player>, tally: Counter) {
    && (forall p :: p in votes && p in done ==> votes[p] in modes)
    && (forall m :: m in tally <==> m in modes && Fits(modes[m], n) && VotersFor(votes, done, m) != {})
    && (forall m :: m in tally ==> tally[m] == |VotersFor(votes, done, m)|)
  }

  /** Counting one more voter of a known mode keeps the tally right. */
  lemma TallyStep(votes: map<Player, Mode>, modes: map<Mode, ModeEntry>, n: int, done: set<Player>, p: Player,
                  tally: Counter, tally': Counter)
    requires Tallied(votes, modes, n, done, tally)
    requires p in votes && p !in done && votes[p] in modes
    requires tally' == if Fits(modes[votes[p]], n) then tally[votes[p] := Get(tally, votes[p]) + 1] else tally
    ensures Tallied(votes, modes, n, done + {p}, tally')
  {
    VotersForAdd(votes, done, p);
  }

  /** Once every voter is counted the tally is `TallyOf`. */
  lemma TallyDone(votes: map<Player, Mode>, modes: map<Mode, ModeEntry>, n: int, tally: Counter)
    requires Tallied(votes, modes, n, votes.Keys, tally)
    ensures !UnknownVote(votes, modes) && tally == TallyOf(votes, modes, n)
  {
    ghost var t := TallyOf(votes, modes, n);
    forall m ensures m in tally <==> m in t {
      if m in tally {
        var p :| p in VotersFor(votes, votes.Keys, m);
      }
      if m in t {
        var p :| p in votes && votes[p] == m;
        assert p in VotersFor(votes, votes.Keys, m);
      }
    }
  }

  /** Counting one more voter changes only the count of that voter's mode. */
  lemma VotersForAdd(votes: map<Player, Mode>, done: set<Player>, p: Player)
    requires p in votes && p !in done
    ensures forall m :: VotersFor(votes, done + {p}, m) == (if m == votes[p] then VotersFor(votes, done, m) + {p} else VotersFor(votes, done, m))
    ensures |VotersFor(votes, done + {p}, votes[p])| == |VotersFor(votes, done, votes[p])| + 1
  {
    forall m
      ensures VotersFor(votes, done + {p}, m) ==
              (if m == votes[p] then VotersFor(votes, done, m) + {p} else VotersFor(votes, done, m))
    {
    }
  }

  /** Some mode of a non-empty tally, the one the fold below takes first. */
  ghost function AnyMode(t: Counter): (k: Mode)
    requires t != map[]
    ensures k in t
  {
    var k :| k in t; k
  }

  /** `max(votes.values())` of a non-empty tally, folded one mode at a time. */
  ghost function MaxTally(t: Counter): int
    requires t != map[]
    decreases |t.Keys|
  {
    var k := AnyMode(t);
    var rest := t - {k};
    assert rest.Keys == t.Keys - {k};
    if rest == map[] then t[k] else Max(t[k], MaxTally(rest))
  }

  /** The fold reaches the tally of some mode and no mode's tally exceeds it. */
  lemma {:induction false} MaxTallyIsMax(t: Counter)
    ensures t != map[] ==> exists k :: k in t && t[k] == MaxTally(t)
    ensures t != map[] ==> forall k :: k in t ==> t[k] <= MaxTally(t)
    decreases |t.Keys|
  {
    if t != map[] {
      var k := AnyMode(t);
      var rest := t - {k};
      assert rest.Keys == t.Keys - {k};
      if rest != map[] {
        MaxTallyIsMax(rest);
        var w :| w in rest && rest[w] == MaxTally(rest);
        assert MaxTally(t) == Max(t[k], MaxTally(rest));
        forall j | j in t ensures t[j] <= MaxTally(t) {
          if j != k { assert j in rest; }
        }
        if t[k] >= MaxTally(rest) {
          assert t[k] == MaxTally(t);
        } else {
          assert t[w] == MaxTally(t);
        }
      } else {
        assert t.Keys == {k};
      }
    }
  }

  /** `[gamemode for gamemode in votes if votes[gamemode] == max(votes.values())
      and votes[gamemode] >= len(villagers)/2]`, the division being true
      division: some mode wins by vote exactly when the largest tally covers
      half the roster, and then the winners are the modes with that tally. */
  function VotedModes(t: Counter, n: int): (v: set<Mode>)
    ensures v != {} <==> t != map[] && 2 * MaxTally(t) >= n
    ensures t != map[] ==> forall m :: m in v <==> m in t && t[m] == MaxTally(t) && 2 * MaxTally(t) >= n
  {
    WinnersAtMax(t, n);
    set m | m in t && 2 * t[m] >= n && (forall k :: k in t ==> t[k] <= t[m])
  }

  /** The modes at least as high as every other tally are the modes at the
      largest tally. */
  lemma WinnersAtMax(t: Counter, n: int)
    ensures var v := set m | m in t && 2 * t[m] >= n && (forall k :: k in t ==> t[k] <= t[m]);
      && (v != {} <==> t != map[] && 2 * MaxTally(t) >= n)
      && (t != map[] ==> forall m :: m in v <==> m in t && t[m] == MaxTally(t) && 2 * MaxTally(t) >= n)
  {
    var v := set m | m in t && 2 * t[m] >= n && (forall k :: k in t ==> t[k] <= t[m]);
    if t != map[] {
      MaxTallyIsMax(t);
      var w :| w in t && t[w] == MaxTally(t);
      forall m ensures m in v <==> m in t && t[m] == MaxTally(t) && 2 * MaxTally(t) >= n {
        if m in v {
          assert t[w] <= t[m];
        }
      }
      if 2 * MaxTally(t) >= n {
        assert w in v;
      }
    }
  }

  /** Every mode that wins by vote has the same, maximal, tally. */
  lemma VotedModesTie(t: Counter, n: int, a: Mode, b: Mode)
    requires a in VotedModes(t, n) && b in VotedModes(t, n)
    ensures t[a] == t[b]
  {
    assert t[a] <= t[b] && t[b] <= t[a];
  }

  /** The tallied modes that the pool loop does not skip: compatible, with a
      weight other than 0 (the loop tests `== 0`, so a negative weight passes). */
  ghost function Counted(t: Counter, modes: map<Mode, ModeEntry>, n: int): set<Mode>
    requires t.Keys <= modes.Keys
  {
    set m | m in t && Fits(modes[m], n) && modes[m].weight != 0
  }

  /** The number of `None` placeholders: half the roster not covered by counted votes. */
  ghost function NoneSlots(t: Counter, modes: map<Mode, ModeEntry>, n: int): int
    requires t.Keys <= modes.Keys
  {
    var numvotes := SumOver(t, Counted(t, modes, n));
    if n - numvotes > 0 then (n - numvotes) / 2 else 0
  }

  /** The vote pool, in any order of the tally. */
  method VotePool(t: Counter, modes: map<Mode, ModeEntry>, n: int) returns (pool: seq<Option<Mode>>)
    requires t.Keys <= modes.Keys
    ensures forall m :: multiset(pool)[Some(m)] == (if m in Counted(t, modes, n) then Max(t[m], 0) else 0)
    ensures multiset(pool)[None] == NoneSlots(t, modes, n)
  {
    pool := [];
    var numvotes := 0;
    var todo := t.Keys;
    ghost var counted := Counted(t, modes, n);
    while todo != {}
      invariant todo <= t.Keys
      invariant Pooled(t, counted, counted - todo, pool)
      invariant numvotes == SumOver(t, counted - todo)
      decreases todo
    {
      var m :| m in todo;
      var num := t[m];
      ghost var before := counted - todo;
      todo := todo - {m};
      var e := modes[m];
      if n < e.minPlayers || n > e.maxPlayers || e.weight == 0 {
        assert counted - todo == before;
        continue;
      }
      SumOverAdd(t, before, m);
      assert counted - todo == before + {m};
      PooledAdd(t, counted, before, m, pool);
      pool := pool + Times(Some(m), num);
      numvotes := numvotes + num;
    }
    assert counted - todo == counted;
    var pool' := if n - numvotes > 0 then pool + Times(None, (n - numvotes) / 2) else pool;
    PooledDone(t, modes, n, pool, pool');
    pool := pool';
  }

  /** The placeholders complete the pool. */
  lemma PooledDone(t: Counter, modes: map<Mode, ModeEntry>, n: int, pool: seq<Option<Mode>>, pool': seq<Option<Mode>>)
    requires t.Keys <= modes.Keys
    requires Pooled(t, Counted(t, modes, n), Counted(t, modes, n), pool)
    requires pool' == if n - SumOver(t, Counted(t, modes, n)) > 0
      then pool + Times(None, (n - SumOver(t, Counted(t, modes, n))) / 2) else pool
    ensures forall m :: multiset(pool')[Some(m)] == (if m in Counted(t, modes, n) then Max(t[m], 0) else 0)
    ensures multiset(pool')[None] == NoneSlots(t, modes, n)
  {
    var counted := Counted(t, modes, n);
    if n - SumOver(t, counted) > 0 {
      var ts := Times(None, (n - SumOver(t, counted)) / 2);
      assert multiset(pool') == multiset(pool) + multiset(ts);
    }
  }

  /** The pool holds every counted mode of `done` as often as it has votes, and no `None`. */
  ghost predicate Pooled(t: Counter, counted: set<Mode>, done: set<Mode>, pool: seq<Option<Mode>>) {
    && (forall m :: multiset(pool)[Some(m)] == (if m in done && m in t then Max(t[m], 0) else 0))
    && multiset(pool)[None] == 0
  }

  lemma PooledAdd(t: Counter, counted: set<Mode>, done: set<Mode>, m: Mode, pool: seq<Option<Mode>>)
    requires Pooled(t, counted, done, pool) && m in t && m !in done
    ensures Pooled(t, counted, done + {m}, pool + Times(Some(m), t[m]))
  {
    var ts := Times(Some(m), t[m]);
    assert multiset(pool + ts) == multiset(pool) + multiset(ts);
  }

  /** The modes the fallback draw can return. */
  ghost predicate Drawable(modes: map<Mode, ModeEntry>, disabled: set<Mode>, n: int, m: Mode) {
    m in modes && m !in disabled && Fits(modes[m], n) && modes[m].weight > 0
  }

  /** `for gamemode in GAME_MODES.keys() - DISABLED_GAMEMODES: possiblegamemodes += [gamemode] * weight`
      for the compatible modes of positive weight. */
  method FallbackPool(modes: map<Mode, ModeEntry>, disabled: set<Mode>, n: int) returns (pool: seq<Mode>)
    ensures forall m :: multiset(pool)[m] == (if Drawable(modes, disabled, n, m) then modes[m].weight else 0)
  {
    pool := [];
    var todo := modes.Keys - disabled;
    while todo != {}
      invariant todo <= modes.Keys - disabled
      invariant forall m :: multiset(pool)[m] == (if Drawable(modes, disabled, n, m) && m !in todo then modes[m].weight else 0)
      decreases todo
    {
      var m :| m in todo;
      todo := todo - {m};
      var e := modes[m];
      if n >= e.minPlayers && n <= e.maxPlayers && e.weight > 0 {
        pool := pool + Times(m, e.weight);
      }
    }
  }

  /** How the mode was chosen. */
  datatype Selection = ByVote(mode: Mode) | FromVotes(mode: Mode) | FromWeights(mode: Mode)

  /** The vote pool is empty: no counted mode has a positive tally and there is no placeholder. */
  ghost predicate PoolEmpty(t: Counter, modes: map<Mode, ModeEntry>, n: int)
    requires t.Keys <= modes.Keys
  {
    (forall m :: m in Counted(t, modes, n) ==> t[m] <= 0) && NoneSlots(t, modes, n) == 0
  }

  /** A pool that holds no mode holds only placeholders. */
  lemma OnlyPlaceholders(pool: seq<Option<Mode>>)
    requires forall m :: multiset(pool)[Some(m)] == 0
    ensures forall i :: 0 <= i < |pool| ==> pool[i].None?
  {
    forall i | 0 <= i < |pool|
      ensures pool[i].None?
    {
      assert pool[i] in multiset(pool);
    }
  }

  /** A pool in which nothing occurs is empty. */
  lemma NothingOccurs<T>(pool: seq<T>)
    requires forall x :: multiset(pool)[x] == 0
    ensures pool == []
  {
    assert multiset(pool) == multiset{};
    assert |pool| == |multiset(pool)|;
  }

  /** The draw that follows a tally without unknown modes. An empty pool
      makes `random.choice` raise IndexError. */
  method Draw(t: Counter, modes: map<Mode, ModeEntry>, disabled: set<Mode>, n: int)
    returns (r: Result<Selection>)
    requires t.Keys <= modes.Keys
    ensures r.Err? ==> r.error.Crash?
    ensures r.Ok? ==> r.value.mode in modes
    ensures r.Ok? && r.value.ByVote? ==> r.value.mode in VotedModes(t, n)
    ensures VotedModes(t, n) != {} ==> r.Ok? && r.value.ByVote?
    ensures r.Ok? && !r.value.ByVote? ==> VotedModes(t, n) == {}
    ensures r.Ok? && r.value.FromVotes? ==> r.value.mode in Counted(t, modes, n)
    ensures r.Ok? && r.value.FromWeights? ==> Drawable(modes, disabled, n, r.value.mode)
    ensures r.Err? ==>
      VotedModes(t, n) == {} && (PoolEmpty(t, modes, n) || forall m :: !Drawable(modes, disabled, n, m))
    ensures VotedModes(t, n) == {} && PoolEmpty(t, modes, n) ==> r.Err?
    ensures (VotedModes(t, n) == {} && (forall m :: m in Counted(t, modes, n) ==> t[m] <= 0) &&
             (forall m :: !Drawable(modes, disabled, n, m))) ==> r.Err?
  {
    var voted := VotedModes(t, n);
    if voted != {} {
      var m :| m in voted;
      return Ok(ByVote(m));
    }
    var pool := VotePool(t, modes, n);
    if pool == [] {
      forall m | m in Counted(t, modes, n) ensures t[m] <= 0 {
        assert multiset(pool)[Some(m)] == 0;
      }
      return Err(Crash("IndexError: choice from an empty pool"));
    }
    if PoolEmpty(t, modes, n) {
      forall x: Option<Mode> ensures multiset(pool)[x] == 0 {
        if x.Some? {
          assert multiset(pool)[Some(x.value)] == 0;
        }
      }
      NothingOccurs(pool);
    }
    var i :| 0 <= i < |pool|;
    assert pool[i] in multiset(pool);
    if pool[i].Some? {
      if forall m :: m in Counted(t, modes, n) ==> t[m] <= 0 {
        OnlyPlaceholders(pool);
      }
      return Ok(FromVotes(pool[i].value));
    }
    var fallback := FallbackPool(modes, disabled, n);
    if fallback == [] {
      return Err(Crash("IndexError: choice from an empty pool"));
    }
    if forall m :: !Drawable(modes, disabled, n, m) {
      NothingOccurs(fallback);
    }
    var j :| 0 <= j < |fallback|;
    assert fallback[j] in multiset(fallback);
    r := Ok(FromWeights(fallback[j]));
  }

  /** The whole selection: the tally, then the draw. */
  method Choose(votes: map<Player, Mode>, modes: map<Mode, ModeEntry>, disabled: set<Mode>, n: int)
    returns (r: Result<Selection>)
    ensures r.Err? ==> r.error.Crash?
    ensures UnknownVote(votes, modes) ==> r.Err?
    ensures r.Ok? ==> !UnknownVote(votes, modes) && r.value.mode in modes
    ensures r.Ok? && r.value.ByVote? ==>
      !UnknownVote(votes, modes) && r.value.mode in VotedModes(TallyOf(votes, modes, n), n)
    ensures !UnknownVote(votes, modes) && VotedModes(TallyOf(votes, modes, n), n) != {} ==>
      r.Ok? && r.value.ByVote?
    ensures r.Ok? && r.value.FromVotes? ==>
      !UnknownVote(votes, modes) && VotedModes(TallyOf(votes, modes, n), n) == {} &&
      r.value.mode in Counted(TallyOf(votes, modes, n), modes, n)
    ensures r.Ok? && r.value.FromWeights? ==>
      !UnknownVote(votes, modes) && VotedModes(TallyOf(votes, modes, n), n) == {} &&
      Drawable(modes, disabled, n, r.value.mode)
    ensures r.Err? && !UnknownVote(votes, modes) ==>
      VotedModes(TallyOf(votes, modes, n), n) == {} &&
      (PoolEmpty(TallyOf(votes, modes, n), modes, n) || forall m :: !Drawable(modes, disabled, n, m))
    ensures (!UnknownVote(votes, modes) && VotedModes(TallyOf(votes, modes, n), n) == {} &&
             PoolEmpty(TallyOf(votes, modes, n), modes, n)) ==> r.Err?
    ensures (!UnknownVote(votes, modes) && VotedModes(TallyOf(votes, modes, n), n) == {} &&
             (forall m :: m in Counted(TallyOf(votes, modes, n), modes, n) ==> TallyOf(votes, modes, n)[m] <= 0) &&
             (forall m :: !Drawable(modes, disabled, n, m))) ==> r.Err?
  {
    var tally := Tally(votes, modes, n);
    if tally.Err? {
      return Err(tally.error);
    }
    r := Draw(tally.value, modes, disabled, n);
  }
}
