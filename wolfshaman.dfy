/** The wolf shaman: every night it is handed a totem drawn by weight from
    the gamemode's totem table, and if it does not give the totem away itself
    by day, a random player other than last night's recipient gets it. */
module WolfShaman {
  import opened Common
  import opened RoleMetadata

  type Totem = string

  const WOLF_SHAMAN: Role := "wolf shaman"

  /** `TOTEM_CHANCES`: for every totem, the weight each shaman role draws it with. */
  type Chances = map<Totem, map<Role, int>>

  /** The totems `set_wolf_totems` gives weight 1, in the order it sets them. */
  const WOLF_TOTEMS: seq<Totem> :=
    ["protection", "silence", "impatience", "pacifism", "lycanthropy", "luck", "retribution", "misdirection", "deceit"]

  // ---------------------------------------------------------------------
  // Totem recipients

  /** No player is listed twice, as in the lists `get_players` returns. */
  predicate Distinct(xs: seq<Player>) {
    forall i, j :: 0 <= i < j < |xs| ==> xs[i] != xs[j]
  }

  /** `xs.remove(x)` on a list that holds `x`: the first occurrence goes. */
  function RemoveFirst(xs: seq<Player>, x: Player): (r: seq<Player>)
    ensures multiset(r) == multiset(xs) - multiset{x}
  {
    if xs == [] then []
    else
      assert xs == [xs[0]] + xs[1..];
      if xs[0] == x then xs[1..]
      else [xs[0]] + RemoveFirst(xs[1..], x)
  }

  /** A list without repetitions no longer holds the removed player. */
  lemma {:induction false} RemoveFirstGone(xs: seq<Player>, x: Player)
    requires Distinct(xs)
    ensures x !in RemoveFirst(xs, x)
  {
    if xs != [] {
      if xs[0] == x {
        forall i | 0 <= i < |xs[1..]| ensures xs[1..][i] != x {
          assert xs[1..][i] == xs[i + 1];
        }
      } else {
        assert Distinct(xs[1..]) by {
          forall i, j | 0 <= i < j < |xs[1..]| ensures xs[1..][i] != xs[1..][j] {
            assert xs[1..][i] == xs[i + 1] && xs[1..][j] == xs[j + 1];
          }
        }
        RemoveFirstGone(xs[1..], x);
      }
    }
  }

  /** The players a shaman may hand a totem to: `pl` without the player it
      gave its last totem to, when that player is still listed. A last
      recipient of None is never listed. */
  function Candidates(pl: seq<Player>, lastGiven: map<Player, Option<Player>>, s: Player): seq<Player> {
    if s in lastGiven && lastGiven[s].Some? && lastGiven[s].value in pl then RemoveFirst(pl, lastGiven[s].value)
    else pl
  }

  /** The candidates never include the last recipient, and include every
      other listed player. */
  lemma CandidatesExcludeLast(pl: seq<Player>, lastGiven: map<Player, Option<Player>>, s: Player)
    requires Distinct(pl)
    ensures s in lastGiven && lastGiven[s].Some? ==> lastGiven[s].value !in Candidates(pl, lastGiven, s)
    ensures forall x :: x in pl && !(s in lastGiven && lastGiven[s] == Some(x)) ==> x in Candidates(pl, lastGiven, s)
  {
    if s in lastGiven && lastGiven[s].Some? && lastGiven[s].value in pl {
      var last := lastGiven[s].value;
      RemoveFirstGone(pl, last);
      forall x | x in pl && x != last ensures x in Candidates(pl, lastGiven, s) {
        assert multiset(Candidates(pl, lastGiven, s))[x] == multiset(pl)[x];
      }
    }
  }

  /** The shamans among `among` whose `LASTGIVEN` entry the day-begin pass
      clears: silenced, or left without a candidate, before giving a totem. */
  ghost function Muted(among: set<Player>, silenced: set<Player>, pl: seq<Player>,
                       shamans: map<Player, Player>, lastGiven: map<Player, Option<Player>>): set<Player> {
    set s | s in among && s !in shamans && (s in silenced || Candidates(pl, lastGiven, s) == [])
  }

  // ---------------------------------------------------------------------
  // Drawing a totem

  /** The first `n` totems of the table have a wolf-shaman weight. */
  predicate WeightedUpTo(order: seq<Totem>, chances: Chances, n: nat) {
    forall k :: 0 <= k < n && k < |order| ==> order[k] in chances && WOLF_SHAMAN in chances[order[k]]
  }

  /** Every totem of the table has a wolf-shaman weight. */
  predicate Weighted(order: seq<Totem>, chances: Chances) {
    WeightedUpTo(order, chances, |order|)
  }

  /** `order` lists the keys of `chances` once each: the dict's iteration order. */
  ghost predicate KeyOrder(order: seq<Totem>, chances: Chances) {
    && (forall t :: t in chances <==> t in order)
    && (forall i, j :: 0 <= i < j < |order| ==> order[i] != order[j])
  }

  /** The sum of the wolf-shaman weights of the first `n` totems. */
  function Running(order: seq<Totem>, chances: Chances, n: nat): int
    requires n <= |order| && WeightedUpTo(order, chances, n)
  {
    if n == 0 then 0 else Running(order, chances, n - 1) + chances[order[n - 1]][WOLF_SHAMAN]
  }

  /** `max_totems`: the sum of every wolf-shaman weight. */
  function MaxTotems(order: seq<Totem>, chances: Chances): int
    requires Weighted(order, chances)
  {
    Running(order, chances, |order|)
  }

  /** The scan from the `i`-th totem on, with the running sum `acc` so far. */
  function ChosenFrom(order: seq<Totem>, chances: Chances, rand: real, i: nat, acc: int): Option<Totem>
    requires i <= |order| && Weighted(order, chances)
    decreases |order| - i
  {
    if i == |order| then None
    else
      var acc' := acc + chances[order[i]][WOLF_SHAMAN];
      if rand <= acc' as real then Some(order[i]) else ChosenFrom(order, chances, rand, i + 1, acc')
  }

  /** The totem the cumulative scan stops at, if any. */
  function Chosen(order: seq<Totem>, chances: Chances, rand: real): Option<Totem>
    requires Weighted(order, chances)
  {
    ChosenFrom(order, chances, rand, 0, 0)
  }

  /** Some running sum reaches `rand`. */
  ghost predicate Reaches(order: seq<Totem>, chances: Chances, rand: real)
    requires Weighted(order, chances)
  {
    exists n :: 1 <= n <= |order| && rand <= Running(order, chances, n) as real
  }

  /** The `n`-th running sum is the first one that reaches `rand`. */
  ghost predicate FirstAt(order: seq<Totem>, chances: Chances, rand: real, n: nat)
    requires Weighted(order, chances)
  {
    && 1 <= n <= |order|
    && rand <= Running(order, chances, n) as real
    && forall m :: 1 <= m < n ==> rand > Running(order, chances, m) as real
  }

  /** The scan picks the first totem whose running sum reaches `rand`, and
      picks none exactly when no running sum does. */
  lemma ChosenIsFirstReaching(order: seq<Totem>, chances: Chances, rand: real)
    requires Weighted(order, chances)
    ensures Chosen(order, chances, rand).Some? <==> Reaches(order, chances, rand)
    ensures Chosen(order, chances, rand).Some? ==>
      exists n :: FirstAt(order, chances, rand, n) && order[n - 1] == Chosen(order, chances, rand).value
  {
    assert Running(order, chances, 0) == 0;
    assert Chosen(order, chances, rand) == ChosenFrom(order, chances, rand, 0, Running(order, chances, 0));
    ChosenFromFirst(order, chances, rand, 0);
  }

  lemma {:induction false} ChosenFromFirst(order: seq<Totem>, chances: Chances, rand: real, i: nat)
    requires i <= |order| && Weighted(order, chances)
    requires forall m :: 1 <= m <= i ==> rand > Running(order, chances, m) as real
    ensures ChosenFrom(order, chances, rand, i, Running(order, chances, i)).Some? <==> Reaches(order, chances, rand)
    ensures ChosenFrom(order, chances, rand, i, Running(order, chances, i)).Some? ==>
      exists n :: FirstAt(order, chances, rand, n)
        && order[n - 1] == ChosenFrom(order, chances, rand, i, Running(order, chances, i)).value
    decreases |order| - i
  {
    var c := ChosenFrom(order, chances, rand, i, Running(order, chances, i));
    if i == |order| {
      assert c.None?;
      assert !Reaches(order, chances, rand);
    } else {
      var next := Running(order, chances, i + 1);
      assert next == Running(order, chances, i) + chances[order[i]][WOLF_SHAMAN];
      if rand <= next as real {
        assert c == Some(order[i]);
        assert FirstAt(order, chances, rand, i + 1) && order[(i + 1) - 1] == order[i];
      } else {
        assert c == ChosenFrom(order, chances, rand, i + 1, next);
        ChosenFromFirst(order, chances, rand, i + 1);
      }
    }
  }

  /** With non-negative weights every running sum lies between 0 and `max_totems`. */
  lemma {:induction false} RunningBounded(order: seq<Totem>, chances: Chances, n: nat)
    requires n <= |order| && Weighted(order, chances)
    requires forall k :: 0 <= k < |order| ==> chances[order[k]][WOLF_SHAMAN] >= 0
    ensures 0 <= Running(order, chances, n) <= MaxTotems(order, chances)
    decreases |order| - n
  {
    RunningNonNegative(order, chances, n);
    if n < |order| {
      RunningBounded(order, chances, n + 1);
      assert Running(order, chances, n + 1) == Running(order, chances, n) + chances[order[n]][WOLF_SHAMAN];
    }
  }

  lemma {:induction false} RunningNonNegative(order: seq<Totem>, chances: Chances, n: nat)
    requires n <= |order| && Weighted(order, chances)
    requires forall k :: 0 <= k < |order| ==> chances[order[k]][WOLF_SHAMAN] >= 0
    ensures Running(order, chances, n) >= 0
  {
    if n > 0 {
      RunningNonNegative(order, chances, n - 1);
    }
  }

  /** With non-negative weights (such as those `set_wolf_totems` sets) and a
      non-empty table, `random.random() * max_totems` is always reached, so
      the scan always picks a totem. */
  lemma AlwaysChosen(order: seq<Totem>, chances: Chances, u: real)
    requires Weighted(order, chances) && |order| > 0
    requires forall k :: 0 <= k < |order| ==> chances[order[k]][WOLF_SHAMAN] >= 0
    requires 0.0 <= u < 1.0
    ensures Chosen(order, chances, u * (MaxTotems(order, chances) as real)).Some?
  {
    RunningNonNegative(order, chances, |order|);
    var top := MaxTotems(order, chances) as real;
    DrawBelow(u, top);
    ChosenUpToMax(order, chances, u * top);
  }

  /** A draw no larger than `max_totems` is reached by the last running sum. */
  lemma ChosenUpToMax(order: seq<Totem>, chances: Chances, rand: real)
    requires Weighted(order, chances) && |order| > 0
    requires rand <= MaxTotems(order, chances) as real
    ensures Chosen(order, chances, rand).Some?
  {
    assert 1 <= |order| && rand <= Running(order, chances, |order|) as real;
    assert Reaches(order, chances, rand);
    ChosenIsFirstReaching(order, chances, rand);
  }

  /** `random.random() * m` never exceeds a non-negative `m`. */
  lemma DrawBelow(u: real, m: real)
    requires 0.0 <= u < 1.0 && m >= 0.0
    ensures u * m <= m
  {
    assert m - u * m == (1.0 - u) * m;
  }

  /** The totem a living shaman draws with its own `random.random()` value `draw(s)`. */
  function PickFor(order: seq<Totem>, chances: Chances, draw: Player -> real, s: Player): Option<Totem>
    requires Weighted(order, chances)
  {
    Chosen(order, chances, draw(s) * (MaxTotems(order, chances) as real))
  }

  /** `sum(x["wolf shaman"] for x in chances.values())`, which raises a KeyError
      on a totem without a wolf-shaman weight. */
  method SumWeights(order: seq<Totem>, chances: Chances) returns (total: Option<int>)
    requires KeyOrder(order, chances)
    ensures total.Some? <==> Weighted(order, chances)
    ensures total.Some? ==> total.value == MaxTotems(order, chances)
  {
    var sum := 0;
    var i := 0;
    while i < |order|
      invariant 0 <= i <= |order|
      invariant WeightedUpTo(order, chances, i)
      invariant sum == Running(order, chances, i)
    {
      if WOLF_SHAMAN !in chances[order[i]] {
        return None;
      }
      sum := sum + chances[order[i]][WOLF_SHAMAN];
      i := i + 1;
    }
    return Some(sum);
  }

  /** The cumulative scan with its running sum `target`, stopping at the first
      totem the draw reaches. */
  method PickTotem(order: seq<Totem>, chances: Chances, rand: real) returns (pick: Option<Totem>)
    requires Weighted(order, chances)
    ensures pick == Chosen(order, chances, rand)
    ensures pick.Some? <==> Reaches(order, chances, rand)
  {
    ChosenIsFirstReaching(order, chances, rand);
    var target := 0;
    var i := 0;
    while i < |order|
      invariant 0 <= i <= |order|
      invariant target == Running(order, chances, i)
      invariant Chosen(order, chances, rand) == ChosenFrom(order, chances, rand, i, target)
    {
      target := target + chances[order[i]][WOLF_SHAMAN];
      if rand <= target as real {
        return Some(order[i]);
      }
      i := i + 1;
    }
    return None;
  }

  // ---------------------------------------------------------------------
  // set_wolf_totems and the role metadata

  /** The `default_totems` listener: weight 1 for the nine wolf totems, in
      order; a totem missing from the table raises a KeyError, leaving the
      totems before it set. */
  method SetWolfTotems(chances: Chances) returns (chances': Chances, err: Option<string>)
    ensures err.None? <==> forall t :: t in WOLF_TOTEMS ==> t in chances
    ensures chances'.Keys == chances.Keys
    ensures forall t :: t in chances && t !in WOLF_TOTEMS ==> chances'[t] == chances[t]
    ensures err.None? ==> forall t :: t in WOLF_TOTEMS ==> chances'[t] == chances[t][WOLF_SHAMAN := 1]
    ensures err.Some? ==>
      exists i :: && 0 <= i < |WOLF_TOTEMS| && WOLF_TOTEMS[i] !in chances
                  && (forall k :: 0 <= k < i ==> WOLF_TOTEMS[k] in chances)
                  && (forall t :: t in chances ==>
                        chances'[t] == if t in WOLF_TOTEMS[..i] then chances[t][WOLF_SHAMAN := 1] else chances[t])
  {
    chances' := chances;
    var i := 0;
    while i < |WOLF_TOTEMS|
      invariant 0 <= i <= |WOLF_TOTEMS|
      invariant forall k :: 0 <= k < i ==> WOLF_TOTEMS[k] in chances
      invariant chances'.Keys == chances.Keys
      invariant forall t :: t in chances ==>
        chances'[t] == if t in WOLF_TOTEMS[..i] then chances[t][WOLF_SHAMAN := 1] else chances[t]
    {
      var t := WOLF_TOTEMS[i];
      if t !in chances' {
        return chances', Some("KeyError: " + t);
      }
      chances' := chances'[t := chances'[t][WOLF_SHAMAN := 1]];
      assert WOLF_TOTEMS[..i + 1] == WOLF_TOTEMS[..i] + [t];
      i := i + 1;
    }
    assert WOLF_TOTEMS[..i] == WOLF_TOTEMS;
    err := None;
  }

  /** The categories the wolf shaman files for "role_categories"; every other entry is kept. */
  function OnGetRoleMetadata(data: MetaData, kind: string): (data': MetaData)
    ensures kind == ROLE_CATEGORIES ==>
      WOLF_SHAMAN in data' && data'[WOLF_SHAMAN] == Categories({"Wolf", "Wolfchat", "Wolfteam", "Killer", "Nocturnal"})
    ensures data'.Keys == data.Keys + (if kind == ROLE_CATEGORIES then {WOLF_SHAMAN} else {})
    ensures forall r :: r in data && (r != WOLF_SHAMAN || kind != ROLE_CATEGORIES) ==> data'[r] == data[r]
  {
    if kind == ROLE_CATEGORIES then data[WOLF_SHAMAN := Categories({"Wolf", "Wolfchat", "Wolfteam", "Killer", "Nocturnal"})]
    else data
  }

  // ---------------------------------------------------------------------
  // The module state

  /** `TOTEMS`, `LASTGIVEN` and `SHAMANS` of the wolf shamans. `SHAMANS` holds,
      for a shaman that gave its totem tonight, what `give_totem` returned. */
  class Shamans {
    var totems: map<Player, Totem>
    var lastGiven: map<Player, Option<Player>>
    var shamans: map<Player, Player>

    constructor()
      ensures totems == map[] && lastGiven == map[] && shamans == map[]
    {
      totems, lastGiven, shamans := map[], map[], map[];
    }

    /** The `give` command: `target` is what `get_totem_target` resolved and
        `give` stands for `give_totem`. The message argument reads the
        shaman's own totem first, so a shaman without one raises a KeyError
        before anything is recorded. */
    method Give(source: Player, target: Option<Player>, give: (Player, Player) -> Player)
      returns (err: Option<string>)
      modifies this`shamans
      ensures err.Some? <==> target.Some? && source !in totems
      ensures shamans == if target.Some? && err.None? then old(shamans)[source := give(source, target.value)] else old(shamans)
    {
      if target.None? {
        return None;
      }
      if source !in totems {
        return Some("KeyError: TOTEMS[shaman]");
      }
      shamans := shamans[source := give(source, target.value)];
      err := None;
    }

    /** The day-begin listener: a living shaman that has not given its totem
        gets a random candidate as recipient, unless it is silenced or has no
        candidate, in which case its last recipient is cleared. Reading the
        totem of a shaman that would give but has none raises a KeyError,
        leaving the shamans already handled as they are. */
    method OnTransitionDayBegin(pl: seq<Player>, living: set<Player>, silenced: set<Player>,
                                give: (Player, Player) -> Player)
      returns (err: Option<string>)
      modifies this`shamans, this`lastGiven
      ensures err.None? <==>
        forall s :: s in living && s !in old(shamans) && s !in silenced && Candidates(pl, old(lastGiven), s) != [] ==>
          s in totems
      ensures forall s :: s in old(shamans) ==> s in shamans && shamans[s] == old(shamans)[s]
      ensures forall s :: s in shamans && s !in old(shamans) ==>
        s in living && s !in silenced && exists t :: t in Candidates(pl, old(lastGiven), s) && shamans[s] == give(s, t)
      ensures err.None? ==>
        forall s :: s in living && s !in old(shamans) && s !in silenced && Candidates(pl, old(lastGiven), s) != [] ==>
          s in shamans
      ensures err.None? ==>
        lastGiven.Keys == old(lastGiven).Keys + Muted(living, silenced, pl, old(shamans), old(lastGiven))
      ensures err.None? ==> forall s :: s in lastGiven ==>
        lastGiven[s] == if s in Muted(living, silenced, pl, old(shamans), old(lastGiven)) then None else old(lastGiven)[s]
      ensures err.Some? ==>
        lastGiven.Keys <= old(lastGiven).Keys + Muted(living, silenced, pl, old(shamans), old(lastGiven))
      ensures err.Some? ==> forall s :: s in lastGiven ==>
        (s in Muted(living, silenced, pl, old(shamans), old(lastGiven)) && lastGiven[s] == None) ||
        (s in old(lastGiven) && lastGiven[s] == old(lastGiven)[s])
    {
      ghost var shamans0, lastGiven0 := shamans, lastGiven;
      var todo := living;
      while todo != {}
        invariant todo <= living
        invariant DayInv(pl, living - todo, todo, silenced, give, shamans0, lastGiven0, shamans, lastGiven)
        invariant forall x :: x in living - todo && x !in shamans0 && x !in silenced && Candidates(pl, lastGiven0, x) != [] ==>
          x in totems
        decreases todo
      {
        var s :| s in todo;
        ghost var done := living - todo;
        DayCandidates(pl, done, todo, silenced, give, shamans0, lastGiven0, shamans, lastGiven, s);
        var shamans', lastGiven' := shamans, lastGiven;
        if s !in shamans && s !in silenced {
          var ps := Candidates(pl, lastGiven, s);
          if ps != [] {
            assert ps[0] in ps;
            var target :| target in ps;
            if s !in totems {
              MutedWithin(done, living, silenced, pl, shamans0, lastGiven0);
              return Some("KeyError: TOTEMS[shaman]");
            }
            shamans' := shamans[s := give(s, target)];
          } else {
            lastGiven' := lastGiven[s := None];
          }
        } else if s !in shamans {
          lastGiven' := lastGiven[s := None];
        }
        DayStep(pl, done, todo, silenced, give, shamans0, lastGiven0, shamans, lastGiven, s, shamans', lastGiven');
        shamans, lastGiven := shamans', lastGiven';
        todo := todo - {s};
        assert living - todo == done + {s};
      }
      assert living - todo == living;
      err := None;
    }

    /** The night-end listener: `LASTGIVEN` keeps only living shamans and every
        living shaman draws a totem with its own `random.random()` value `draw(s)`;
        reading the totem of a shaman that drew none and had none raises a KeyError. */
    method OnTransitionNightEnd(living: set<Player>, order: seq<Totem>, chances: Chances, draw: Player -> real)
      returns (err: Option<string>)
      requires KeyOrder(order, chances)
      modifies this`lastGiven, this`totems
      ensures !Weighted(order, chances) ==> err.Some? && lastGiven == old(lastGiven) && totems == old(totems)
      ensures Weighted(order, chances) ==> lastGiven == Restrict(old(lastGiven), living)
      ensures Weighted(order, chances) ==>
        (err.None? <==> forall s :: s in living ==> s in old(totems) || PickFor(order, chances, draw, s).Some?)
      ensures old(totems).Keys <= totems.Keys
      ensures Weighted(order, chances) ==> forall s :: s in totems ==>
        (s in old(totems) && totems[s] == old(totems)[s]) || (s in living && PickFor(order, chances, draw, s) == Some(totems[s]))
      ensures Weighted(order, chances) && err.None? ==>
        totems.Keys == old(totems).Keys + living &&
        forall s :: s in totems ==>
          totems[s] == if s in living && PickFor(order, chances, draw, s).Some?
                       then PickFor(order, chances, draw, s).value else old(totems)[s]
    {
      var maxTotems := SumWeights(order, chances);
      if maxTotems.None? {
        return Some("KeyError: wolf shaman");
      }
      PruneLastGiven(living);
      ghost var totems0 := totems;
      var todo := living;
      while todo != {}
        invariant todo <= living
        invariant lastGiven == Restrict(old(lastGiven), living)
        invariant NightInv(order, chances, draw, living - todo, totems0, totems)
        decreases todo
      {
        var s :| s in todo;
        ghost var done := living - todo;
        var rand := draw(s) * (maxTotems.value as real);
        var pick := PickTotem(order, chances, rand);
        assert maxTotems.value == MaxTotems(order, chances);
        assert rand == draw(s) * (MaxTotems(order, chances) as real);
        assert pick == PickFor(order, chances, draw, s);
        var totems' := if pick.Some? then totems[s := pick.value] else totems;
        NightStep(order, chances, draw, done, totems0, totems, s, totems');
        totems := totems';
        if s !in totems {
          NightCrash(order, chances, draw, living, totems0, s);
          return Some("KeyError: TOTEMS[shaman]");
        }
        todo := todo - {s};
        assert living - todo == done + {s};
      }
      assert living - todo == living;
      err := None;
    }

    /** `for s in list(LASTGIVEN): if s not in shamans: del LASTGIVEN[s]` */
    method PruneLastGiven(living: set<Player>)
      modifies this`lastGiven
      ensures lastGiven == Restrict(old(lastGiven), living)
    {
      var todo := lastGiven.Keys;
      while todo != {}
        invariant todo <= old(lastGiven).Keys
        invariant lastGiven == map s | s in old(lastGiven) && (s in todo || s in living) :: old(lastGiven)[s]
        decreases todo
      {
        var s :| s in todo;
        todo := todo - {s};
        if s !in living {
          lastGiven := lastGiven - {s};
        }
      }
    }
  }

  /** The entries of `m` whose key is in `keys`. */
  function Restrict<V>(m: map<Player, V>, keys: set<Player>): (r: map<Player, V>)
    ensures r.Keys == m.Keys * keys
    ensures forall s :: s in r ==> r[s] == m[s]
  {
    map s | s in m && s in keys :: m[s]
  }

  /** What the day-begin pass has done once the shamans in `done` are processed. */
  ghost predicate DayInv(pl: seq<Player>, done: set<Player>, todo: set<Player>, silenced: set<Player>,
                         give: (Player, Player) -> Player,
                         shamans0: map<Player, Player>, lastGiven0: map<Player, Option<Player>>,
                         shamans: map<Player, Player>, lastGiven: map<Player, Option<Player>>) {
    && done !! todo
    && (forall s :: s in shamans0 ==> s in shamans && shamans[s] == shamans0[s])
    && (forall s :: s in shamans && s !in shamans0 ==>
          s in done && s !in silenced && exists t :: t in Candidates(pl, lastGiven0, s) && shamans[s] == give(s, t))
    && (forall s :: s in done && s !in shamans0 && s !in silenced && Candidates(pl, lastGiven0, s) != [] ==> s in shamans)
    && lastGiven.Keys == lastGiven0.Keys + Muted(done, silenced, pl, shamans0, lastGiven0)
    && (forall s :: s in lastGiven ==>
          lastGiven[s] == if s in Muted(done, silenced, pl, shamans0, lastGiven0) then None else lastGiven0[s])
  }

  /** A shaman not handled yet still has its old `SHAMANS` entry and its old candidates. */
  lemma DayCandidates(pl: seq<Player>, done: set<Player>, todo: set<Player>, silenced: set<Player>,
                      give: (Player, Player) -> Player,
                      shamans0: map<Player, Player>, lastGiven0: map<Player, Option<Player>>,
                      shamans: map<Player, Player>, lastGiven: map<Player, Option<Player>>, s: Player)
    requires DayInv(pl, done, todo, silenced, give, shamans0, lastGiven0, shamans, lastGiven) && s in todo
    ensures s in shamans <==> s in shamans0
    ensures Candidates(pl, lastGiven, s) == Candidates(pl, lastGiven0, s)
  {
    assert s !in done;
    assert s !in Muted(done, silenced, pl, shamans0, lastGiven0);
    assert s in lastGiven <==> s in lastGiven0;
  }

  /** The shamans muted among part of the living are muted among all of them. */
  lemma MutedWithin(done: set<Player>, living: set<Player>, silenced: set<Player>, pl: seq<Player>,
                    shamans: map<Player, Player>, lastGiven: map<Player, Option<Player>>)
    requires done <= living
    ensures Muted(done, silenced, pl, shamans, lastGiven) <= Muted(living, silenced, pl, shamans, lastGiven)
  {
  }

  /** Processing one more shaman keeps `DayInv`. */
  lemma DayStep(pl: seq<Player>, done: set<Player>, todo: set<Player>, silenced: set<Player>,
                give: (Player, Player) -> Player,
                shamans0: map<Player, Player>, lastGiven0: map<Player, Option<Player>>,
                shamans: map<Player, Player>, lastGiven: map<Player, Option<Player>>,
                s: Player, shamans': map<Player, Player>, lastGiven': map<Player, Option<Player>>)
    requires DayInv(pl, done, todo, silenced, give, shamans0, lastGiven0, shamans, lastGiven) && s in todo
    requires s !in shamans && s !in silenced && Candidates(pl, lastGiven, s) != [] ==>
      lastGiven' == lastGiven && exists t :: t in Candidates(pl, lastGiven, s) && shamans' == shamans[s := give(s, t)]
    requires s !in shamans && (s in silenced || Candidates(pl, lastGiven, s) == []) ==>
      shamans' == shamans && lastGiven' == lastGiven[s := None]
    requires s in shamans ==> shamans' == shamans && lastGiven' == lastGiven
    ensures DayInv(pl, done + {s}, todo - {s}, silenced, give, shamans0, lastGiven0, shamans', lastGiven')
  {
    assert s !in done;
    assert s in shamans <==> s in shamans0;
    assert Candidates(pl, lastGiven, s) == Candidates(pl, lastGiven0, s) by {
      assert s !in Muted(done, silenced, pl, shamans0, lastGiven0);
      assert s in lastGiven <==> s in lastGiven0;
    }
    var muted, muted' := Muted(done, silenced, pl, shamans0, lastGiven0), Muted(done + {s}, silenced, pl, shamans0, lastGiven0);
    assert muted' == muted + (if s in muted' then {s} else {});
  }

  /** What the night-end pass has done once the shamans in `done` drew. */
  ghost predicate NightInv(order: seq<Totem>, chances: Chances, draw: Player -> real, done: set<Player>,
                           totems0: map<Player, Totem>, totems: map<Player, Totem>)
    requires Weighted(order, chances)
  {
    && (forall s :: s in done ==> s in totems0 || PickFor(order, chances, draw, s).Some?)
    && totems.Keys == totems0.Keys + done
    && forall s :: s in totems ==>
         totems[s] == if s in done && PickFor(order, chances, draw, s).Some?
                      then PickFor(order, chances, draw, s).value else totems0[s]
  }

  /** One more shaman drew `PickFor` and kept its totem. */
  lemma NightStep(order: seq<Totem>, chances: Chances, draw: Player -> real, done: set<Player>,
                  totems0: map<Player, Totem>, totems: map<Player, Totem>, s: Player, totems': map<Player, Totem>)
    requires Weighted(order, chances) && NightInv(order, chances, draw, done, totems0, totems) && s !in done
    requires totems' == if PickFor(order, chances, draw, s).Some? then totems[s := PickFor(order, chances, draw, s).value] else totems
    ensures s in totems' ==> NightInv(order, chances, draw, done + {s}, totems0, totems')
    ensures s !in totems' <==> s !in totems0 && PickFor(order, chances, draw, s).None?
  {
  }

  /** A crash on `s` names a living shaman that drew nothing and had no totem. */
  lemma NightCrash(order: seq<Totem>, chances: Chances, draw: Player -> real, living: set<Player>,
                   totems0: map<Player, Totem>, s: Player)
    requires Weighted(order, chances) && s in living && s !in totems0 && PickFor(order, chances, draw, s).None?
    ensures !forall p :: p in living ==> p in totems0 || PickFor(order, chances, draw, p).Some?
  {
  }
}
