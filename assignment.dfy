/** Seating the main roles (`start`, from clearing `var.ROLES` to the
    default-role fill): forced players first, then a random sample of the
    unforced players for every primary role, secondary roles reserved as
    placeholders, and everyone left over given the default role. Also the
    custom-settings sanity check that runs just before. */
module Assignment {
  import opened Common
  import opened RoleGuide
  import opened Rolesets

  /** What `var.ROLES[role]` holds: a set of players, or the `(None,) * count`
      tuple that reserves a secondary role until it is seated. */
  datatype Holders = Users(players: set<Player>) | Placeholders(count: nat)

  /** The inputs of role seating, fixed while it runs. */
  datatype Setup = Setup(
    add: Counter,                    // addroles after alias expansion
    forced: map<Role, set<Player>>,  // FORCE_ROLES
    secondary: set<Role>,            // the keys of the gamemode's SECONDARY_ROLES
    all: set<Role>,                  // the role catalogue `All`
    def: Role,                       // DEFAULT_ROLE
    roster: set<Player>)             // the players of the game

  /** What seating updates: `var.ROLES`, `var.MAIN_ROLES`,
      `var.ORIGINAL_MAIN_ROLES` and the players not seated yet. */
  datatype Seating = Seating(
    roles: map<Role, Holders>,
    main: map<Player, Role>,
    orig: map<Player, Role>,
    vils: set<Player>)

  /** `FORCE_ROLES.get(r, ())`. */
  function ForcedOf(forced: map<Role, set<Player>>, r: Role): (ps: set<Player>)
    ensures |ps| == ForcedCount(forced, r)
    ensures r !in forced ==> ps == {}
  {
    if r in forced then forced[r] else {}
  }

  // ---------------------------------------------------------------------
  // The custom-settings check

  /** The three reasons custom settings are reset before any role is seated,
      tested in this order. `wolfchat` is the `Wolfchat` category;
      `wvs > len(villagers) / 2` is a float comparison, so it is `2 * wvs > n`. */
  ghost function CustomVerdictOf(add: Counter, n: int, wolfchat: set<Role>,
                                 secondary: set<Role>, mode: Mode): Option<StartError>
  {
    var wvs := SumOver(add, wolfchat);
    if n < SumOver(add, add.Keys) - SumOver(add, secondary) then Some(TooFewPlayersCustom)
    else if wvs == 0 && mode != "villagergame" then Some(NeedOneWolf)
    else if 2 * wvs > n then Some(TooManyWolves)
    else None
  }

  /** The check as the code computes it, three sums over the Counter. */
  method CustomVerdict(add: Counter, n: int, wolfchat: set<Role>,
                       secondary: set<Role>, mode: Mode) returns (v: Option<StartError>)
    ensures v == CustomVerdictOf(add, n, wolfchat, secondary, mode)
    ensures v == Some(TooFewPlayersCustom) <==> PrimaryTotal(add, secondary) > n
    ensures v == None ==> PrimaryTotal(add, secondary) <= n
    ensures v == None ==> 2 * SumOver(add, wolfchat) <= n
    ensures v == None && mode != "villagergame" ==> SumOver(add, wolfchat) != 0
  {
    var wvs := SumCounts(add, wolfchat);
    var total := SumCounts(add, add.Keys);
    var sec := SumCounts(add, secondary);
    PrimaryTotalIsDifference(add, secondary);
    if n < total - sec {
      v := Some(TooFewPlayersCustom);
    } else if wvs == 0 && mode != "villagergame" {
      v := Some(NeedOneWolf);
    } else if 2 * wvs > n {
      v := Some(TooManyWolves);
    } else {
      v := None;
    }
  }

  /** Subtracting the secondary sum from the total is the same as summing the
      primary roles only, so the custom check agrees with the population check. */
  lemma PrimaryTotalIsDifference(add: Counter, secondary: set<Role>)
    ensures SumOver(add, add.Keys) - SumOver(add, secondary) == PrimaryTotal(add, secondary)
  {
    var inside := add.Keys * secondary;
    var outside := secondary - add.Keys;
    assert add.Keys == (add.Keys - secondary) + inside;
    SumOverSplit(add, add.Keys - secondary, inside);
    assert secondary == inside + outside;
    SumOverSplit(add, inside, outside);
    SumOverZeroKeys(add, {}, outside);
    assert {} + outside == outside;
    SumOverZeroKeys(add, {}, {});
  }

  // ---------------------------------------------------------------------
  // Building blocks of seating

  /** Some primary entry of `FORCE_ROLES` names `p`, whether or not the role is played. */
  ghost predicate Pinned(s: Setup, p: Player) {
    exists r :: r in s.forced && r !in s.secondary && p in s.forced[r]
  }

  /** The players left to draw from once forced players are taken out. */
  ghost function Pool(s: Setup): set<Player> {
    set p | p in s.roster && !Pinned(s, p)
  }

  /** `vils.difference_update(ps)` for every primary `FORCE_ROLES` entry. */
  method RemoveForced(s: Setup) returns (vils: set<Player>)
    ensures vils == Pool(s)
  {
    vils := s.roster;
    var todo := s.forced.Keys;
    while todo != {}
      invariant todo <= s.forced.Keys
      invariant forall p :: p in vils <==>
        p in s.roster && !exists r :: r in s.forced && r !in s.secondary && r !in todo && p in s.forced[r]
      decreases todo
    {
      var role :| role in todo;
      todo := todo - {role};
      if role !in s.secondary {
        vils := vils - s.forced[role];
      }
    }
  }

  /** A finite set has a subset of every size up to its own. */
  lemma {:induction false} SubsetOfSize<T>(s: set<T>, k: nat)
    requires k <= |s|
    ensures exists t :: t <= s && |t| == k
    decreases k
  {
    if k == 0 {
      var e: set<T> := {};
      assert e <= s && |e| == 0;
    } else {
      var x :| x in s;
      SubsetOfSize(s - {x}, k - 1);
      var t :| t <= s - {x} && |t| == k - 1;
      assert t + {x} <= s && |t + {x}| == k;
    }
  }

  /** `random.sample(vils, count)`: a uniformly chosen subset of the given
      size; a negative or too large size raises ValueError. */
  method SampleSet(pop: set<Player>, k: int) returns (r: Result<set<Player>>)
    ensures r.Err? <==> k < 0 || k > |pop|
    ensures r.Err? ==> r.error.Crash?
    ensures r.Ok? ==> r.value <= pop && |r.value| == k
  {
    if k < 0 || k > |pop| {
      return Err(Crash("ValueError: sample larger than population or is negative"));
    }
    SubsetOfSize(pop, k);
    var t :| t <= pop && |t| == k;
    r := Ok(t);
  }

  /** The forced players of a role: MAIN_ROLES only for those without a main
      role yet (the first forced role wins), ORIGINAL_MAIN_ROLES always. */
  method SeatForced(main: map<Player, Role>, orig: map<Player, Role>, users: set<Player>, role: Role)
    returns (main': map<Player, Role>, orig': map<Player, Role>)
    ensures main'.Keys == main.Keys + users
    ensures forall p :: p in main' ==> main'[p] == if p in main then main[p] else role
    ensures orig'.Keys == orig.Keys + users
    ensures forall p :: p in orig' ==> orig'[p] == if p in users then role else orig[p]
  {
    main', orig' := main, orig;
    var todo := users;
    while todo != {}
      invariant todo <= users
      invariant main'.Keys == main.Keys + (users - todo)
      invariant forall p :: p in main' ==> main'[p] == if p in main then main[p] else role
      invariant orig'.Keys == orig.Keys + (users - todo)
      invariant forall p :: p in orig' ==> orig'[p] == if p in users - todo then role else orig[p]
      decreases todo
    {
      var user :| user in todo;
      todo := todo - {user};
      if user !in main' {
        main' := main'[user := role];
      }
      orig' := orig'[user := role];
    }
  }

  /** `MAIN_ROLES[x] = ORIGINAL_MAIN_ROLES[x] = role` for every player of `xs`. */
  method Label(main: map<Player, Role>, orig: map<Player, Role>, xs: set<Player>, role: Role)
    returns (main': map<Player, Role>, orig': map<Player, Role>)
    ensures main'.Keys == main.Keys + xs
    ensures forall p :: p in main' ==> main'[p] == if p in xs then role else main[p]
    ensures orig'.Keys == orig.Keys + xs
    ensures forall p :: p in orig' ==> orig'[p] == if p in xs then role else orig[p]
  {
    main', orig' := main, orig;
    var todo := xs;
    while todo != {}
      invariant todo <= xs
      invariant main'.Keys == main.Keys + (xs - todo)
      invariant forall p :: p in main' ==> main'[p] == if p in xs - todo then role else main[p]
      invariant orig'.Keys == orig.Keys + (xs - todo)
      invariant forall p :: p in orig' ==> orig'[p] == if p in xs - todo then role else orig[p]
      decreases todo
    {
      var x :| x in todo;
      todo := todo - {x};
      main' := main'[x := role];
      orig' := orig'[x := role];
    }
  }

  // ---------------------------------------------------------------------
  // The seating loop over `addroles.items()`, in any order

  /** A role of `addroles` seated in the loop (not a secondary role). */
  ghost predicate Primary(s: Setup, r: Role) {
    r in s.add && r !in s.secondary
  }

  /** `p` is forced into the primary role `r`. */
  ghost predicate ForcedInto(s: Setup, p: Player, r: Role) {
    Primary(s, r) && p in ForcedOf(s.forced, r)
  }

  /** How many players are drawn for every primary role. */
  ghost function Need(s: Setup): Counter {
    map r | r in s.add && r !in s.secondary :: s.add[r] - ForcedCount(s.forced, r)
  }

  /** `p` was drawn for `r`. */
  ghost predicate Drawn(sampled: map<Role, set<Player>>, r: Role, p: Player) {
    r in sampled && p in sampled[r]
  }

  /** `p` has not been drawn for any role yet. */
  ghost predicate Free(sampled: map<Role, set<Player>>, p: Player) {
    forall r :: !Drawn(sampled, r, p)
  }

  ghost function Lookup(m: map<Role, set<Player>>, r: Role): set<Player> {
    if r in m then m[r] else {}
  }

  /** The holders of `r` once the roles outside `todo` are done (before the default fill). */
  ghost function Expected(s: Setup, todo: set<Role>, sampled: map<Role, set<Player>>, r: Role): Holders {
    if r in s.add && r !in todo then
      if r in s.secondary then Placeholders(Max(s.add[r], 0))
      else Users(ForcedOf(s.forced, r) + Lookup(sampled, r))
    else Users({})
  }

  /** The start state of `var.ROLES`: an empty set for every catalogue role and the default. */
  function Fresh(all: set<Role>, def: Role): (roles: map<Role, Holders>)
    ensures roles.Keys == all + {def}
    ensures forall r :: r in roles ==> roles[r] == Users({})
  {
    map r | r in all + {def} :: Users({})
  }

  ghost predicate RolesInv(s: Setup, todo: set<Role>, sampled: map<Role, set<Player>>, roles: map<Role, Holders>) {
    && roles.Keys == s.all + {s.def} + (set r | r in s.add && r in s.secondary && r !in todo)
    && forall r :: r in roles ==> roles[r] == Expected(s, todo, sampled, r)
  }

  /** The draws so far: exactly the primary roles done, each of its needed
      size, from the pool, into a catalogue role, and no player drawn twice. */
  ghost predicate SampledInv(s: Setup, todo: set<Role>, sampled: map<Role, set<Player>>) {
    && sampled.Keys == (set r | r in s.add && r !in s.secondary && r !in todo)
    && (forall r :: r in sampled ==> |sampled[r]| == Need(s)[r] && r in s.all + {s.def})
    && DrawnFromPool(s, sampled)
    && Disjoint(sampled)
  }

  /** No player is drawn for two roles. */
  ghost predicate Disjoint(sampled: map<Role, set<Player>>) {
    forall r1, r2 :: r1 in sampled && r2 in sampled && r1 != r2 ==> sampled[r1] !! sampled[r2]
  }

  ghost predicate DrawnFromPool(s: Setup, sampled: map<Role, set<Player>>) {
    DrawnFrom(Pool(s), sampled)
  }

  /** Every drawn player comes from `pool`. */
  ghost predicate DrawnFrom(pool: set<Player>, sampled: map<Role, set<Player>>) {
    forall r, x :: Drawn(sampled, r, x) ==> x in pool
  }

  /** The players not seated yet are the undrawn players of the pool. */
  ghost predicate VilsInv(s: Setup, sampled: map<Role, set<Player>>, vils: set<Player>) {
    && vils == (set p | p in Pool(s) && Free(sampled, p))
    && |vils| == |Pool(s)| - SumOver(Need(s), sampled.Keys)
  }

  /** Drawn players have the role they were drawn for. */
  ghost predicate DrawnSeated(sampled: map<Role, set<Player>>, main: map<Player, Role>, orig: map<Player, Role>) {
    forall r, x :: Drawn(sampled, r, x) ==> SeatedAs(x, r, main, orig)
  }

  /** `x` has `r` as main role and as original main role. */
  ghost predicate SeatedAs(x: Player, r: Role, main: map<Player, Role>, orig: map<Player, Role>) {
    x in main && main[x] == r && x in orig && orig[x] == r
  }

  /** `p` may hold `r`: it was drawn for it or forced into it. */
  ghost predicate Justified(s: Setup, sampled: map<Role, set<Player>>, p: Player, r: Role) {
    Drawn(sampled, r, p) || ForcedInto(s, p, r)
  }

  /** `u` is forced into the primary role `r`, which is done. */
  ghost predicate ForcedDone(s: Setup, todo: set<Role>, r: Role, u: Player) {
    Primary(s, r) && r !in todo && u in ForcedOf(s.forced, r)
  }

  /** `u` has one of its forced roles, as main role and as original main role. */
  ghost predicate SeatedAsForced(s: Setup, u: Player, main: map<Player, Role>, orig: map<Player, Role>) {
    u in main && ForcedInto(s, u, main[u]) && u in orig && ForcedInto(s, u, orig[u])
  }

  /** Forced players of the roles done have one of their forced roles. */
  ghost predicate ForcedSeated(s: Setup, todo: set<Role>, main: map<Player, Role>, orig: map<Player, Role>) {
    forall r, u :: ForcedDone(s, todo, r, u) ==> SeatedAsForced(s, u, main, orig)
  }

  /** Nobody else has a main role, and `ORIGINAL_MAIN_ROLES` is untouched
      for everyone without one. */
  ghost predicate OnlySeated(s: Setup, sampled: map<Role, set<Player>>, main: map<Player, Role>,
                             orig: map<Player, Role>, orig0: map<Player, Role>) {
    && AllJustified(s, sampled, main, orig)
    && orig0.Keys <= orig.Keys
    && (forall p :: p in orig && p !in main ==> p in orig0 && orig[p] == orig0[p])
  }

  ghost predicate AllJustified(s: Setup, sampled: map<Role, set<Player>>, main: map<Player, Role>, orig: map<Player, Role>) {
    && main.Keys <= orig.Keys
    && (forall p :: p in main ==> Justified(s, sampled, p, main[p]) && Justified(s, sampled, p, orig[p]))
  }

  ghost predicate SeatInv(s: Setup, todo: set<Role>, sampled: map<Role, set<Player>>,
                          st: Seating, orig0: map<Player, Role>) {
    && todo <= s.add.Keys
    && RolesInv(s, todo, sampled, st.roles)
    && SampledInv(s, todo, sampled)
    && VilsInv(s, sampled, st.vils)
    && DrawnSeated(sampled, st.main, st.orig)
    && ForcedSeated(s, todo, st.main, st.orig)
    && OnlySeated(s, sampled, st.main, st.orig, orig0)
  }

  /** Seating cannot complete: a primary role with more forced players than
      its count (or a negative count), a primary role outside the catalogue,
      a secondary default role, or more draws needed than the pool holds. */
  ghost predicate Blocked(s: Setup) {
    || (exists r :: Primary(s, r) && (ForcedCount(s.forced, r) > s.add[r] || r !in s.all + {s.def}))
    || (s.def in s.add && s.def in s.secondary)
    || SumOver(Need(s), s.add.Keys - s.secondary) > |Pool(s)|
  }

  lemma SeatStart(s: Setup, vils: set<Player>, orig0: map<Player, Role>)
    requires vils == Pool(s)
    ensures SeatInv(s, s.add.Keys, map[], Seating(Fresh(s.all, s.def), map[], orig0, vils), orig0)
  {
    var e: map<Role, set<Player>> := map[];
    assert (set r | r in s.add && r in s.secondary && r !in s.add.Keys) == {};
    assert (set r | r in s.add && r !in s.secondary && r !in s.add.Keys) == {};
    assert vils == (set p | p in Pool(s) && Free(e, p));
  }

  /** One primary role seated: its forced players, then the draw `sel` from
      the unseated players `vils`. */
  ghost predicate StepBasics(s: Setup, todo: set<Role>, sampled: map<Role, set<Player>>,
                             role: Role, sel: set<Player>, vils: set<Player>) {
    && role in todo && Primary(s, role) && role !in sampled
    && sel <= vils && |sel| == Need(s)[role]
  }

  ghost predicate RolesMove(s: Setup, role: Role, sel: set<Player>, roles: map<Role, Holders>, roles': map<Role, Holders>) {
    role in roles && roles' == roles[role := Users(ForcedOf(s.forced, role) + sel)]
  }

  ghost predicate MainMove(s: Setup, role: Role, sel: set<Player>, main: map<Player, Role>, orig: map<Player, Role>,
                           main': map<Player, Role>, orig': map<Player, Role>) {
    Moved(ForcedOf(s.forced, role), role, sel, main, orig, main', orig')
  }

  /** The role maps after seating `forced` and then the draw `sel` into `role`:
      a forced player keeps an earlier main role, a drawn one does not. */
  ghost predicate Moved(forced: set<Player>, role: Role, sel: set<Player>, main: map<Player, Role>, orig: map<Player, Role>,
                        main': map<Player, Role>, orig': map<Player, Role>) {
    && main'.Keys == main.Keys + forced + sel
    && (forall p :: p in main' ==> main'[p] == if p in sel then role else if p in main then main[p] else role)
    && orig'.Keys == orig.Keys + forced + sel
    && (forall p :: p in orig' ==> orig'[p] == if p in sel || p in forced then role else orig[p])
  }

  /** A player forced into a primary role is not in the pool. */
  lemma ForcedNotInPool(s: Setup, p: Player, r: Role)
    requires ForcedInto(s, p, r)
    ensures p !in Pool(s)
  {
    assert r in s.forced && r !in s.secondary && p in s.forced[r];
    assert Pinned(s, p);
  }

  lemma PrimaryKeepsRoles(s: Setup, todo: set<Role>, sampled: map<Role, set<Player>>, vils: set<Player>,
                          role: Role, sel: set<Player>, roles: map<Role, Holders>, roles': map<Role, Holders>)
    requires RolesInv(s, todo, sampled, roles)
    requires StepBasics(s, todo, sampled, role, sel, vils) && RolesMove(s, role, sel, roles, roles')
    ensures RolesInv(s, todo - {role}, sampled[role := sel], roles')
  {
    var sampled' := sampled[role := sel];
    assert (set r | r in s.add && r in s.secondary && r !in todo - {role})
        == (set r | r in s.add && r in s.secondary && r !in todo);
    forall r | r in roles'
      ensures roles'[r] == Expected(s, todo - {role}, sampled', r)
    {
      if r != role {
        assert Lookup(sampled', r) == Lookup(sampled, r);
      }
    }
  }

  lemma PrimaryKeepsSampled(s: Setup, todo: set<Role>, sampled: map<Role, set<Player>>, vils: set<Player>,
                            role: Role, sel: set<Player>)
    requires SampledInv(s, todo, sampled) && VilsInv(s, sampled, vils)
    requires StepBasics(s, todo, sampled, role, sel, vils) && role in s.all + {s.def}
    ensures SampledInv(s, todo - {role}, sampled[role := sel])
  {
    var sampled' := sampled[role := sel];
    DrawIsFree(Pool(s), sampled, vils, sel);
    KeysAfter(s.add, s.secondary, todo, sampled.Keys, role);
    assert sampled'.Keys == sampled.Keys + {role};
    SizesAfter(Need(s), s.all + {s.def}, sampled, role, sel);
    FromAfter(Pool(s), sampled, role, sel);
    DisjointAfter(sampled, role, sel);
  }

  /** A draw from the unseated players takes free players of the pool. */
  lemma DrawIsFree(pool: set<Player>, sampled: map<Role, set<Player>>, vils: set<Player>, sel: set<Player>)
    requires vils == (set p | p in pool && Free(sampled, p)) && sel <= vils
    ensures sel <= pool && forall x :: x in sel ==> Free(sampled, x)
  {
  }

  /** The roles done grow by the role just seated. */
  lemma KeysAfter(add: Counter, secondary: set<Role>, todo: set<Role>, done: set<Role>, role: Role)
    requires done == (set r | r in add && r !in secondary && r !in todo)
    requires role in todo && role in add && role !in secondary
    ensures done + {role} == (set r | r in add && r !in secondary && r !in todo - {role})
  {
  }

  /** Every draw keeps its needed size and names a catalogue role. */
  lemma SizesAfter(need: Counter, catalogue: set<Role>, sampled: map<Role, set<Player>>, role: Role, sel: set<Player>)
    requires forall r :: r in sampled ==> r in need && |sampled[r]| == need[r] && r in catalogue
    requires role in need && |sel| == need[role] && role in catalogue
    ensures forall r :: r in sampled[role := sel] ==> r in need && |sampled[role := sel][r]| == need[r] && r in catalogue
  {
  }

  /** A draw from the pool keeps every drawn player in the pool. */
  lemma FromAfter(pool: set<Player>, sampled: map<Role, set<Player>>, role: Role, sel: set<Player>)
    requires DrawnFrom(pool, sampled) && sel <= pool
    ensures DrawnFrom(pool, sampled[role := sel])
  {
    var sampled' := sampled[role := sel];
    forall r, x | Drawn(sampled', r, x) ensures x in pool {
      if r != role { assert Drawn(sampled, r, x); }
    }
  }

  /** A draw of free players for a new role keeps the draws disjoint. */
  lemma DisjointAfter(sampled: map<Role, set<Player>>, role: Role, sel: set<Player>)
    requires Disjoint(sampled) && role !in sampled && forall x :: x in sel ==> Free(sampled, x)
    ensures Disjoint(sampled[role := sel])
  {
    var sampled' := sampled[role := sel];
    forall r1, r2 | r1 in sampled' && r2 in sampled' && r1 != r2
      ensures sampled'[r1] !! sampled'[r2]
    {
      if r1 == role {
        forall x | x in sel ensures x !in sampled[r2] { assert !Drawn(sampled, r2, x); }
      } else if r2 == role {
        forall x | x in sel ensures x !in sampled[r1] { assert !Drawn(sampled, r1, x); }
      }
    }
  }

  lemma PrimaryKeepsVils(s: Setup, todo: set<Role>, sampled: map<Role, set<Player>>, vils: set<Player>,
                         role: Role, sel: set<Player>)
    requires VilsInv(s, sampled, vils)
    requires StepBasics(s, todo, sampled, role, sel, vils)
    ensures VilsInv(s, sampled[role := sel], vils - sel)
  {
    MembersAfter(Pool(s), sampled, vils, role, sel);
    CountAfter(Need(s), sampled.Keys, |Pool(s)|, vils, role, sel);
    assert sampled[role := sel].Keys == sampled.Keys + {role};
  }

  /** The unseated players lose exactly the draw. */
  lemma MembersAfter(pool: set<Player>, sampled: map<Role, set<Player>>, vils: set<Player>, role: Role, sel: set<Player>)
    requires vils == (set p | p in pool && Free(sampled, p))
    requires role !in sampled
    ensures vils - sel == (set p | p in pool && Free(sampled[role := sel], p))
  {
    forall p
      ensures p in vils - sel <==> p in pool && Free(sampled[role := sel], p)
    {
      FreeAfter(sampled, role, sel, p);
    }
  }

  /** A player is free after a draw for a new role when it was free before and not drawn now. */
  lemma FreeAfter(sampled: map<Role, set<Player>>, role: Role, sel: set<Player>, p: Player)
    requires role !in sampled
    ensures Free(sampled[role := sel], p) <==> Free(sampled, p) && p !in sel
  {
    var sampled' := sampled[role := sel];
    if Free(sampled, p) && p !in sel {
      forall r ensures !Drawn(sampled', r, p) {
        if r != role { assert !Drawn(sampled, r, p); }
      }
    }
    if Free(sampled', p) {
      assert !Drawn(sampled', role, p);
      forall r ensures !Drawn(sampled, r, p) {
        assert !Drawn(sampled', r, p);
      }
    }
  }

  /** The unseated players shrink by the draw, which is the role's need. */
  lemma CountAfter(need: Counter, done: set<Role>, pool: int, vils: set<Player>, role: Role, sel: set<Player>)
    requires |vils| == pool - SumOver(need, done)
    requires role !in done && sel <= vils && |sel| == Get(need, role)
    ensures |vils - sel| == pool - SumOver(need, done + {role})
  {
    assert |vils - sel| == |vils| - |sel|;
    SumOverAdd(need, done, role);
  }

  lemma PrimaryKeepsDrawn(s: Setup, todo: set<Role>, sampled: map<Role, set<Player>>, vils: set<Player>,
                          role: Role, sel: set<Player>, main: map<Player, Role>, orig: map<Player, Role>,
                          main': map<Player, Role>, orig': map<Player, Role>)
    requires SampledInv(s, todo, sampled) && VilsInv(s, sampled, vils) && DrawnSeated(sampled, main, orig)
    requires StepBasics(s, todo, sampled, role, sel, vils) && MainMove(s, role, sel, main, orig, main', orig')
    ensures DrawnSeated(sampled[role := sel], main', orig')
  {
    DrawIsFree(Pool(s), sampled, vils, sel);
    forall p | p in ForcedOf(s.forced, role) ensures p !in Pool(s) {
      ForcedNotInPool(s, p, role);
    }
    DrawnSeatedAfter(Pool(s), ForcedOf(s.forced, role), sampled, role, sel, main, orig, main', orig');
  }

  /** Players drawn earlier keep their roles and the new draw gets `role`. */
  lemma DrawnSeatedAfter(pool: set<Player>, forced: set<Player>, sampled: map<Role, set<Player>>, role: Role,
                         sel: set<Player>, main: map<Player, Role>, orig: map<Player, Role>,
                         main': map<Player, Role>, orig': map<Player, Role>)
    requires DrawnFrom(pool, sampled) && DrawnSeated(sampled, main, orig) && role !in sampled
    requires forall p :: p in forced ==> p !in pool
    requires forall x :: x in sel ==> Free(sampled, x)
    requires Moved(forced, role, sel, main, orig, main', orig')
    ensures DrawnSeated(sampled[role := sel], main', orig')
  {
    var sampled' := sampled[role := sel];
    forall r, x | Drawn(sampled', r, x)
      ensures SeatedAs(x, r, main', orig')
    {
      if r != role {
        assert Drawn(sampled, r, x);
        assert x !in sel;
        assert x in pool;
      }
    }
  }

  lemma PrimaryKeepsForced(s: Setup, todo: set<Role>, sampled: map<Role, set<Player>>,
                           role: Role, sel: set<Player>, main: map<Player, Role>, orig: map<Player, Role>,
                           main': map<Player, Role>, orig': map<Player, Role>)
    requires DrawnFromPool(s, sampled) && sel <= Pool(s) && role in todo && Primary(s, role)
    requires ForcedSeated(s, todo, main, orig) && AllJustified(s, sampled, main, orig)
    requires MainMove(s, role, sel, main, orig, main', orig')
    ensures ForcedSeated(s, todo - {role}, main', orig')
  {
    forall r, u | ForcedDone(s, todo - {role}, r, u)
      ensures SeatedAsForced(s, u, main', orig')
    {
      ForcedKeptOne(s, todo, sampled, role, sel, main, orig, main', orig', r, u);
    }
  }

  lemma ForcedKeptOne(s: Setup, todo: set<Role>, sampled: map<Role, set<Player>>,
                      role: Role, sel: set<Player>, main: map<Player, Role>, orig: map<Player, Role>,
                      main': map<Player, Role>, orig': map<Player, Role>, r: Role, u: Player)
    requires DrawnFromPool(s, sampled) && sel <= Pool(s) && role in todo && Primary(s, role)
    requires ForcedSeated(s, todo, main, orig) && AllJustified(s, sampled, main, orig)
    requires MainMove(s, role, sel, main, orig, main', orig')
    requires ForcedDone(s, todo - {role}, r, u)
    ensures SeatedAsForced(s, u, main', orig')
  {
    ForcedNotInPool(s, u, r);
    assert u !in sel;
    ForcedMainKept(s, todo, sampled, role, sel, main, orig, main', orig', r, u);
    if u in ForcedOf(s.forced, role) {
      assert orig'[u] == role;
    } else {
      assert ForcedDone(s, todo, r, u);
      assert orig'[u] == orig[u];
    }
  }

  lemma ForcedMainKept(s: Setup, todo: set<Role>, sampled: map<Role, set<Player>>,
                       role: Role, sel: set<Player>, main: map<Player, Role>, orig: map<Player, Role>,
                       main': map<Player, Role>, orig': map<Player, Role>, r: Role, u: Player)
    requires DrawnFromPool(s, sampled) && role in todo && u !in Pool(s) && u !in sel
    requires ForcedSeated(s, todo, main, orig) && AllJustified(s, sampled, main, orig)
    requires MainMove(s, role, sel, main, orig, main', orig')
    requires ForcedDone(s, todo - {role}, r, u)
    ensures u in main' && ForcedInto(s, u, main'[u])
  {
    if r != role {
      assert ForcedDone(s, todo, r, u);
    }
    if u in main {
      assert main'[u] == main[u];
      assert Justified(s, sampled, u, main[u]);
      assert !Drawn(sampled, main[u], u);
    } else {
      assert main'[u] == role;
    }
  }

  lemma PrimaryKeepsOnly(s: Setup, todo: set<Role>, sampled: map<Role, set<Player>>, vils: set<Player>,
                         role: Role, sel: set<Player>, main: map<Player, Role>, orig: map<Player, Role>,
                         main': map<Player, Role>, orig': map<Player, Role>, orig0: map<Player, Role>)
    requires VilsInv(s, sampled, vils) && OnlySeated(s, sampled, main, orig, orig0)
    requires StepBasics(s, todo, sampled, role, sel, vils) && MainMove(s, role, sel, main, orig, main', orig')
    ensures OnlySeated(s, sampled[role := sel], main', orig', orig0)
  {
    forall p | p in main'
      ensures Justified(s, sampled[role := sel], p, main'[p]) && Justified(s, sampled[role := sel], p, orig'[p])
    {
      JustifiedAfter(s, sampled, role, sel, main, orig, main', orig', p);
    }
    OrigAfter(ForcedOf(s.forced, role), role, sel, main, orig, main', orig', orig0);
  }

  /** A player with a main role after the step still holds it, and its
      original main role, for a reason: a draw or a forced role. */
  lemma JustifiedAfter(s: Setup, sampled: map<Role, set<Player>>, role: Role, sel: set<Player>,
                       main: map<Player, Role>, orig: map<Player, Role>,
                       main': map<Player, Role>, orig': map<Player, Role>, p: Player)
    requires AllJustified(s, sampled, main, orig) && Primary(s, role) && role !in sampled
    requires MainMove(s, role, sel, main, orig, main', orig') && p in main'
    ensures Justified(s, sampled[role := sel], p, main'[p]) && Justified(s, sampled[role := sel], p, orig'[p])
  {
    var sampled' := sampled[role := sel];
    if p in sel {
      assert Drawn(sampled', role, p);
    } else if p in main {
      assert Justified(s, sampled, p, main[p]) && Justified(s, sampled, p, orig[p]);
      if Drawn(sampled, main[p], p) {
        assert Drawn(sampled', main[p], p);
      }
      if p in ForcedOf(s.forced, role) {
        assert orig'[p] == role;
      } else {
        assert orig'[p] == orig[p];
        if Drawn(sampled, orig[p], p) {
          assert Drawn(sampled', orig[p], p);
        }
      }
    }
  }

  /** Players without a main role keep their original main role from before the start. */
  lemma OrigAfter(forced: set<Player>, role: Role, sel: set<Player>, main: map<Player, Role>, orig: map<Player, Role>,
                  main': map<Player, Role>, orig': map<Player, Role>, orig0: map<Player, Role>)
    requires orig0.Keys <= orig.Keys
    requires forall p :: p in orig && p !in main ==> p in orig0 && orig[p] == orig0[p]
    requires Moved(forced, role, sel, main, orig, main', orig')
    ensures orig0.Keys <= orig'.Keys
    ensures forall p :: p in orig' && p !in main' ==> p in orig0 && orig'[p] == orig0[p]
  {
  }

  /** The forced players of `role` seated, then the draw `sel` labelled: the
      two map updates of one primary role compose to `MainMove`. */
  lemma ComposeMove(s: Setup, role: Role, sel: set<Player>,
                    main: map<Player, Role>, orig: map<Player, Role>,
                    mainF: map<Player, Role>, origF: map<Player, Role>,
                    main': map<Player, Role>, orig': map<Player, Role>)
    requires mainF.Keys == main.Keys + ForcedOf(s.forced, role)
    requires forall p :: p in mainF ==> mainF[p] == if p in main then main[p] else role
    requires origF.Keys == orig.Keys + ForcedOf(s.forced, role)
    requires forall p :: p in origF ==> origF[p] == if p in ForcedOf(s.forced, role) then role else orig[p]
    requires main'.Keys == mainF.Keys + sel
    requires forall p :: p in main' ==> main'[p] == if p in sel then role else mainF[p]
    requires orig'.Keys == origF.Keys + sel
    requires forall p :: p in orig' ==> orig'[p] == if p in sel then role else origF[p]
    ensures MainMove(s, role, sel, main, orig, main', orig')
  {
  }

  lemma SecondaryKeepsInv(s: Setup, todo: set<Role>, sampled: map<Role, set<Player>>, st: Seating,
                          orig0: map<Player, Role>, role: Role)
    requires SeatInv(s, todo, sampled, st, orig0) && role in todo && role in s.secondary
    ensures SeatInv(s, todo - {role}, sampled, st.(roles := st.roles[role := Placeholders(Max(s.add[role], 0))]), orig0)
  {
    SecondaryKeepsRoles(s, todo, sampled, st.roles, role);
    SecondaryKeepsSampled(s, todo, sampled, role);
    SecondaryKeepsForced(s, todo, st.main, st.orig, role);
  }

  lemma SecondaryKeepsRoles(s: Setup, todo: set<Role>, sampled: map<Role, set<Player>>, roles: map<Role, Holders>, role: Role)
    requires RolesInv(s, todo, sampled, roles) && role in todo && role in s.secondary && role in s.add
    ensures RolesInv(s, todo - {role}, sampled, roles[role := Placeholders(Max(s.add[role], 0))])
  {
    var roles' := roles[role := Placeholders(Max(s.add[role], 0))];
    assert (set r | r in s.add && r in s.secondary && r !in todo - {role})
        == (set r | r in s.add && r in s.secondary && r !in todo) + {role};
    forall r | r in roles' ensures roles'[r] == Expected(s, todo - {role}, sampled, r) {
    }
  }

  lemma SecondaryKeepsSampled(s: Setup, todo: set<Role>, sampled: map<Role, set<Player>>, role: Role)
    requires SampledInv(s, todo, sampled) && role in s.secondary
    ensures SampledInv(s, todo - {role}, sampled)
  {
    assert sampled.Keys == (set r | r in s.add && r !in s.secondary && r !in todo - {role});
  }

  lemma SecondaryKeepsForced(s: Setup, todo: set<Role>, main: map<Player, Role>, orig: map<Player, Role>, role: Role)
    requires ForcedSeated(s, todo, main, orig) && role in s.secondary
    ensures ForcedSeated(s, todo - {role}, main, orig)
  {
    forall r, u | ForcedDone(s, todo - {role}, r, u) ensures SeatedAsForced(s, u, main, orig) {
      assert ForcedDone(s, todo, r, u);
    }
  }

  /** A primary role forced on more players than its count. */
  lemma BlockedByForced(s: Setup, r: Role)
    requires Primary(s, r) && ForcedCount(s.forced, r) > s.add[r]
    ensures Blocked(s)
  {
  }

  /** A primary role outside the catalogue. */
  lemma BlockedByCatalogue(s: Setup, r: Role)
    requires Primary(s, r) && r !in s.all + {s.def}
    ensures Blocked(s)
  {
  }

  /** A draw larger than what is left of the pool means the draws of all
      primary roles together exceed the pool (or some count is negative). */
  lemma BlockedBySample(s: Setup, todo: set<Role>, sampled: map<Role, set<Player>>, vils: set<Player>, role: Role)
    requires todo <= s.add.Keys && SampledInv(s, todo, sampled) && VilsInv(s, sampled, vils)
    requires role in todo && Primary(s, role) && Need(s)[role] > |vils|
    ensures Blocked(s)
  {
    if !exists r :: Primary(s, r) && ForcedCount(s.forced, r) > s.add[r] {
      var rest := (s.add.Keys - s.secondary) - sampled.Keys - {role};
      assert s.add.Keys - s.secondary == (sampled.Keys + {role}) + rest;
      SumOverSplit(Need(s), sampled.Keys + {role}, rest);
      SumOverAdd(Need(s), sampled.Keys, role);
      forall k | k in rest ensures Get(Need(s), k) >= 0 {
        assert Primary(s, k);
      }
      SumOverNonNegative(Need(s), rest);
    }
  }

  /** When every primary role is seated, nothing blocked seating unless the
      default role is a secondary role. */
  lemma NotBlockedAtEnd(s: Setup, sampled: map<Role, set<Player>>, vils: set<Player>)
    requires SampledInv(s, {}, sampled) && VilsInv(s, sampled, vils)
    requires !(s.def in s.add && s.def in s.secondary)
    ensures !Blocked(s)
  {
    forall r | Primary(s, r) ensures ForcedCount(s.forced, r) <= s.add[r] && r in s.all + {s.def} {
      assert r in sampled;
    }
    assert sampled.Keys == s.add.Keys - s.secondary;
  }

  /** A primary role that `var.ROLES` holds is a catalogue role or the default. */
  lemma RoleInCatalogue(s: Setup, todo: set<Role>, sampled: map<Role, set<Player>>, roles: map<Role, Holders>, role: Role)
    requires RolesInv(s, todo, sampled, roles) && Primary(s, role) && role in roles
    ensures role in s.all + {s.def}
  {
  }

  /** The six invariant pieces survive one primary role. */
  lemma PrimaryKeepsInv(s: Setup, todo: set<Role>, sampled: map<Role, set<Player>>, st: Seating,
                        orig0: map<Player, Role>, role: Role, sel: set<Player>, st': Seating)
    requires SeatInv(s, todo, sampled, st, orig0)
    requires StepBasics(s, todo, sampled, role, sel, st.vils) && st'.vils == st.vils - sel
    requires RolesMove(s, role, sel, st.roles, st'.roles)
    requires MainMove(s, role, sel, st.main, st.orig, st'.main, st'.orig)
    ensures SeatInv(s, todo - {role}, sampled[role := sel], st', orig0)
  {
    PrimaryKeepsRoles(s, todo, sampled, st.vils, role, sel, st.roles, st'.roles);
    RoleInCatalogue(s, todo, sampled, st.roles, role);
    PrimaryKeepsSampled(s, todo, sampled, st.vils, role, sel);
    PrimaryKeepsVils(s, todo, sampled, st.vils, role, sel);
    PrimaryKeepsDrawn(s, todo, sampled, st.vils, role, sel, st.main, st.orig, st'.main, st'.orig);
    PrimaryKeepsForced(s, todo, sampled, role, sel, st.main, st.orig, st'.main, st'.orig);
    PrimaryKeepsOnly(s, todo, sampled, st.vils, role, sel, st.main, st.orig, st'.main, st'.orig, orig0);
  }

  /** A role not yet seated still holds the empty set it started with. */
  lemma FreshHolder(s: Setup, todo: set<Role>, sampled: map<Role, set<Player>>, roles: map<Role, Holders>, role: Role)
    requires RolesInv(s, todo, sampled, roles) && role in todo && role in roles
    ensures roles[role] == Users({})
  {
  }

  /** The forced players of a primary role, then `random.sample(vils, count)`
      for the rest of its count, labelled in both role maps. */
  method DrawFor(s: Setup, role: Role, main: map<Player, Role>, orig: map<Player, Role>, vils: set<Player>)
    returns (err: Option<StartError>, main': map<Player, Role>, orig': map<Player, Role>, sel: set<Player>)
    requires Primary(s, role)
    ensures err.None? ==> sel <= vils && |sel| == Need(s)[role] && MainMove(s, role, sel, main, orig, main', orig')
    ensures err.Some? ==> err.value == ForcedTooMany(role) || err.value.Crash?
    ensures err == Some(ForcedTooMany(role)) ==> ForcedCount(s.forced, role) > s.add[role]
    ensures err.Some? && err.value.Crash? ==> Need(s)[role] < 0 || Need(s)[role] > |vils|
  {
    var mainF, origF;
    err, mainF, origF := ForcedFor(s, role, main, orig);
    main', orig', sel := mainF, origF, {};
    if err.Some? {
      return;
    }
    var drawn := SampleSet(vils, s.add[role] - ForcedCount(s.forced, role));
    if drawn.Err? {
      return Some(drawn.error), main', orig', sel;
    }
    sel := drawn.value;
    main', orig' := Label(mainF, origF, sel, role);
    ComposeMove(s, role, sel, main, orig, mainF, origF, main', orig');
  }

  /** The `FORCE_ROLES` part of one primary role: refused when more players
      are forced into it than `addroles` asks for. */
  method ForcedFor(s: Setup, role: Role, main: map<Player, Role>, orig: map<Player, Role>)
    returns (err: Option<StartError>, mainF: map<Player, Role>, origF: map<Player, Role>)
    requires role in s.add
    ensures err.Some? <==> role in s.forced && ForcedCount(s.forced, role) > s.add[role]
    ensures err.Some? ==> err.value == ForcedTooMany(role)
    ensures err.None? ==> mainF.Keys == main.Keys + ForcedOf(s.forced, role)
    ensures err.None? ==> forall p :: p in mainF ==> mainF[p] == if p in main then main[p] else role
    ensures err.None? ==> origF.Keys == orig.Keys + ForcedOf(s.forced, role)
    ensures err.None? ==> forall p :: p in origF ==> origF[p] == if p in ForcedOf(s.forced, role) then role else orig[p]
  {
    mainF, origF, err := main, orig, None;
    if role in s.forced {
      if |s.forced[role]| > s.add[role] {
        return Some(ForcedTooMany(role)), mainF, origF;
      }
      mainF, origF := SeatForced(mainF, origF, s.forced[role], role);
    }
  }

  /** A primary step that went through: the draw `sel` was taken from the
      unseated players and both role maps and the role's holders were updated. */
  ghost predicate StepDone(s: Setup, st: Seating, role: Role, sel: set<Player>, st': Seating) {
    && Primary(s, role)
    && sel <= st.vils && |sel| == Need(s)[role] && st'.vils == st.vils - sel
    && role in st.roles && st.roles[role].Users?
    && st'.roles == st.roles[role := Users(st.roles[role].players + sel + ForcedOf(s.forced, role))]
    && MainMove(s, role, sel, st.main, st.orig, st'.main, st'.orig)
  }

  /** A primary step that failed, with the reason it failed. */
  ghost predicate StepFailed(s: Setup, st: Seating, role: Role, err: StartError) {
    && Primary(s, role)
    && (err.Crash? || err == ForcedTooMany(role))
    && (err == ForcedTooMany(role) ==> ForcedCount(s.forced, role) > s.add[role])
    && (err.Crash? ==>
          Need(s)[role] < 0 || Need(s)[role] > |st.vils| || role !in st.roles || st.roles[role].Placeholders?)
  }

  /** One primary role of `addroles`: its draw, then its holder set
      (`var.ROLES[role].update(selected)`, then `.update(to_add)`). */
  method PrimaryStep(s: Setup, st: Seating, role: Role) returns (err: Option<StartError>, st': Seating, sel: set<Player>)
    requires Primary(s, role)
    ensures err.None? ==> StepDone(s, st, role, sel, st')
    ensures err.Some? ==> StepFailed(s, st, role, err.value)
  {
    var main, orig;
    err, main, orig, sel := DrawFor(s, role, st.main, st.orig, st.vils);
    if err.Some? {
      return err, Seating(st.roles, main, orig, st.vils), sel;
    }
    st' := Seating(st.roles, main, orig, st.vils - sel);
    if role !in st.roles {
      return Some(Crash("KeyError: role missing from var.ROLES")), st', sel;
    }
    if st.roles[role].Placeholders? {
      return Some(Crash("AttributeError: a placeholder tuple has no update")), st', sel;
    }
    var toAdd := if role in s.forced then s.forced[role] else {};
    st' := st'.(roles := st.roles[role := Users(st.roles[role].players + sel + toAdd)]);
  }

  /** A failed primary step means seating was blocked from the start. */
  lemma PrimaryFailed(s: Setup, todo: set<Role>, sampled: map<Role, set<Player>>, st: Seating,
                      orig0: map<Player, Role>, role: Role, err: StartError)
    requires SeatInv(s, todo, sampled, st, orig0) && role in todo && Primary(s, role)
    requires StepFailed(s, st, role, err)
    ensures Blocked(s)
  {
    if err == ForcedTooMany(role) || Need(s)[role] < 0 {
      BlockedByForced(s, role);
    } else if Need(s)[role] > |st.vils| {
      BlockedBySample(s, todo, sampled, st.vils, role);
    } else if role !in st.roles {
      BlockedByCatalogue(s, role);
    } else {
      FreshHolder(s, todo, sampled, st.roles, role);
    }
  }

  /** The holder update of a primary step is `RolesMove`. */
  lemma StepRolesMove(s: Setup, todo: set<Role>, sampled: map<Role, set<Player>>, st: Seating,
                      role: Role, sel: set<Player>, st': Seating)
    requires RolesInv(s, todo, sampled, st.roles) && role in todo
    requires role in st.roles
    requires st'.roles == st.roles[role := Users(st.roles[role].players + sel + ForcedOf(s.forced, role))]
    ensures RolesMove(s, role, sel, st.roles, st'.roles)
  {
    FreshHolder(s, todo, sampled, st.roles, role);
    assert st.roles[role].players + sel + ForcedOf(s.forced, role) == ForcedOf(s.forced, role) + sel;
  }

  /** A successful primary step keeps the invariant. */
  lemma PrimaryKept(s: Setup, todo: set<Role>, sampled: map<Role, set<Player>>, st: Seating,
                    orig0: map<Player, Role>, role: Role, st': Seating, sel: set<Player>)
    requires SeatInv(s, todo, sampled, st, orig0) && role in todo && Primary(s, role)
    requires StepDone(s, st, role, sel, st')
    ensures SeatInv(s, todo - {role}, sampled[role := sel], st', orig0)
  {
    StepRolesMove(s, todo, sampled, st, role, sel, st');
    PrimaryKeepsInv(s, todo, sampled, st, orig0, role, sel, st');
  }

  // ---------------------------------------------------------------------
  // The default-role fill and the whole seating

  /** The holders of `r` once seating is complete; `rest` are the players
      that fell through to the default role. */
  ghost function Outcome(s: Setup, sampled: map<Role, set<Player>>, rest: set<Player>, r: Role): Holders {
    if r in s.add && r in s.secondary then Placeholders(Max(s.add[r], 0))
    else Users((if r in s.add then ForcedOf(s.forced, r) + Lookup(sampled, r) else {})
               + (if r == s.def then rest else {}))
  }

  /** The outcome of a complete seating. */
  ghost predicate Seated(s: Setup, sampled: map<Role, set<Player>>, st: Seating, orig0: map<Player, Role>) {
    && !(s.def in s.add && s.def in s.secondary)
    && st.roles.Keys == s.all + {s.def} + (s.add.Keys * s.secondary)
    && (forall r :: r in st.roles ==> st.roles[r] == Outcome(s, sampled, st.vils, r))
    && SampledInv(s, {}, sampled)
    && VilsInv(s, sampled, st.vils)
    && DrawnSeated(sampled, st.main, st.orig)
    && ForcedSeated(s, {}, st.main, st.orig)
    && (forall x :: x in st.vils ==> SeatedAs(x, s.def, st.main, st.orig))
    && st.main.Keys <= st.orig.Keys
    && (forall p :: p in st.main && p !in st.vils ==>
          Justified(s, sampled, p, st.main[p]) && Justified(s, sampled, p, st.orig[p]))
    && orig0.Keys <= st.orig.Keys
    && (forall p :: p in st.orig && p !in st.main ==> p in orig0 && st.orig[p] == orig0[p])
  }

  /** `MAIN_ROLES[x] = ORIGINAL_MAIN_ROLES[x] = role` for every `x` of `xs`. */
  ghost predicate LabelMove(main: map<Player, Role>, orig: map<Player, Role>, xs: set<Player>, role: Role,
                            main': map<Player, Role>, orig': map<Player, Role>) {
    && main'.Keys == main.Keys + xs
    && (forall p :: p in main' ==> main'[p] == if p in xs then role else main[p])
    && orig'.Keys == orig.Keys + xs
    && (forall p :: p in orig' ==> orig'[p] == if p in xs then role else orig[p])
  }

  /** Players still unseated have no main role yet. */
  lemma UnseatedHaveNoRole(s: Setup, sampled: map<Role, set<Player>>, st: Seating, orig0: map<Player, Role>, p: Player)
    requires VilsInv(s, sampled, st.vils) && OnlySeated(s, sampled, st.main, st.orig, orig0)
    requires p in st.vils
    ensures p !in st.main
  {
    if p in st.main {
      assert Justified(s, sampled, p, st.main[p]);
      assert Free(sampled, p);
      assert !Drawn(sampled, st.main[p], p);
      ForcedNotInPool(s, p, st.main[p]);
    }
  }

  lemma DefaultRoles(s: Setup, sampled: map<Role, set<Player>>, roles: map<Role, Holders>,
                     vils: set<Player>, roles': map<Role, Holders>)
    requires RolesInv(s, {}, sampled, roles)
    requires s.def in roles && roles[s.def].Users?
    requires roles' == roles[s.def := Users(roles[s.def].players + vils)]
    ensures roles'.Keys == s.all + {s.def} + (s.add.Keys * s.secondary)
    ensures forall r :: r in roles' ==> roles'[r] == Outcome(s, sampled, vils, r)
  {
    var e: set<Role> := {};
    assert (set r | r in s.add && r in s.secondary && r !in e) == s.add.Keys * s.secondary;
    forall r | r in roles' ensures roles'[r] == Outcome(s, sampled, vils, r) {
      assert roles[r] == Expected(s, {}, sampled, r);
    }
  }

  lemma DefaultMain(s: Setup, sampled: map<Role, set<Player>>, st: Seating, orig0: map<Player, Role>, st': Seating)
    requires SeatInv(s, {}, sampled, st, orig0) && st'.vils == st.vils
    requires LabelMove(st.main, st.orig, st.vils, s.def, st'.main, st'.orig)
    ensures DrawnSeated(sampled, st'.main, st'.orig)
    ensures ForcedSeated(s, {}, st'.main, st'.orig)
    ensures forall x :: x in st'.vils ==> SeatedAs(x, s.def, st'.main, st'.orig)
    ensures st'.main.Keys <= st'.orig.Keys
    ensures forall p :: p in st'.main && p !in st'.vils ==>
      Justified(s, sampled, p, st'.main[p]) && Justified(s, sampled, p, st'.orig[p])
    ensures orig0.Keys <= st'.orig.Keys
    ensures forall p :: p in st'.orig && p !in st'.main ==> p in orig0 && st'.orig[p] == orig0[p]
  {
    forall r, x | Drawn(sampled, r, x) ensures SeatedAs(x, r, st'.main, st'.orig) {
      assert !Free(sampled, x);
    }
    forall r, u | ForcedDone(s, {}, r, u) ensures SeatedAsForced(s, u, st'.main, st'.orig) {
      ForcedNotInPool(s, u, r);
    }
  }

  /** `var.ROLES[var.DEFAULT_ROLE].update(vils)` and the role maps for the
      players left over, then `pr[DEFAULT_ROLE] += len(vils)` in every
      possible roleset when some are left; the default role being reserved
      as placeholders makes `.update` raise. */
  method SeatDefault(s: Setup, st: Seating, possible: seq<Counter>)
    returns (err: Option<StartError>, st': Seating, possible': seq<Counter>)
    requires s.def in st.roles
    ensures err.Some? <==> st.roles[s.def].Placeholders?
    ensures err.Some? ==> err.value.Crash?
    ensures err.None? ==> st'.vils == st.vils
    ensures err.None? ==> st'.roles == st.roles[s.def := Users(st.roles[s.def].players + st.vils)]
    ensures err.None? ==> LabelMove(st.main, st.orig, st.vils, s.def, st'.main, st'.orig)
    ensures |possible'| == |possible|
    ensures err.None? ==> forall i :: 0 <= i < |possible| ==>
      possible'[i] == if st.vils == {} then possible[i] else Bump(possible[i], s.def, |st.vils|)
  {
    st', possible' := st, possible;
    if st.roles[s.def].Placeholders? {
      return Some(Crash("AttributeError: a placeholder tuple has no update")), st', possible';
    }
    var roles := st.roles[s.def := Users(st.roles[s.def].players + st.vils)];
    var main, orig := Label(st.main, st.orig, st.vils, s.def);
    st' := Seating(roles, main, orig, st.vils);
    if st.vils != {} {
      possible' := BumpAll(possible, s.def, |st.vils|);
    }
    err := None;
  }

  /** Lines from filling `var.ROLES` to the default-role fill: every role of
      `addroles` in any order, forced players first, random draws for the
      rest. `orig0` is `var.ORIGINAL_MAIN_ROLES` before the start, which is
      not cleared; `possible` are the possible rolesets. On an error the
      partly updated state is returned as the Python code leaves it. */
  method CommitPrimary(s: Setup, orig0: map<Player, Role>, possible: seq<Counter>)
    returns (err: Option<StartError>, st: Seating, possible': seq<Counter>, ghost sampled: map<Role, set<Player>>)
    ensures err.None? <==> !Blocked(s)
    ensures err.Some? ==>
      || err.value.Crash?
      || (err.value.ForcedTooMany? && Primary(s, err.value.role) &&
          ForcedCount(s.forced, err.value.role) > s.add[err.value.role])
    ensures err.None? ==> Seated(s, sampled, st, orig0)
    ensures |possible'| == |possible|
    ensures err.None? ==> forall i :: 0 <= i < |possible| ==>
      possible'[i] == if st.vils == {} then possible[i] else Bump(possible[i], s.def, |st.vils|)
  {
    possible' := possible;
    var vils := RemoveForced(s);
    st := Seating(Fresh(s.all, s.def), map[], orig0, vils);
    sampled := map[];
    SeatStart(s, vils, orig0);
    var todo := s.add.Keys;
    while todo != {}
      invariant SeatInv(s, todo, sampled, st, orig0)
      decreases todo
    {
      var role :| role in todo;
      if role in s.secondary {
        SecondaryKeepsInv(s, todo, sampled, st, orig0, role);
        st := st.(roles := st.roles[role := Placeholders(Max(s.add[role], 0))]);
      } else {
        var e, st', sel := PrimaryStep(s, st, role);
        if e.Some? {
          PrimaryFailed(s, todo, sampled, st, orig0, role, e.value);
          return e, st', possible', sampled;
        }
        PrimaryKept(s, todo, sampled, st, orig0, role, st', sel);
        st, sampled := st', sampled[role := sel];
      }
      todo := todo - {role};
    }
    var st';
    err, st', possible' := SeatDefault(s, st, possible);
    if err.Some? {
      return err, st', possible', sampled;
    }
    NotBlockedAtEnd(s, sampled, st.vils);
    DefaultRoles(s, sampled, st.roles, st.vils, st'.roles);
    DefaultMain(s, sampled, st, orig0, st');
    st := st';
  }

  // ---------------------------------------------------------------------
  // What a complete seating guarantees

  /** `len(var.ROLES[r])`. */
  function HolderCount(h: Holders): nat {
    match h
    case Users(ps) => |ps|
    case Placeholders(n) => n
  }

  /** Every player with a main role is among the holders of that role. */
  lemma SeatedHolds(s: Setup, sampled: map<Role, set<Player>>, st: Seating, orig0: map<Player, Role>, p: Player)
    requires Seated(s, sampled, st, orig0)
    requires p in st.main
    ensures st.main[p] in st.roles && st.roles[st.main[p]].Users?
    ensures p in st.roles[st.main[p]].players
  {
    var r := st.main[p];
    if p in st.vils {
      assert SeatedAs(p, s.def, st.main, st.orig);
      assert st.roles[s.def] == Outcome(s, sampled, st.vils, s.def);
    } else {
      assert Justified(s, sampled, p, r);
      assert r in sampled by {
        if !Drawn(sampled, r, p) {
          assert Primary(s, r);
        }
      }
      assert st.roles[r] == Outcome(s, sampled, st.vils, r);
    }
  }

  /** Every role holds as many players as `addroles` asks for: the forced
      players and the draws of a primary role never overlap; the default role
      holds the leftover players besides. */
  lemma SeatedCounts(s: Setup, sampled: map<Role, set<Player>>, st: Seating, orig0: map<Player, Role>, r: Role)
    requires Seated(s, sampled, st, orig0)
    requires r in st.roles
    ensures HolderCount(st.roles[r]) ==
      if r in s.add && r in s.secondary then Max(s.add[r], 0)
      else (if r in s.add then s.add[r] else 0) + (if r == s.def then |st.vils| else 0)
  {
    SeatedDraws(s, sampled, st, orig0, r);
    OutcomeCount(s, Pool(s), sampled, st.vils, r);
  }

  /** What a complete seating says about the draw of one role. */
  lemma SeatedDraws(s: Setup, sampled: map<Role, set<Player>>, st: Seating, orig0: map<Player, Role>, r: Role)
    requires Seated(s, sampled, st, orig0)
    requires r in st.roles
    ensures st.roles[r] == Outcome(s, sampled, st.vils, r)
    ensures st.vils <= Pool(s)
    ensures r in s.add && r !in s.secondary ==>
      r in sampled && |sampled[r]| == Need(s)[r] && sampled[r] <= Pool(s) && st.vils !! sampled[r]
  {
    VilsInPool(s, sampled, st.vils, r);
    if r in s.add && r !in s.secondary {
      DrawInPool(s, sampled, r);
    }
  }

  lemma VilsInPool(s: Setup, sampled: map<Role, set<Player>>, vils: set<Player>, r: Role)
    requires VilsInv(s, sampled, vils)
    ensures vils <= Pool(s)
    ensures r in sampled ==> vils !! sampled[r]
  {
    forall x | x in vils ensures x in Pool(s) && (r in sampled ==> x !in sampled[r]) {
      assert Free(sampled, x);
      assert !Drawn(sampled, r, x);
    }
  }

  lemma DrawInPool(s: Setup, sampled: map<Role, set<Player>>, r: Role)
    requires SampledInv(s, {}, sampled)
    requires r in s.add && r !in s.secondary
    ensures r in sampled && |sampled[r]| == Need(s)[r] && sampled[r] <= Pool(s)
  {
    assert r in sampled;
    forall x | x in sampled[r] ensures x in Pool(s) {
      assert Drawn(sampled, r, x);
    }
  }

  /** The forced players of a primary role, its draw and (for the default
      role) the leftover players are three disjoint sets. */
  lemma OutcomeCount(s: Setup, pool: set<Player>, sampled: map<Role, set<Player>>, vils: set<Player>, r: Role)
    requires pool == Pool(s) && vils <= pool
    requires r in s.add && r !in s.secondary ==>
      r in sampled && |sampled[r]| == Need(s)[r] && sampled[r] <= pool && vils !! sampled[r]
    ensures HolderCount(Outcome(s, sampled, vils, r)) ==
      if r in s.add && r in s.secondary then Max(s.add[r], 0)
      else (if r in s.add then s.add[r] else 0) + (if r == s.def then |vils| else 0)
  {
    if r in s.add && r !in s.secondary {
      var f := ForcedOf(s.forced, r);
      forall x | x in f ensures x !in pool {
        ForcedNotInPool(s, x, r);
      }
      DisjointCount(f, sampled[r], vils);
    }
  }

  lemma DisjointCount(f: set<Player>, d: set<Player>, v: set<Player>)
    requires f !! d && f !! v && d !! v
    ensures |f + d| == |f| + |d| && |f + d + v| == |f| + |d| + |v|
  {
  }

  /** When every primary role with forced players is in play, every player
      of the game ends up with a main role. */
  lemma SeatedCoversRoster(s: Setup, sampled: map<Role, set<Player>>, st: Seating, orig0: map<Player, Role>)
    requires Seated(s, sampled, st, orig0)
    requires forall r :: r in s.forced && r !in s.secondary ==> r in s.add
    ensures s.roster <= st.main.Keys
  {
    CoversRoster(s, sampled, st);
  }

  lemma CoversRoster(s: Setup, sampled: map<Role, set<Player>>, st: Seating)
    requires VilsInv(s, sampled, st.vils) && DrawnSeated(sampled, st.main, st.orig) && ForcedSeated(s, {}, st.main, st.orig)
    requires forall x :: x in st.vils ==> SeatedAs(x, s.def, st.main, st.orig)
    requires forall r :: r in s.forced && r !in s.secondary ==> r in s.add
    ensures s.roster <= st.main.Keys
  {
    forall p | p in s.roster ensures p in st.main {
      if Pinned(s, p) {
        var r :| r in s.forced && r !in s.secondary && p in s.forced[r];
        assert ForcedDone(s, {}, r, p);
      } else if Free(sampled, p) {
        assert p in st.vils;
        assert SeatedAs(p, s.def, st.main, st.orig);
      } else {
        var r :| Drawn(sampled, r, p);
        assert SeatedAs(p, r, st.main, st.orig);
      }
    }
  }
}
