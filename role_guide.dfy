/** The base role multiset of a game (`start`, the `role_attribution`
    branch): the union of the role-guide tiers the roster size reaches,
    stripped of annotations, with "-role" entries subtracted, then raised to
    the forced counts and checked against the roster size. */
module RoleGuide {
  import opened Common
  import opened RoleNames

  /** One `ROLE_GUIDE` entry: a population threshold and the role names it adds. */
  datatype Tier = Tier(threshold: int, roles: seq<Role>)

  /** The names of every tier whose threshold is at most `n`, in guide order. */
  function Included(guide: seq<Tier>, n: int): seq<Role>
  {
    if guide == [] then []
    else
      var last := guide[|guide| - 1];
      Included(guide[..|guide| - 1], n) + (if last.threshold <= n then last.roles else [])
  }

  /** A name is included exactly when some tier reached by `n` lists it. */
  lemma {:induction false} IncludedMembership(guide: seq<Tier>, n: int, x: Role)
    ensures x in Included(guide, n) <==>
            exists t :: 0 <= t < |guide| && guide[t].threshold <= n && x in guide[t].roles
  {
    if guide != [] {
      var init := guide[..|guide| - 1];
      IncludedMembership(init, n, x);
      if x in Included(init, n) {
        var t :| 0 <= t < |init| && init[t].threshold <= n && x in init[t].roles;
        assert guide[t] == init[t];
      }
      if exists t :: 0 <= t < |guide| && guide[t].threshold <= n && x in guide[t].roles {
        var t :| 0 <= t < |guide| && guide[t].threshold <= n && x in guide[t].roles;
        if t < |init| { assert init[t] == guide[t]; }
      }
    }
  }

  /** `for num, rolelist in ROLE_GUIDE.items(): if num <= lv: roles.extend(rolelist)` */
  method CollectTiers(guide: seq<Tier>, n: int) returns (roles: seq<Role>)
    ensures roles == Included(guide, n)
  {
    roles := [];
    var i := 0;
    while i < |guide|
      invariant 0 <= i <= |guide|
      invariant roles == Included(guide[..i], n)
    {
      assert guide[..i + 1][..i] == guide[..i];
      if guide[i].threshold <= n {
        roles := roles + guide[i].roles;
      }
      i := i + 1;
    }
    assert guide[..i] == guide;
  }

  /** `strip(x) for x in roles`: no name is left with an annotation, a
      name without one is kept as it is, and stripping again changes nothing. */
  function StripAll(roles: seq<Role>): (r: seq<Role>)
    ensures |r| == |roles| && forall i :: 0 <= i < |roles| ==> r[i] == Strip(roles[i])
    ensures forall i :: 0 <= i < |r| ==> !HasAnnotation(r[i])
    ensures forall i :: 0 <= i < |r| && !HasAnnotation(roles[i]) ==> r[i] == roles[i]
    ensures forall i :: 0 <= i < |r| ==> Strip(r[i]) == r[i]
  {
    StripEach(roles);
    seq(|roles|, i requires 0 <= i < |roles| => Strip(roles[i]))
  }

  /** The stripping lemmas, name by name. */
  lemma StripEach(roles: seq<Role>)
    ensures forall i :: 0 <= i < |roles| ==> !HasAnnotation(Strip(roles[i])) && Strip(Strip(roles[i])) == Strip(roles[i])
    ensures forall i :: 0 <= i < |roles| && !HasAnnotation(roles[i]) ==> Strip(roles[i]) == roles[i]
  {
    forall i | 0 <= i < |roles|
      ensures !HasAnnotation(Strip(roles[i])) && Strip(Strip(roles[i])) == Strip(roles[i])
      ensures !HasAnnotation(roles[i]) ==> Strip(roles[i]) == roles[i]
    {
      StripRemovesAnnotation(roles[i]);
      StripIdempotent(roles[i]);
      if !HasAnnotation(roles[i]) {
        StripKeepsPlainName(roles[i]);
      }
    }
  }

  /** `Counter(strip(x) for x in roles)` over the included tiers. */
  function GuideCounter(guide: seq<Tier>, n: int): Counter {
    CounterOf(StripAll(Included(guide, n)))
  }

  /** The outcome of the subtraction loop: every plain role has lost the count
      of its "-" entry and is dropped only when the net is exactly zero (a
      negative net is kept); a non-plain key survives only when a "--" entry
      (or "-" for the empty name) put it back. */
  ghost predicate NetOfNegations(d: Counter, r: Counter) {
    && (forall x :: IsPlain(x) ==> Get(r, x) == Get(d, x) - Get(d, Negated(x)))
    && (forall x :: IsPlain(x) ==>
          (x in r <==> if Negated(x) in d then Get(d, x) - Get(d, Negated(x)) != 0 else x in d))
    && (forall k :: k in r && !IsPlain(k) ==> Negated(k) in d)
  }

  /** Lines that turn "-role" entries into subtractions, over a snapshot of the
      counter in any iteration order; `role[0]` raises on an empty name. */
  method ApplyNegations(d: Counter) returns (r: Result<Counter>)
    ensures r.Err? <==> "" in d
    ensures r.Err? ==> r.error.Crash?
    ensures r.Ok? ==> NetOfNegations(d, r.value)
  {
    var cur := d;
    var todo := d.Keys;
    while todo != {}
      invariant todo <= d.Keys
      invariant "" in d ==> "" in todo
      invariant Subtracted(d, todo, cur)
      decreases todo
    {
      var role :| role in todo;
      if role == "" {
        return Err(Crash("role[0] of an empty role name"));
      }
      if role[0] == '-' {
        var srole := role[1..];
        NegatedTail(role);
        var cur' := cur[srole := Get(cur, srole) - d[role]] - {role};
        if cur'[srole] == 0 {
          cur' := cur' - {srole};
        }
        SubtractStep(d, todo, cur, role, cur');
        cur := cur';
      }
      todo := todo - {role};
    }
    SubtractionsDone(d, cur);
    r := Ok(cur);
  }

  /** The counter once the "-" entries outside `todo` have been subtracted. */
  ghost predicate Subtracted(d: Counter, todo: set<Role>, cur: Counter) {
    && (forall x :: IsPlain(x) ==>
          Get(cur, x) == Get(d, x) - (if Negated(x) in d && Negated(x) !in todo then d[Negated(x)] else 0))
    && (forall x :: IsPlain(x) ==>
          (x in cur <==> if Negated(x) in d && Negated(x) !in todo then Get(cur, x) != 0 else x in d))
    && (forall k :: k in cur && !IsPlain(k) ==> k in todo || Negated(k) in d)
  }

  /** Subtracting one "-" entry from its tail and dropping it. */
  lemma SubtractStep(d: Counter, todo: set<Role>, cur: Counter, role: Role, cur': Counter)
    requires Subtracted(d, todo, cur) && role in todo && role in d && |role| > 0 && role[0] == '-'
    requires cur' == (var c := cur[role[1..] := Get(cur, role[1..]) - d[role]] - {role};
                      if c[role[1..]] == 0 then c - {role[1..]} else c)
    ensures Subtracted(d, todo - {role}, cur')
  {
    NegatedTail(role);
  }

  /** With every "-" entry subtracted, the counter is the net of the negations. */
  lemma SubtractionsDone(d: Counter, cur: Counter)
    requires Subtracted(d, {}, cur)
    ensures NetOfNegations(d, cur)
  {
  }

  /** The number of players pinned to a role by `FORCE_ROLES`. */
  function ForcedCount(forced: map<Role, set<Player>>, r: Role): nat {
    if r in forced then |forced[r]| else 0
  }

  /** The targets after the forced-role floor: every base role gets the
      listener's preset count, or else its guide count, raised to the number of
      players forced into it; other preset roles keep their count. */
  ghost function Floored(preset: Counter, base: Counter, forced: map<Role, set<Player>>): Counter {
    map r | r in preset.Keys + base.Keys ::
      if r in base then Max(if r in preset then preset[r] else base[r], ForcedCount(forced, r))
      else preset[r]
  }

  /** `addroles[role] = max(addroles.get(role, num), len(FORCE_ROLES.get(role, ())))`
      for every base role, in any order. */
  method ApplyFloors(preset: Counter, base: Counter, forced: map<Role, set<Player>>)
    returns (add: Counter)
    ensures add == Floored(preset, base, forced)
    ensures add.Keys == preset.Keys + base.Keys
    ensures forall r :: r in base ==>
      add[r] == Max(if r in preset then preset[r] else base[r], ForcedCount(forced, r))
    ensures forall r :: r in preset && r !in base ==> add[r] == preset[r]
  {
    add := preset;
    var todo := base.Keys;
    while todo != {}
      invariant todo <= base.Keys
      invariant add.Keys == preset.Keys + (base.Keys - todo)
      invariant forall r :: r in base && r !in todo ==>
        add[r] == Max(if r in preset then preset[r] else base[r], ForcedCount(forced, r))
      invariant forall r :: r in add && (r !in base || r in todo) ==> add[r] == preset[r]
      decreases todo
    {
      var role :| role in todo;
      todo := todo - {role};
      var num := base[role];
      add := add[role := Max(if role in add then add[role] else num, ForcedCount(forced, role))];
    }
    assert add.Keys == Floored(preset, base, forced).Keys;
  }

  /** `for role in All: addroles.setdefault(role, 0)` */
  method SetDefaults(add: Counter, all: set<Role>) returns (r: Counter)
    ensures r.Keys == add.Keys + all
    ensures forall k :: k in add ==> r[k] == add[k]
    ensures forall k :: k in r && k !in add ==> r[k] == 0
  {
    r := add;
    var todo := all;
    while todo != {}
      invariant todo <= all
      invariant r.Keys == add.Keys + (all - todo)
      invariant forall k :: k in add ==> r[k] == add[k]
      invariant forall k :: k in r && k !in add ==> r[k] == 0
      decreases todo
    {
      var role :| role in todo;
      todo := todo - {role};
      if role !in r {
        r := r[role := 0];
      }
    }
  }

  /** The sum that the population check compares with the roster size. */
  ghost function PrimaryTotal(add: Counter, secondary: set<Role>): int {
    SumOver(add, add.Keys - secondary)
  }

  /** The population check, then `setdefault(role, 0)` for the whole catalogue. */
  method CheckPopulation(add: Counter, n: int, secondary: set<Role>, all: set<Role>)
    returns (r: Result<Counter>)
    ensures r.Err? <==> PrimaryTotal(add, secondary) > n
    ensures r.Err? ==> r.error == TooManyRoles
    ensures r.Ok? ==> r.value.Keys == add.Keys + all
    ensures r.Ok? ==> forall k :: k in add ==> r.value[k] == add[k]
    ensures r.Ok? ==> forall k :: k in r.value && k !in add ==> r.value[k] == 0
    ensures r.Ok? ==> PrimaryTotal(r.value, secondary) <= n
  {
    var total := SumCounts(add, add.Keys - secondary);
    if total > n {
      return Err(TooManyRoles);
    }
    var full := SetDefaults(add, all);
    assert full.Keys - secondary == (add.Keys - secondary) + ((full.Keys - add.Keys) - secondary);
    SumOverZeroKeys(add, add.Keys - secondary, (full.Keys - add.Keys) - secondary);
    SumOverSameCounts(full, add, full.Keys - secondary);
    r := Ok(full);
  }

  /** The guide counter for `n` players with the "-" entries applied. */
  method ResolveBase(guide: seq<Tier>, n: int) returns (r: Result<Counter>)
    ensures r.Err? <==> "" in GuideCounter(guide, n)
    ensures r.Err? ==> r.error.Crash?
    ensures r.Ok? ==> NetOfNegations(GuideCounter(guide, n), r.value)
  {
    var roles := CollectTiers(guide, n);
    var defroles := CounterOf(StripAll(roles));
    r := ApplyNegations(defroles);
  }

  /** The default multiset resolution. `preset` is what `role_attribution`
      listeners left in `addroles`; `base` is the subtracted guide counter. */
  method ResolveAddroles(guide: seq<Tier>, n: int, preset: Counter,
                         forced: map<Role, set<Player>>, secondary: set<Role>, all: set<Role>)
    returns (r: Result<Counter>, base: Counter)
    ensures r.Err? && r.error.Crash? <==> "" in GuideCounter(guide, n)
    ensures "" !in GuideCounter(guide, n) ==> NetOfNegations(GuideCounter(guide, n), base)
    ensures r == Err(NoSettingsDefined) <==> "" !in GuideCounter(guide, n) && base == map[]
    ensures r == Err(TooManyRoles) <==>
      "" !in GuideCounter(guide, n) && base != map[] && PrimaryTotal(Floored(preset, base, forced), secondary) > n
    ensures r.Err? ==> r.error.Crash? || r.error == NoSettingsDefined || r.error == TooManyRoles
    ensures r.Ok? ==> all <= r.value.Keys && base.Keys <= r.value.Keys && preset.Keys <= r.value.Keys
    ensures r.Ok? ==> forall x :: x in base ==> r.value[x] >= ForcedCount(forced, x)
    ensures r.Ok? ==> forall x :: x in base ==> r.value[x] >= (if x in preset then preset[x] else base[x])
    ensures r.Ok? ==> forall x :: x in preset && x !in base ==> r.value[x] == preset[x]
    ensures r.Ok? ==> PrimaryTotal(r.value, secondary) <= n
  {
    var net := ResolveBase(guide, n);
    base := map[];
    if net.Err? {
      return Err(net.error), base;
    }
    base := net.value;
    if base == map[] {
      return Err(NoSettingsDefined), base;
    }
    var add := ApplyFloors(preset, base, forced);
    r := CheckPopulation(add, n, secondary, all);
  }
}
