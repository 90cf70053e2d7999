/** Roleset expansion (`start`, after the population check): an alias such
    as "gunner/sharpshooter" stands for a group of interchangeable roles. The
    alias is replaced by a committed `random.sample` of its elements, and the
    published statistics get one distribution per combination the sample
    could have been, crossed with the distributions built so far. The
    snapshot `list(addroles.items())` is walked in any order. */
module Rolesets {
  import opened Common
  import opened Combinatorics

  /** `Counter.elements()` repeats a key `max(count, 0)` times. */
  ghost function PositivePart(rs: Counter): Counter {
    map r | r in rs :: Max(rs[r], 0)
  }

  /** `len(list(rs.elements()))` */
  ghost function ElementTotal(rs: Counter): nat {
    SumOverNonNegative(PositivePart(rs), rs.Keys);
    SumOver(PositivePart(rs), rs.Keys)
  }

  /** `list(rs.elements())`, in any key order. */
  method ElementsOf(rs: Counter) returns (es: seq<Role>)
    ensures forall r :: multiset(es)[r] == Max(Get(rs, r), 0)
    ensures |es| == ElementTotal(rs)
  {
    es := [];
    var todo := rs.Keys;
    while todo != {}
      invariant todo <= rs.Keys
      invariant forall r :: multiset(es)[r] == (if r in rs && r !in todo then Max(rs[r], 0) else 0)
      invariant |es| == SumOver(PositivePart(rs), rs.Keys - todo)
      decreases todo
    {
      var r :| r in todo;
      SumOverAdd(PositivePart(rs), rs.Keys - todo, r);
      assert rs.Keys - (todo - {r}) == (rs.Keys - todo) + {r};
      todo := todo - {r};
      es := es + Times(r, rs[r]);
    }
    assert rs.Keys - todo == rs.Keys;
  }

  /** `random.sample(population, k)`, which raises ValueError when `k` is
      negative or larger than the population. */
  method Sample(population: seq<Role>, k: int) returns (r: Result<seq<Role>>)
    ensures r.Err? <==> k < 0 || k > |population|
    ensures r.Err? ==> r.error.Crash?
    ensures r.Ok? ==> IsSample(r.value, population, k)
  {
    if k < 0 || k > |population| {
      return Err(Crash("ValueError: sample larger than population or is negative"));
    }
    PrefixIsSample(population, k);
    var pick :| IsSample(pick, population, k);
    r := Ok(pick);
  }

  /** `for pr in possible_rolesets: pr[role] += amt` */
  method BumpAll(possible: seq<Counter>, role: Role, amt: int) returns (r: seq<Counter>)
    ensures |r| == |possible|
    ensures forall i :: 0 <= i < |r| ==> r[i] == Bump(possible[i], role, amt)
  {
    r := [];
    var i := 0;
    while i < |possible|
      invariant 0 <= i <= |possible|
      invariant |r| == i
      invariant forall j :: 0 <= j < i ==> r[j] == Bump(possible[j], role, amt)
    {
      r := r + [Bump(possible[i], role, amt)];
      i := i + 1;
    }
  }

  /** `for r in rs: for pr in possible_rolesets: pr[r] += 0`: every distribution
      gets the group's keys, with unchanged counts. */
  method ZeroKeys(possible: seq<Counter>, keys: set<Role>) returns (r: seq<Counter>)
    ensures |r| == |possible|
    ensures forall i :: 0 <= i < |r| ==> r[i].Keys == possible[i].Keys + keys
    ensures forall i :: 0 <= i < |r| ==> SameCounts(r[i], possible[i])
  {
    r := possible;
    var todo := keys;
    while todo != {}
      invariant todo <= keys
      invariant |r| == |possible|
      invariant forall i :: 0 <= i < |r| ==> r[i].Keys == possible[i].Keys + (keys - todo)
      invariant forall i :: 0 <= i < |r| ==> SameCounts(r[i], possible[i])
      decreases todo
    {
      var k :| k in todo;
      todo := todo - {k};
      var j := 0;
      while j < |r|
        invariant 0 <= j <= |r| == |possible|
        invariant forall i :: 0 <= i < j ==> r[i].Keys == possible[i].Keys + (keys - todo)
        invariant forall i :: j <= i < |r| ==> r[i].Keys == possible[i].Keys + (keys - todo - {k})
        invariant forall i :: 0 <= i < |r| ==> SameCounts(r[i], possible[i])
      {
        r := r[j := Bump(r[j], k, 0)];
        j := j + 1;
      }
    }
  }

  /** `[Counter(c) for c in combos]` */
  method CountersOf(combos: seq<seq<Role>>) returns (r: seq<Counter>)
    ensures |r| == |combos|
    ensures forall i :: 0 <= i < |r| ==> r[i] == CounterOf(combos[i])
  {
    r := [];
    var i := 0;
    while i < |combos|
      invariant 0 <= i <= |combos|
      invariant |r| == i
      invariant forall j :: 0 <= j < i ==> r[j] == CounterOf(combos[j])
    {
      r := r + [CounterOf(combos[i])];
      i := i + 1;
    }
  }

  /** One distribution merged with every alternative, in order. */
  function Row(pr: Counter, adds: seq<Counter>): (row: seq<Counter>)
    ensures |row| == |adds|
    ensures forall j :: 0 <= j < |adds| ==> row[j] == Merge(pr, adds[j])
  {
    seq(|adds|, j requires 0 <= j < |adds| => Merge(pr, adds[j]))
  }

  /** The cross product the nested loop builds, row by row. */
  function Rows(possible: seq<Counter>, adds: seq<Counter>): seq<Counter> {
    if possible == [] then []
    else Rows(possible[..|possible| - 1], adds) + Row(possible[|possible| - 1], adds)
  }

  /** The cross product has one entry per pair. */
  lemma {:induction false} RowsLength(possible: seq<Counter>, adds: seq<Counter>)
    ensures |Rows(possible, adds)| == |possible| * |adds|
  {
    if possible != [] {
      RowsLength(possible[..|possible| - 1], adds);
      assert |possible| * |adds| == (|possible| - 1) * |adds| + |adds|;
    }
  }

  /** Every pair is in the cross product. */
  lemma {:induction false} RowsContains(possible: seq<Counter>, adds: seq<Counter>, i: nat, j: nat)
    requires i < |possible| && j < |adds|
    ensures Merge(possible[i], adds[j]) in Rows(possible, adds)
  {
    var init := possible[..|possible| - 1];
    if i < |init| {
      RowsContains(init, adds, i, j);
      assert init[i] == possible[i];
    } else {
      assert Row(possible[i], adds)[j] == Merge(possible[i], adds[j]);
    }
  }

  /** The cross product holds nothing but pairs. */
  lemma {:induction false} RowsOnlyPairs(possible: seq<Counter>, adds: seq<Counter>, c: Counter)
    requires c in Rows(possible, adds)
    ensures exists i, j :: 0 <= i < |possible| && 0 <= j < |adds| && c == Merge(possible[i], adds[j])
  {
    var init, last := possible[..|possible| - 1], possible[|possible| - 1];
    if c in Row(last, adds) {
      var j :| 0 <= j < |adds| && Row(last, adds)[j] == c;
      assert c == Merge(possible[|possible| - 1], adds[j]);
    } else {
      RowsOnlyPairs(init, adds, c);
      var i, j :| 0 <= i < |init| && 0 <= j < |adds| && c == Merge(init[i], adds[j]);
      assert init[i] == possible[i];
    }
  }

  /** `for pr in possible_rolesets: for ar in add_rolesets: temp_rolesets.append(pr + ar)` */
  method CrossMerge(possible: seq<Counter>, adds: seq<Counter>) returns (temp: seq<Counter>)
    ensures temp == Rows(possible, adds)
  {
    temp := [];
    var i := 0;
    while i < |possible|
      invariant 0 <= i <= |possible|
      invariant temp == Rows(possible[..i], adds)
    {
      var j := 0;
      ghost var done := temp;
      while j < |adds|
        invariant 0 <= j <= |adds|
        invariant temp == done + Row(possible[i], adds[..j])
      {
        assert Row(possible[i], adds[..j + 1]) == Row(possible[i], adds[..j]) + [Merge(possible[i], adds[j])];
        temp := temp + [Merge(possible[i], adds[j])];
        j := j + 1;
      }
      assert adds[..j] == adds;
      assert possible[..i + 1][..i] == possible[..i];
      i := i + 1;
    }
    assert possible[..i] == possible;
  }

  /** `for r in toadd: addroles[r] += 1` */
  method AddEach(add: Counter, toadd: seq<Role>) returns (r: Counter)
    ensures r.Keys == add.Keys + set x | x in toadd
    ensures forall k :: Get(r, k) == Get(add, k) + multiset(toadd)[k]
  {
    r := add;
    var i := 0;
    while i < |toadd|
      invariant 0 <= i <= |toadd|
      invariant r.Keys == add.Keys + set x | x in toadd[..i]
      invariant forall k :: Get(r, k) == Get(add, k) + multiset(toadd[..i])[k]
    {
      assert toadd[..i + 1] == toadd[..i] + [toadd[i]];
      r := Bump(r, toadd[i], 1);
      i := i + 1;
    }
    assert toadd[..i] == toadd;
  }

  /** The factor an entry contributes to the number of distributions: C(g, amt)
      for an alias whose group has g elements, 1 for a plain role. */
  ghost function Factors(d: Counter, roleSets: map<Role, Counter>): Counter {
    map k | k in d :: if k in roleSets then Binom(ElementTotal(roleSets[k]), Max(d[k], 0)) else 1
  }

  /** The product of `c[k]` over a finite set of keys, in no particular order. */
  ghost function ProductOver(c: Counter, keys: set<Role>): int
    decreases keys
  {
    if keys == {} then 1
    else
      var k :| k in keys;
      Get(c, k) * ProductOver(c, keys - {k})
  }

  /** The product does not depend on which key is taken first. */
  lemma {:induction false} ProductOverRemove(c: Counter, keys: set<Role>, k: Role)
    requires k in keys
    ensures ProductOver(c, keys) == Get(c, k) * ProductOver(c, keys - {k})
    decreases keys
  {
    var j :| j in keys && ProductOver(c, keys) == Get(c, j) * ProductOver(c, keys - {j});
    if j != k {
      ProductOverRemove(c, keys - {j}, k);
      ProductOverRemove(c, keys - {k}, j);
      assert keys - {j} - {k} == keys - {k} - {j};
      MulSwap(Get(c, j), Get(c, k), ProductOver(c, keys - {j} - {k}));
    }
  }

  lemma MulSwap(a: int, b: int, x: int)
    ensures a * (b * x) == b * (a * x)
  {
  }

  /** Another key multiplies the product by its factor. */
  lemma ProductOverAdd(c: Counter, keys: set<Role>, k: Role)
    requires k !in keys
    ensures ProductOver(c, keys + {k}) == ProductOver(c, keys) * Get(c, k)
  {
    ProductOverRemove(c, keys + {k}, k);
    assert keys + {k} - {k} == keys;
    MulComm(Get(c, k), ProductOver(c, keys));
  }

  lemma MulComm(a: int, b: int)
    ensures a * b == b * a
  {
  }

  /** No group lists an alias of the snapshot as one of its roles. When one
      does, the committed sample can re-add an alias that a later step
      deletes again, and the statistics need not contain the committed
      counter; the contracts below that need it say so. */
  ghost predicate NoNestedAliases(d: Counter, roleSets: map<Role, Counter>) {
    forall a, b :: a in d && a in roleSets && b in d && b in roleSets ==> Get(roleSets[b], a) <= 0
  }

  /** The sample is drawn from the group: no role more often than the group holds it. */
  ghost predicate DrawnFrom(pick: seq<Role>, rs: Counter) {
    forall r :: multiset(pick)[r] <= Max(Get(rs, r), 0)
  }

  /** Everything the committed samples added, in processing order. */
  ghost function Drawn(picks: seq<(Role, seq<Role>)>): multiset<Role> {
    if picks == [] then multiset{}
    else Drawn(picks[..|picks| - 1]) + multiset(picks[|picks| - 1].1)
  }

  /** An alias of the snapshot whose amount `random.sample` refuses. */
  ghost predicate BadAmount(d: Counter, roleSets: map<Role, Counter>) {
    exists a :: a in d && a in roleSets && (d[a] < 0 || d[a] > ElementTotal(roleSets[a]))
  }

  /** The expanded multiset and the possible distributions. */
  datatype Expansion = Expansion(addroles: Counter, possible: seq<Counter>)

  /** One alias: `del addroles[role]`, the zero keys, the committed sample
      added to `addroles`, and the cross product with every combination.
      `target` is a distribution of `possible`; `target'` is the one that the
      committed sample turns it into. */
  method ExpandAlias(add: Counter, possible: seq<Counter>, role: Role, rs: Counter, amt: int,
                     ghost target: Counter)
    returns (r: Result<Expansion>, toadd: seq<Role>, ghost target': Counter)
    requires target in possible
    ensures r.Err? <==> amt < 0 || amt > ElementTotal(rs)
    ensures r.Err? ==> r.error.Crash?
    ensures r.Ok? ==> |toadd| == amt && DrawnFrom(toadd, rs)
    ensures r.Ok? ==> |r.value.possible| == |possible| * Binom(ElementTotal(rs), Max(amt, 0))
    ensures r.Ok? ==> forall k ::
      Get(r.value.addroles, k) == (if k == role then 0 else Get(add, k)) + multiset(toadd)[k]
    ensures r.Ok? ==> r.value.addroles.Keys == (add.Keys - {role}) + set x | x in toadd
    ensures r.Ok? ==> target' in r.value.possible
    ensures r.Ok? ==> forall k :: Get(target', k) == Get(target, k) + multiset(toadd)[k]
  {
    var add' := add - {role};
    assert forall k :: Get(add', k) == (if k == role then 0 else Get(add, k));
    var es := ElementsOf(rs);
    var zeroed := ZeroKeys(possible, rs.Keys);
    var sample := Sample(es, amt);
    if sample.Err? {
      return Err(sample.error), [], target;
    }
    toadd := sample.value;
    add' := AddEach(add', toadd);
    var combos := Combinations(es, amt);
    CombinationsCount(es, amt);
    var adds := CountersOf(combos);
    var possible' := CrossMerge(zeroed, adds);
    RowsLength(zeroed, adds);
    target' := TargetExpands(possible, zeroed, es, combos, adds, target, toadd);
    r := Ok(Expansion(add', possible'));
  }

  /** The distribution that the committed sample turns `target` into is
      among the cross product of the zeroed distributions with every combination. */
  lemma TargetExpands(possible: seq<Counter>, zeroed: seq<Counter>, es: seq<Role>, combos: seq<seq<Role>>,
                      adds: seq<Counter>, target: Counter, toadd: seq<Role>)
    returns (target': Counter)
    requires target in possible && |zeroed| == |possible|
    requires forall i :: 0 <= i < |zeroed| ==> SameCounts(zeroed[i], possible[i])
    requires multiset(toadd) <= multiset(es) && combos == Combinations(es, |toadd|)
    requires |adds| == |combos| && forall i :: 0 <= i < |adds| ==> adds[i] == CounterOf(combos[i])
    ensures target' in Rows(zeroed, adds)
    ensures forall k :: Get(target', k) == Get(target, k) + multiset(toadd)[k]
  {
    var i :| 0 <= i < |possible| && possible[i] == target;
    SubmultisetIsCombination(es, multiset(toadd));
    var c :| c in combos && multiset(c) == multiset(toadd);
    var j :| 0 <= j < |combos| && combos[j] == c;
    RowsContains(zeroed, adds, i, j);
    target' := Merge(zeroed[i], adds[j]);
    assert SameCounts(zeroed[i], possible[i]);
  }

  /** Aliases not yet reached keep their amount; those done are gone. */
  ghost predicate AliasesTracked(d: Counter, roleSets: map<Role, Counter>, todo: set<Role>, add: Counter) {
    forall a :: a in d && a in roleSets ==>
      (a in todo ==> Get(add, a) == d[a]) && (a !in todo ==> a !in add)
  }

  /** `addroles` is the snapshot amounts still standing plus what the samples drew. */
  ghost predicate DrawsTracked(d: Counter, roleSets: map<Role, Counter>, todo: set<Role>,
                               add: Counter, picks: seq<(Role, seq<Role>)>) {
    forall k :: Get(add, k) == (if k in d && (k in todo || k !in roleSets) then d[k] else 0) + Drawn(picks)[k]
  }

  /** One distribution of `possible` plus the entries not yet reached is `addroles`. */
  ghost predicate TargetTracked(d: Counter, todo: set<Role>, add: Counter, target: Counter) {
    forall k :: Get(add, k) == Get(target, k) + (if k in todo then Get(d, k) else 0)
  }

  /** What the loop keeps between `addroles`, the samples so far and one
      tracked distribution, when no group names an alias. */
  ghost predicate Tracks(d: Counter, roleSets: map<Role, Counter>, todo: set<Role>,
                         add: Counter, picks: seq<(Role, seq<Role>)>, target: Counter) {
    AliasesTracked(d, roleSets, todo, add) && DrawsTracked(d, roleSets, todo, add, picks) &&
    TargetTracked(d, todo, add, target)
  }

  /** A plain entry only moves its amount into the tracked distribution. */
  lemma PlainKeepsTracks(d: Counter, roleSets: map<Role, Counter>, todo: set<Role>,
                         add: Counter, picks: seq<(Role, seq<Role>)>, target: Counter, role: Role)
    requires role in todo && role in d && role !in roleSets
    requires Tracks(d, roleSets, todo, add, picks, target)
    ensures Tracks(d, roleSets, todo - {role}, add, picks, Bump(target, role, d[role]))
  {
  }

  /** A sample from a group that names no alias draws no alias. */
  lemma NoAliasDrawn(d: Counter, roleSets: map<Role, Counter>, role: Role, toadd: seq<Role>, a: Role)
    requires NoNestedAliases(d, roleSets)
    requires role in d && role in roleSets && DrawnFrom(toadd, roleSets[role])
    requires a in d && a in roleSets
    ensures multiset(toadd)[a] == 0 && a !in toadd
  {
    assert Get(roleSets[role], a) <= 0;
  }

  /** An alias step keeps the alias bookkeeping. */
  lemma AliasKeepsAliases(d: Counter, roleSets: map<Role, Counter>, todo: set<Role>,
                          add: Counter, role: Role, add': Counter, toadd: seq<Role>)
    requires NoNestedAliases(d, roleSets)
    requires role in todo && role in d && role in roleSets
    requires AliasesTracked(d, roleSets, todo, add)
    requires DrawnFrom(toadd, roleSets[role])
    requires forall k :: Get(add', k) == (if k == role then 0 else Get(add, k)) + multiset(toadd)[k]
    requires add'.Keys == (add.Keys - {role}) + set x | x in toadd
    ensures AliasesTracked(d, roleSets, todo - {role}, add')
  {
    forall a | a in d && a in roleSets
      ensures (a in todo - {role} ==> Get(add', a) == d[a]) && (a !in todo - {role} ==> a !in add')
    {
      NoAliasDrawn(d, roleSets, role, toadd, a);
    }
  }

  /** An alias step keeps the draw bookkeeping. */
  lemma AliasKeepsDraws(d: Counter, roleSets: map<Role, Counter>, todo: set<Role>,
                        add: Counter, picks: seq<(Role, seq<Role>)>, role: Role,
                        add': Counter, toadd: seq<Role>)
    requires NoNestedAliases(d, roleSets)
    requires role in todo && role in d && role in roleSets
    requires AliasesTracked(d, roleSets, todo, add) && DrawsTracked(d, roleSets, todo, add, picks)
    requires DrawnFrom(toadd, roleSets[role])
    requires forall k :: Get(add', k) == (if k == role then 0 else Get(add, k)) + multiset(toadd)[k]
    ensures DrawsTracked(d, roleSets, todo - {role}, add', picks + [(role, toadd)])
  {
    var picks' := picks + [(role, toadd)];
    assert picks'[..|picks'| - 1] == picks;
    assert Drawn(picks') == Drawn(picks) + multiset(toadd);
    NoAliasDrawn(d, roleSets, role, toadd, role);
  }

  /** An alias step keeps the tracked distribution in step with `addroles`. */
  lemma AliasKeepsTarget(d: Counter, roleSets: map<Role, Counter>, todo: set<Role>,
                         add: Counter, target: Counter, role: Role,
                         add': Counter, toadd: seq<Role>, target': Counter)
    requires NoNestedAliases(d, roleSets)
    requires role in todo && role in d && role in roleSets
    requires AliasesTracked(d, roleSets, todo, add) && TargetTracked(d, todo, add, target)
    requires DrawnFrom(toadd, roleSets[role])
    requires forall k :: Get(add', k) == (if k == role then 0 else Get(add, k)) + multiset(toadd)[k]
    requires forall k :: Get(target', k) == Get(target, k) + multiset(toadd)[k]
    ensures TargetTracked(d, todo - {role}, add', target')
  {
    NoAliasDrawn(d, roleSets, role, toadd, role);
  }

  /** The aliases reached so far had amounts the sample accepts, and the
      distributions multiply by their factors. */
  ghost predicate CountInv(d: Counter, roleSets: map<Role, Counter>, todo: set<Role>, possible: seq<Counter>) {
    && todo <= d.Keys
    && (forall a :: a in d && a in roleSets && a !in todo ==> 0 <= d[a] <= ElementTotal(roleSets[a]))
    && |possible| == ProductOver(Factors(d, roleSets), d.Keys - todo)
  }

  /** One committed sample per alias reached, of its amount, from its group. */
  ghost predicate PicksInv(d: Counter, roleSets: map<Role, Counter>, todo: set<Role>,
                           picks: seq<(Role, seq<Role>)>) {
    && (set p | p in picks :: p.0) == (set a | a in d && a in roleSets && a !in todo)
    && (forall p :: p in picks ==>
          p.0 in d && p.0 in roleSets && |p.1| == d[p.0] && DrawnFrom(p.1, roleSets[p.0]))
  }

  /** The invariant of the expansion loop after the entries outside `todo`. */
  ghost predicate LoopInv(d: Counter, roleSets: map<Role, Counter>, todo: set<Role>, add: Counter,
                          possible: seq<Counter>, picks: seq<(Role, seq<Role>)>, target: Counter) {
    && CountInv(d, roleSets, todo, possible)
    && PicksInv(d, roleSets, todo, picks)
    && target in possible
    && (NoNestedAliases(d, roleSets) ==> Tracks(d, roleSets, todo, add, picks, target))
  }

  /** A plain entry: `for pr in possible_rolesets: pr[role] += amt`. */
  method PlainStep(d: Counter, roleSets: map<Role, Counter>, todo: set<Role>, add: Counter,
                   possible: seq<Counter>, ghost picks: seq<(Role, seq<Role>)>, ghost target: Counter,
                   role: Role)
    returns (possible': seq<Counter>, ghost target': Counter)
    requires LoopInv(d, roleSets, todo, add, possible, picks, target)
    requires role in todo && role !in roleSets
    ensures LoopInv(d, roleSets, todo - {role}, add, possible', picks, target')
  {
    ghost var F := Factors(d, roleSets);
    ghost var done := d.Keys - todo;
    assert d.Keys - (todo - {role}) == done + {role};
    ProductOverAdd(F, done, role);
    possible' := BumpAll(possible, role, d[role]);
    ghost var i :| 0 <= i < |possible| && possible[i] == target;
    if NoNestedAliases(d, roleSets) {
      PlainKeepsTracks(d, roleSets, todo, add, picks, target, role);
    }
    target' := possible'[i];
  }

  /** An alias entry multiplies the distributions by its factor. */
  lemma AliasKeepsCount(d: Counter, roleSets: map<Role, Counter>, todo: set<Role>,
                        possible: seq<Counter>, role: Role, possible': seq<Counter>)
    requires CountInv(d, roleSets, todo, possible)
    requires role in todo && role in roleSets
    requires 0 <= d[role] <= ElementTotal(roleSets[role])
    requires |possible'| == |possible| * Binom(ElementTotal(roleSets[role]), Max(d[role], 0))
    ensures CountInv(d, roleSets, todo - {role}, possible')
  {
    ghost var done := d.Keys - todo;
    assert d.Keys - (todo - {role}) == done + {role};
    ProductOverAdd(Factors(d, roleSets), done, role);
  }

  /** An alias entry records its sample. */
  lemma AliasKeepsPicks(d: Counter, roleSets: map<Role, Counter>, todo: set<Role>,
                        picks: seq<(Role, seq<Role>)>, role: Role, toadd: seq<Role>)
    requires PicksInv(d, roleSets, todo, picks)
    requires role in todo && role in d && role in roleSets
    requires |toadd| == d[role] && DrawnFrom(toadd, roleSets[role])
    ensures PicksInv(d, roleSets, todo - {role}, picks + [(role, toadd)])
  {
    var picks' := picks + [(role, toadd)];
    assert (set p | p in picks' :: p.0) == (set p | p in picks :: p.0) + {role};
  }

  /** The loop invariant survives an alias entry whose sample succeeded. */
  lemma AliasKeepsInv(d: Counter, roleSets: map<Role, Counter>, todo: set<Role>, add: Counter,
                      possible: seq<Counter>, picks: seq<(Role, seq<Role>)>, target: Counter, role: Role,
                      add': Counter, possible': seq<Counter>, toadd: seq<Role>, target': Counter)
    requires LoopInv(d, roleSets, todo, add, possible, picks, target)
    requires role in todo && role in roleSets
    requires 0 <= d[role] <= ElementTotal(roleSets[role])
    requires |toadd| == d[role] && DrawnFrom(toadd, roleSets[role])
    requires |possible'| == |possible| * Binom(ElementTotal(roleSets[role]), Max(d[role], 0))
    requires forall k :: Get(add', k) == (if k == role then 0 else Get(add, k)) + multiset(toadd)[k]
    requires add'.Keys == (add.Keys - {role}) + set x | x in toadd
    requires target' in possible'
    requires forall k :: Get(target', k) == Get(target, k) + multiset(toadd)[k]
    ensures LoopInv(d, roleSets, todo - {role}, add', possible', picks + [(role, toadd)], target')
  {
    AliasKeepsCount(d, roleSets, todo, possible, role, possible');
    AliasKeepsPicks(d, roleSets, todo, picks, role, toadd);
    if NoNestedAliases(d, roleSets) {
      AliasKeepsAliases(d, roleSets, todo, add, role, add', toadd);
      AliasKeepsDraws(d, roleSets, todo, add, picks, role, add', toadd);
      AliasKeepsTarget(d, roleSets, todo, add, target, role, add', toadd, target');
    }
  }

  /** An alias entry, or the ValueError of its sample. */
  method AliasStep(d: Counter, roleSets: map<Role, Counter>, todo: set<Role>, add: Counter,
                   possible: seq<Counter>, ghost picks: seq<(Role, seq<Role>)>, ghost target: Counter,
                   role: Role)
    returns (r: Result<Expansion>, ghost picks': seq<(Role, seq<Role>)>, ghost target': Counter)
    requires LoopInv(d, roleSets, todo, add, possible, picks, target)
    requires role in todo && role in roleSets
    ensures r.Err? ==> r.error.Crash? && (d[role] < 0 || d[role] > ElementTotal(roleSets[role]))
    ensures r.Ok? ==> LoopInv(d, roleSets, todo - {role}, r.value.addroles, r.value.possible, picks', target')
  {
    var toadd;
    r, toadd, target' := ExpandAlias(add, possible, role, roleSets[role], d[role], target);
    picks' := picks + [(role, toadd)];
    if r.Ok? {
      AliasKeepsInv(d, roleSets, todo, add, possible, picks, target, role,
                    r.value.addroles, r.value.possible, toadd, target');
    }
  }

  /** The invariant holds before the first entry. */
  lemma LoopStart(d: Counter, roleSets: map<Role, Counter>)
    ensures LoopInv(d, roleSets, d.Keys, d, [map[]], [], map[])
  {
    assert d.Keys - d.Keys == {};
  }

  /** Once every entry is reached, the invariant gives the contract of the loop. */
  lemma LoopDone(d: Counter, roleSets: map<Role, Counter>, add: Counter,
                 possible: seq<Counter>, picks: seq<(Role, seq<Role>)>, target: Counter)
    requires LoopInv(d, roleSets, {}, add, possible, picks, target)
    ensures !BadAmount(d, roleSets)
    ensures |possible| == ProductOver(Factors(d, roleSets), d.Keys)
    ensures (set p | p in picks :: p.0) == (set a | a in d && a in roleSets)
    ensures forall p :: p in picks ==>
      p.0 in d && p.0 in roleSets && |p.1| == d[p.0] && DrawnFrom(p.1, roleSets[p.0])
    ensures NoNestedAliases(d, roleSets) ==> forall a :: a in d && a in roleSets ==> a !in add
    ensures NoNestedAliases(d, roleSets) ==>
      forall k :: Get(add, k) == (if k in d && k !in roleSets then d[k] else 0) + Drawn(picks)[k]
    ensures NoNestedAliases(d, roleSets) ==>
      exists i :: 0 <= i < |possible| && SameCounts(possible[i], add)
  {
    assert d.Keys - {} == d.Keys;
    if NoNestedAliases(d, roleSets) {
      ghost var i :| 0 <= i < |possible| && possible[i] == target;
      assert SameCounts(possible[i], add);
    }
  }

  /** The expansion loop. `d` is `addroles` when the loop starts; `picks`
      records each alias with its committed sample. */
  method Expand(d: Counter, roleSets: map<Role, Counter>)
    returns (r: Result<Expansion>, ghost picks: seq<(Role, seq<Role>)>)
    ensures r.Err? <==> BadAmount(d, roleSets)
    ensures r.Err? ==> r.error.Crash?
    ensures r.Ok? ==> |r.value.possible| == ProductOver(Factors(d, roleSets), d.Keys)
    ensures r.Ok? ==> (set p | p in picks :: p.0) == (set a | a in d && a in roleSets)
    ensures r.Ok? ==> forall p :: p in picks ==>
      p.0 in d && p.0 in roleSets && |p.1| == d[p.0] && DrawnFrom(p.1, roleSets[p.0])
    ensures r.Ok? && NoNestedAliases(d, roleSets) ==>
      forall a :: a in d && a in roleSets ==> a !in r.value.addroles
    ensures r.Ok? && NoNestedAliases(d, roleSets) ==>
      forall k :: Get(r.value.addroles, k) == (if k in d && k !in roleSets then d[k] else 0) + Drawn(picks)[k]
    ensures r.Ok? && NoNestedAliases(d, roleSets) ==>
      exists i :: 0 <= i < |r.value.possible| && SameCounts(r.value.possible[i], r.value.addroles)
  {
    var add := d;
    var possible: seq<Counter> := [map[]];
    picks := [];
    ghost var target: Counter := map[];
    var todo := d.Keys;
    LoopStart(d, roleSets);
    while todo != {}
      invariant LoopInv(d, roleSets, todo, add, possible, picks, target)
      decreases todo
    {
      var role :| role in todo;
      if role !in roleSets {
        possible, target := PlainStep(d, roleSets, todo, add, possible, picks, target, role);
      } else {
        var step;
        step, picks, target := AliasStep(d, roleSets, todo, add, possible, picks, target, role);
        if step.Err? {
          assert BadAmount(d, roleSets) by { assert role in d && role in roleSets; }
          return Err(step.error), picks;
        }
        add, possible := step.value.addroles, step.value.possible;
      }
      todo := todo - {role};
    }
    LoopDone(d, roleSets, add, possible, picks, target);
    r := Ok(Expansion(add, possible));
  }
}
