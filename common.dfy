/** Value types shared by the game-start model: players, role names and the
    role counters (Python's collections.Counter) that the role-assignment
    engine builds and merges. */
module Common {

  /** A participant; the bot keys players by user object, an identifier suffices here. */
  type Player = nat

  /** Role names and gamemode names are plain strings. */
  type Role = string
  type Mode = string

  datatype Option<T> = None | Some(value: T)

  /** Why a start request stops before the game begins; `Crash` stands for an
      exception the source lets escape. */
  datatype StartError =
    | RateLimited | Aborted
    | NoGameRunning | AlreadyRunning | NotPlaying | PleaseWait
    | NotEnoughPlayers | TooManyPlayers
    | AlreadyVoted | Voted(remaining: int)
    | NoGamemode | NoSettingsDefined | TooManyRoles
    | TooFewPlayersCustom | NeedOneWolf | TooManyWolves
    | ForcedTooMany(role: Role) | NotEnoughTargets(role: Role)
    | Crash(reason: string)

  datatype Result<T> = Ok(value: T) | Err(error: StartError)

  /** The coarse session phase (`var.PHASE`). */
  datatype Phase = NoGame | Join | Day | Night

  /** A Counter: a missing key reads as zero and stored counts may be zero or negative. */
  type Counter = map<Role, int>

  /** `c[r]` on a Counter. */
  function Get(c: Counter, r: Role): int {
    if r in c then c[r] else 0
  }

  /** `c[r] += n` on a Counter: the key is inserted even when `n` is zero. */
  function Bump(c: Counter, r: Role, n: int): (d: Counter)
    ensures d.Keys == c.Keys + {r}
    ensures Get(d, r) == Get(c, r) + n
    ensures forall q :: q != r ==> Get(d, q) == Get(c, q)
  {
    c[r := Get(c, r) + n]
  }

  /** `Counter(a); update(b)`: key-wise sum of two counters. */
  function Merge(a: Counter, b: Counter): (m: Counter)
    ensures m.Keys == a.Keys + b.Keys
    ensures forall r :: Get(m, r) == Get(a, r) + Get(b, r)
  {
    map r | r in a.Keys + b.Keys :: Get(a, r) + Get(b, r)
  }

  /** `Counter(xs)` for a list of role names. */
  function CounterOf(xs: seq<Role>): (c: Counter)
    ensures forall r :: Get(c, r) == multiset(xs)[r]
    ensures c.Keys == set r | r in xs
  {
    map r | r in xs :: multiset(xs)[r]
  }

  /** Two counters are equal as Counters (missing keys count as zero). */
  ghost predicate SameCounts(a: Counter, b: Counter) {
    forall r :: Get(a, r) == Get(b, r)
  }

  /** `min(v.values()) >= 0`, which raises on an empty counter. */
  predicate NonNegative(v: Counter) {
    forall r :: r in v ==> v[r] >= 0
  }

  /** The sum of `c[k]` over a finite set of keys, in no particular order. */
  ghost function SumOver(c: Counter, keys: set<Role>): int
    decreases keys
  {
    if keys == {} then 0
    else
      var k :| k in keys;
      Get(c, k) + SumOver(c, keys - {k})
  }

  /** The sum does not depend on which key is taken first. */
  lemma {:induction false} SumOverRemove(c: Counter, keys: set<Role>, k: Role)
    requires k in keys
    ensures SumOver(c, keys) == Get(c, k) + SumOver(c, keys - {k})
    decreases keys
  {
    var j :| j in keys && SumOver(c, keys) == Get(c, j) + SumOver(c, keys - {j});
    if j != k {
      SumOverRemove(c, keys - {j}, k);
      SumOverRemove(c, keys - {k}, j);
      assert keys - {j} - {k} == keys - {k} - {j};
    }
  }

  /** Adding a key that is not yet summed adds its count. */
  lemma SumOverAdd(c: Counter, keys: set<Role>, k: Role)
    requires k !in keys
    ensures SumOver(c, keys + {k}) == SumOver(c, keys) + Get(c, k)
  {
    SumOverRemove(c, keys + {k}, k);
    assert keys + {k} - {k} == keys;
  }

  /** `sum(c[k] for k in keys)` computed by a loop in any iteration order. */
  method SumCounts(c: Counter, keys: set<Role>) returns (s: int)
    ensures s == SumOver(c, keys)
  {
    s := 0;
    var todo := keys;
    while todo != {}
      invariant todo <= keys
      invariant s == SumOver(c, keys - todo)
      decreases todo
    {
      var k :| k in todo;
      SumOverAdd(c, keys - todo, k);
      assert keys - (todo - {k}) == (keys - todo) + {k};
      s := s + Get(c, k);
      todo := todo - {k};
    }
    assert keys - todo == keys;
  }

  /** `[x] * k`. */
  function Repeat<T>(x: T, k: nat): (r: seq<T>)
    ensures |r| == k
    ensures multiset(r)[x] == k
    ensures forall i :: 0 <= i < |r| ==> r[i] == x
  {
    if k == 0 then [] else [x] + Repeat(x, k - 1)
  }

  /** `[x] * k`, which is empty for a negative `k`. */
  function Times<T>(x: T, k: int): (r: seq<T>)
    ensures multiset(r)[x] == Max(k, 0)
    ensures forall i :: 0 <= i < |r| ==> r[i] == x
  {
    Repeat(x, Max(k, 0))
  }

  /** A sum of non-negative counts is non-negative. */
  lemma {:induction false} SumOverNonNegative(c: Counter, keys: set<Role>)
    requires forall k :: k in keys ==> Get(c, k) >= 0
    ensures SumOver(c, keys) >= 0
    decreases keys
  {
    if keys != {} {
      var k :| k in keys;
      SumOverRemove(c, keys, k);
      SumOverNonNegative(c, keys - {k});
    }
  }

  /** Two counters that agree on every count have the same sums. */
  lemma {:induction false} SumOverSameCounts(a: Counter, b: Counter, keys: set<Role>)
    requires SameCounts(a, b)
    ensures SumOver(a, keys) == SumOver(b, keys)
    decreases keys
  {
    if keys != {} {
      var k :| k in keys;
      SumOverRemove(a, keys, k);
      SumOverRemove(b, keys, k);
      SumOverSameCounts(a, b, keys - {k});
    }
  }

  /** A sum over two disjoint key sets is the sum of the two sums. */
  lemma {:induction false} SumOverSplit(c: Counter, a: set<Role>, b: set<Role>)
    requires a !! b
    ensures SumOver(c, a + b) == SumOver(c, a) + SumOver(c, b)
    decreases b
  {
    if b == {} {
      assert a + b == a;
    } else {
      var k :| k in b;
      SumOverSplit(c, a, b - {k});
      SumOverAdd(c, a + (b - {k}), k);
      SumOverRemove(c, b, k);
      assert a + (b - {k}) + {k} == a + b;
    }
  }

  /** Keys whose count is zero add nothing to a sum. */
  lemma {:induction false} SumOverZeroKeys(c: Counter, keys: set<Role>, zeros: set<Role>)
    requires keys !! zeros
    requires forall z :: z in zeros ==> Get(c, z) == 0
    ensures SumOver(c, keys + zeros) == SumOver(c, keys)
    decreases zeros
  {
    if zeros != {} {
      var z :| z in zeros;
      var rest := keys + (zeros - {z});
      SumOverZeroKeys(c, keys, zeros - {z});
      SumOverAdd(c, rest, z);
      assert rest + {z} == keys + zeros;
    } else {
      assert keys + zeros == keys;
    }
  }

  function Min(a: int, b: int): int { if a <= b then a else b }
  function Max(a: int, b: int): int { if a >= b then a else b }
}
