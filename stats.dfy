/** Publishing the role statistics (`var.ROLE_STATS`): every possible roleset
    is offered to the `reconfigure_stats` listeners, which may replace it by
    any list of rolesets, and the results whose every count is non-negative
    are kept as a set. */
module Stats {
  import opened Common

  /** Every roleset the listeners hand back, in order. `reconfigure` stands for
      all `reconfigure_stats` listeners together: it receives one possible
      roleset and returns `event.data["new"]`, which is `[pr]` when no
      listener rewrites it. */
  function Outputs(possible: seq<Counter>, reconfigure: Counter -> seq<Counter>): (out: seq<Counter>)
    ensures forall v :: v in out <==> exists i :: 0 <= i < |possible| && v in reconfigure(possible[i])
  {
    if |possible| == 0 then []
    else
      var rest := possible[..|possible| - 1];
      assert forall i :: 0 <= i < |rest| ==> rest[i] == possible[i];
      Outputs(rest, reconfigure) + reconfigure(possible[|possible| - 1])
  }

  /** The loops collapsing the possible rolesets into `var.ROLE_STATS`;
      `min(v.values())` raises ValueError on an empty roleset, before the
      statistics are replaced. */
  method PublishStats(possible: seq<Counter>, reconfigure: Counter -> seq<Counter>)
    returns (r: Result<set<Counter>>)
    ensures r.Err? <==> map[] in Outputs(possible, reconfigure)
    ensures r.Err? ==> r.error.Crash?
    ensures r.Ok? ==> forall v :: v in r.value <==> v in Outputs(possible, reconfigure) && NonNegative(v)
  {
    var stats: set<Counter> := {};
    for i := 0 to |possible|
      invariant map[] !in Outputs(possible[..i], reconfigure)
      invariant forall v :: v in stats <==> v in Outputs(possible[..i], reconfigure) && NonNegative(v)
    {
      var pr := possible[i];
      var vs := reconfigure(pr);
      assert possible[..i + 1][..i] == possible[..i];
      for j := 0 to |vs|
        invariant map[] !in vs[..j]
        invariant forall v :: v in stats <==> (v in Outputs(possible[..i], reconfigure) || v in vs[..j]) && NonNegative(v)
      {
        if vs[j] == map[] {
          assert map[] in Outputs(possible[..i + 1], reconfigure);
          return Err(Crash("ValueError: min() of an empty roleset"));
        }
        if NonNegative(vs[j]) {
          stats := stats + {vs[j]};
        }
        assert vs[..j + 1] == vs[..j] + [vs[j]];
      }
      assert vs[..|vs|] == vs;
    }
    assert possible[..|possible|] == possible;
    return Ok(stats);
  }

  /** Without rewriting listeners the statistics are the non-negative
      possible rolesets, and an empty possible roleset raises. */
  lemma PlainStats(possible: seq<Counter>)
    ensures forall v :: v in Outputs(possible, x => [x]) <==> v in possible
  {
    forall v ensures v in Outputs(possible, x => [x]) <==> v in possible {
      if v in possible {
        var i :| 0 <= i < |possible| && possible[i] == v;
        assert v in (x => [x])(possible[i]);
      }
    }
  }
}
