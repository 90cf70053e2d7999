/** Seating the secondary roles (`start`, after the statistics are
    published): every secondary role of the gamemode, in any order, gets its
    forced players plus a random sample of the players eligible for it, up
    to the count reserved for it while the main roles were seated. */
module Secondary {
  import opened Common
  import opened RoleGuide
  import opened Assignment

  /** How many players are still drawn for `r` once its forced players are in. */
  function Wanted(roles: map<Role, Holders>, forced: map<Role, set<Player>>, r: Role): int
    requires r in roles
  {
    HolderCount(roles[r]) - ForcedCount(forced, r)
  }

  /** The holders of the secondary role `r` once seated from `before`, where
      `pool` is what `get_players(dfn)` returned and `drawn` the sample. A
      role already covered by its forced players, or short of eligible
      players outside custom settings, draws nobody. */
  ghost predicate SecondaryDone(forced: map<Role, set<Player>>, r: Role, before: Holders, pool: set<Player>,
                                custom: bool, drawn: set<Player>, after: Holders) {
    var n := HolderCount(before) - ForcedCount(forced, r);
    && after == Users(ForcedOf(forced, r) + drawn)
    && drawn <= pool
    && (if n <= 0 || |pool| < n then drawn == {} else |drawn| == n)
    && (custom ==> n <= 0 || |pool| >= n)
  }

  /** The entries of `m` whose key is not in `ks`. */
  ghost function Outside(m: map<Role, Holders>, ks: set<Role>): map<Role, Holders> {
    map k | k in m && k !in ks :: m[k]
  }

  /** `snap` is `var.ROLES` at some point of this stage: only secondary roles differ from `roles`. */
  ghost predicate Snapshot(snap: map<Role, Holders>, roles: map<Role, Holders>, secondary: set<Role>) {
    snap.Keys == roles.Keys && Outside(snap, secondary) == Outside(roles, secondary)
  }

  /** Maps that agree outside `ks` agree outside every larger set. */
  lemma OutsideGrow(a: map<Role, Holders>, b: map<Role, Holders>, ks: set<Role>, ks2: set<Role>)
    requires Outside(a, ks) == Outside(b, ks) && ks <= ks2
    ensures Outside(a, ks2) == Outside(b, ks2)
  {
    forall k | k in Outside(a, ks2) ensures k in Outside(b, ks2) && Outside(a, ks2)[k] == Outside(b, ks2)[k] {
      assert k in Outside(a, ks);
    }
    forall k | k in Outside(b, ks2) ensures k in Outside(a, ks2) {
      assert k in Outside(b, ks);
    }
  }

  /** Maps that agree outside `ks` agree on every key outside it. */
  lemma OutsideAt(a: map<Role, Holders>, b: map<Role, Holders>, ks: set<Role>, k: Role)
    requires Outside(a, ks) == Outside(b, ks) && k in a && k !in ks
    ensures k in b && a[k] == b[k]
  {
    assert k in Outside(a, ks);
  }

  /** One iteration for `role`: `len(var.ROLES[role])` raises KeyError for a role
      that is neither in the catalogue nor played; `eligible` stands for
      `get_players`, applied to `var.ROLES` as it is at that moment. */
  method SecondaryStep(forced: map<Role, set<Player>>, custom: bool, roster: set<Player>,
                       roles: map<Role, Holders>, role: Role, dfn: set<Role>,
                       eligible: (map<Role, Holders>, set<Role>) -> set<Player>)
    returns (err: Option<StartError>, roles': map<Role, Holders>, sel: set<Player>)
    ensures err == Some(Crash("KeyError")) <==> role !in roles
    ensures err.None? ==> role in roles && role in roles' && roles' == roles[role := roles'[role]]
    ensures err.None? ==>
      SecondaryDone(forced, role, roles[role], eligible(roles[role := Users(ForcedOf(forced, role))], dfn),
                    custom, sel, roles'[role])
    ensures err.Some? && err.value != Crash("KeyError") ==>
      && role in roles && err.value == NotEnoughTargets(role) && custom
      && roles' == map["person" := Users(roster)]
      && 0 < Wanted(roles, forced, role)
      && |eligible(roles[role := Users(ForcedOf(forced, role))], dfn)| < Wanted(roles, forced, role)
  {
    sel := {};
    if role !in roles {
      return Some(Crash("KeyError")), roles, sel;
    }
    var count := HolderCount(roles[role]);
    var ps := ForcedOf(forced, role);
    roles' := roles[role := Users(ps)];
    count := count - |ps|;
    if count <= 0 {
      return None, roles', sel;
    }
    var possible := eligible(roles', dfn);
    if |possible| < count {
      if custom {
        return Some(NotEnoughTargets(role)), map["person" := Users(roster)], sel;
      }
      return None, roles', sel;
    }
    var r := SampleSet(possible, count);
    sel := r.value;
    roles' := roles'[role := Users(ps + sel)];
    err := None;
  }

  /** What the loop has done after the roles outside `todo`. */
  ghost predicate SecondaryInv(forced: map<Role, set<Player>>, dfns: map<Role, set<Role>>, custom: bool,
                               eligible: (map<Role, Holders>, set<Role>) -> set<Player>, roles0: map<Role, Holders>,
                               todo: set<Role>, roles: map<Role, Holders>,
                               snap: map<Role, map<Role, Holders>>, drawn: map<Role, set<Player>>) {
    && todo <= dfns.Keys
    && dfns.Keys - todo <= roles0.Keys
    && roles.Keys == roles0.Keys
    && Outside(roles, dfns.Keys - todo) == Outside(roles0, dfns.Keys - todo)
    && snap.Keys == dfns.Keys - todo
    && drawn.Keys == snap.Keys
    && (forall r :: Done(snap, r) ==> SettledIn(forced, dfns, custom, eligible, roles0, r, snap, drawn, roles))
  }

  ghost predicate Done(snap: map<Role, map<Role, Holders>>, r: Role) {
    r in snap
  }

  /** `Settled` for the recorded snapshot, sample and current holders of `r`. */
  ghost predicate SettledIn(forced: map<Role, set<Player>>, dfns: map<Role, set<Role>>, custom: bool,
                            eligible: (map<Role, Holders>, set<Role>) -> set<Player>, roles0: map<Role, Holders>,
                            r: Role, snap: map<Role, map<Role, Holders>>, drawn: map<Role, set<Player>>,
                            roles: map<Role, Holders>) {
    r in snap && r in drawn && r in roles && Settled(forced, dfns, custom, eligible, roles0, r, snap[r], drawn[r], roles[r])
  }

  /** The secondary role `r` was seated from a snapshot of `var.ROLES`. */
  ghost predicate Settled(forced: map<Role, set<Player>>, dfns: map<Role, set<Role>>, custom: bool,
                          eligible: (map<Role, Holders>, set<Role>) -> set<Player>, roles0: map<Role, Holders>,
                          r: Role, view: map<Role, Holders>, sel: set<Player>, h: Holders)
  {
    && r in dfns && r in roles0
    && Snapshot(view, roles0, dfns.Keys)
    && SecondaryDone(forced, r, roles0[r], eligible(view, dfns[r]), custom, sel, h)
  }

  /** The loop over `SECONDARY_ROLES.items()`, in any order. `dfns` maps each
      secondary role to the roles whose players are eligible for it; `custom`
      says `var.ORIGINAL_SETTINGS` is set, in which case a shortage resets
      `var.ROLES` to one "person" entry holding every player (and the caller
      restores the settings and returns to the join phase). */
  method SeatSecondary(forced: map<Role, set<Player>>, dfns: map<Role, set<Role>>, custom: bool,
                       roster: set<Player>, roles0: map<Role, Holders>,
                       eligible: (map<Role, Holders>, set<Role>) -> set<Player>)
    returns (err: Option<StartError>, roles: map<Role, Holders>,
             ghost snap: map<Role, map<Role, Holders>>, ghost drawn: map<Role, set<Player>>)
    ensures err.None? ==> dfns.Keys <= roles0.Keys && roles.Keys == roles0.Keys
    ensures err.None? ==> forall k :: k in roles0 && k !in dfns ==> roles[k] == roles0[k]
    ensures err.None? ==> forall r :: r in dfns ==> SettledIn(forced, dfns, custom, eligible, roles0, r, snap, drawn, roles)
    ensures err.Some? ==>
      || (err.value.Crash? && exists r :: r in dfns && r !in roles0)
      || (&& err.value.NotEnoughTargets? && custom
          && roles == map["person" := Users(roster)]
          && err.value.role in dfns && err.value.role in roles0 && err.value.role in snap
          && Snapshot(snap[err.value.role], roles0, dfns.Keys)
          && 0 < Wanted(roles0, forced, err.value.role)
          && |eligible(snap[err.value.role], dfns[err.value.role])| < Wanted(roles0, forced, err.value.role))
    ensures dfns.Keys <= roles0.Keys && !custom ==> err.None?
  {
    roles, snap, drawn := roles0, map[], map[];
    var todo := dfns.Keys;
    while todo != {}
      invariant SecondaryInv(forced, dfns, custom, eligible, roles0, todo, roles, snap, drawn)
      decreases todo
    {
      var role :| role in todo;
      var e, roles', sel := SecondaryStep(forced, custom, roster, roles, role, dfns[role], eligible);
      ghost var view := roles[role := Users(ForcedOf(forced, role))];
      if e.Some? {
        if e.value == Crash("KeyError") {
          return e, roles', snap, drawn;
        }
        ViewSnapshot(dfns, roles0, todo, roles, role, view);
        snap := snap[role := view];
        return e, roles', snap, drawn;
      }
      SecondaryKept(forced, dfns, custom, eligible, roles0, todo, roles, snap, drawn, role, view, sel, roles');
      roles, snap, drawn := roles', snap[role := view], drawn[role := sel];
      todo := todo - {role};
    }
    assert dfns.Keys - todo == dfns.Keys;
    forall k | k in roles0 && k !in dfns ensures roles[k] == roles0[k] {
      OutsideAt(roles0, roles, dfns.Keys, k);
    }
    err := None;
  }

  /** Seating one more secondary role keeps the loop invariant. */
  lemma SecondaryKept(forced: map<Role, set<Player>>, dfns: map<Role, set<Role>>, custom: bool,
                      eligible: (map<Role, Holders>, set<Role>) -> set<Player>, roles0: map<Role, Holders>,
                      todo: set<Role>, roles: map<Role, Holders>,
                      snap: map<Role, map<Role, Holders>>, drawn: map<Role, set<Player>>,
                      role: Role, view: map<Role, Holders>, sel: set<Player>, roles': map<Role, Holders>)
    requires SecondaryInv(forced, dfns, custom, eligible, roles0, todo, roles, snap, drawn)
    requires role in todo && role in roles && view == roles[role := Users(ForcedOf(forced, role))]
    requires role in roles' && roles' == roles[role := roles'[role]]
    requires SecondaryDone(forced, role, roles[role], eligible(view, dfns[role]), custom, sel, roles'[role])
    ensures SecondaryInv(forced, dfns, custom, eligible, roles0, todo - {role}, roles',
                         snap[role := view], drawn[role := sel])
  {
    var snap', drawn' := snap[role := view], drawn[role := sel];
    var done := dfns.Keys - todo;
    assert dfns.Keys - (todo - {role}) == done + {role};
    OutsideStep(roles, roles0, roles', done, role);
    ViewSnapshot(dfns, roles0, todo, roles, role, view);
    SettledFrom(forced, dfns, custom, eligible, roles0, role, view, sel, roles[role], roles'[role]);
    SettledStep(forced, dfns, custom, eligible, roles0, snap, drawn, roles, role, view, sel, snap', drawn', roles');
    assert roles'.Keys == roles.Keys;
    assert snap'.Keys == snap.Keys + {role} == done + {role};
    assert drawn'.Keys == drawn.Keys + {role};
  }

  /** A role seated from a snapshot, with its holders as they were at the start, is settled. */
  lemma SettledFrom(forced: map<Role, set<Player>>, dfns: map<Role, set<Role>>, custom: bool,
                    eligible: (map<Role, Holders>, set<Role>) -> set<Player>, roles0: map<Role, Holders>,
                    role: Role, view: map<Role, Holders>, sel: set<Player>, before: Holders, h: Holders)
    requires role in dfns && role in roles0 && before == roles0[role] && Snapshot(view, roles0, dfns.Keys)
    requires SecondaryDone(forced, role, before, eligible(view, dfns[role]), custom, sel, h)
    ensures Settled(forced, dfns, custom, eligible, roles0, role, view, sel, h)
  {
  }

  /** Changing the holders of `role` keeps the agreement outside the done roles and `role`. */
  lemma OutsideStep(roles: map<Role, Holders>, roles0: map<Role, Holders>, roles': map<Role, Holders>,
                    done: set<Role>, role: Role)
    requires Outside(roles, done) == Outside(roles0, done)
    requires role in roles' && roles' == roles[role := roles'[role]]
    ensures Outside(roles', done + {role}) == Outside(roles0, done + {role})
  {
    assert Outside(roles', done + {role}) == Outside(roles, done + {role});
    OutsideGrow(roles, roles0, done, done + {role});
  }

  /** The roles settled before stay settled once `role` is settled too. */
  lemma SettledStep(forced: map<Role, set<Player>>, dfns: map<Role, set<Role>>, custom: bool,
                    eligible: (map<Role, Holders>, set<Role>) -> set<Player>, roles0: map<Role, Holders>,
                    snap: map<Role, map<Role, Holders>>, drawn: map<Role, set<Player>>, roles: map<Role, Holders>,
                    role: Role, view: map<Role, Holders>, sel: set<Player>,
                    snap': map<Role, map<Role, Holders>>, drawn': map<Role, set<Player>>, roles': map<Role, Holders>)
    requires forall r :: Done(snap, r) ==> SettledIn(forced, dfns, custom, eligible, roles0, r, snap, drawn, roles)
    requires snap' == snap[role := view] && drawn' == drawn[role := sel]
    requires role in roles' && roles' == roles[role := roles'[role]]
    requires Settled(forced, dfns, custom, eligible, roles0, role, view, sel, roles'[role])
    ensures forall r :: Done(snap', r) ==> SettledIn(forced, dfns, custom, eligible, roles0, r, snap', drawn', roles')
  {
    forall r | Done(snap', r) ensures SettledIn(forced, dfns, custom, eligible, roles0, r, snap', drawn', roles') {
      if r != role {
        assert Done(snap, r);
        SettledInFrame(forced, dfns, custom, eligible, roles0, r, snap, drawn, roles, snap', drawn', roles');
      }
    }
  }

  /** `SettledIn` depends only on the entries for `r`. */
  lemma SettledInFrame(forced: map<Role, set<Player>>, dfns: map<Role, set<Role>>, custom: bool,
                       eligible: (map<Role, Holders>, set<Role>) -> set<Player>, roles0: map<Role, Holders>,
                       r: Role, snap: map<Role, map<Role, Holders>>, drawn: map<Role, set<Player>>,
                       roles: map<Role, Holders>, snap': map<Role, map<Role, Holders>>,
                       drawn': map<Role, set<Player>>, roles': map<Role, Holders>)
    requires SettledIn(forced, dfns, custom, eligible, roles0, r, snap, drawn, roles)
    requires r in snap' && r in drawn' && r in roles'
    requires snap'[r] == snap[r] && drawn'[r] == drawn[r] && roles'[r] == roles[r]
    ensures SettledIn(forced, dfns, custom, eligible, roles0, r, snap', drawn', roles')
  {
  }

  /** What `get_players` sees while `role` is seated differs from the roles
      before this stage only in secondary roles, and `role` itself is still
      as it was. */
  lemma ViewSnapshot(dfns: map<Role, set<Role>>, roles0: map<Role, Holders>, todo: set<Role>,
                     roles: map<Role, Holders>, role: Role, view: map<Role, Holders>)
    requires todo <= dfns.Keys && roles.Keys == roles0.Keys
    requires Outside(roles, dfns.Keys - todo) == Outside(roles0, dfns.Keys - todo)
    requires role in todo && role in roles && view.Keys == roles.Keys && view == roles[role := view[role]]
    ensures Snapshot(view, roles0, dfns.Keys)
    ensures roles[role] == roles0[role]
  {
    OutsideAt(roles, roles0, dfns.Keys - todo, role);
    assert Outside(view, dfns.Keys) == Outside(roles, dfns.Keys);
    OutsideGrow(roles, roles0, dfns.Keys - todo, dfns.Keys);
  }

  /** A role short of nobody: when its forced players are not eligible and
      enough players are, it ends up with exactly the count reserved for it. */
  lemma SecondaryFull(forced: map<Role, set<Player>>, r: Role, before: Holders, pool: set<Player>,
                      custom: bool, drawn: set<Player>, after: Holders)
    requires SecondaryDone(forced, r, before, pool, custom, drawn, after)
    requires ForcedOf(forced, r) !! pool
    requires ForcedCount(forced, r) < HolderCount(before) <= ForcedCount(forced, r) + |pool|
    ensures after.Users? && |after.players| == HolderCount(before)
  {
    assert |ForcedOf(forced, r) + drawn| == |ForcedOf(forced, r)| + |drawn|;
  }
}
