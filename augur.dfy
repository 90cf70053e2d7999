/** The augur: once per night it sees the aura of one player, red for the
    wolf team, grey for neutral roles and blue for everyone else. */
module Augur {
  import opened Common
  import opened RoleMetadata
  import Mayor
  import WolfShaman

  datatype Aura = Blue | Red | Grey

  /** The aura of a (possibly rewritten) role: Wolfteam wins over Neutral. */
  function AuraOf(role: Role, wolfteam: set<Role>, neutral: set<Role>): (a: Aura)
    ensures a == Red <==> role in wolfteam
    ensures a == Grey <==> role !in wolfteam && role in neutral
    ensures a == Blue <==> role !in wolfteam && role !in neutral
  {
    if role in wolfteam then Red
    else if role in neutral then Grey
    else Blue
  }

  /** How a `see` command ends. */
  datatype SeeOutcome =
    | AlreadySeen                          // "seer_fail": the augur has seen tonight
    | NoTarget                             // the target did not resolve
    | Exchanged                            // the target swapped roles with the augur
    | Saw(target: Player, aura: Aura)      // "augur_success"

  /** The categories and the lycanthropy role the augur files; every other entry is kept. */
  function OnGetRoleMetadata(data: MetaData, kind: string): (data': MetaData)
    ensures kind == ROLE_CATEGORIES ==>
      "augur" in data' && data'["augur"] == Categories({"Village", "Nocturnal", "Spy", "Safe"})
    ensures kind == LYCANTHROPY_ROLE ==> "augur" in data' && data'["augur"] == Lycanthropy("doomsayer", "seer")
    ensures data'.Keys == data.Keys + (if kind in {ROLE_CATEGORIES, LYCANTHROPY_ROLE} then {"augur"} else {})
    ensures forall r :: r in data && (r != "augur" || kind !in {ROLE_CATEGORIES, LYCANTHROPY_ROLE}) ==> data'[r] == data[r]
  {
    if kind == ROLE_CATEGORIES then data["augur" := Categories({"Village", "Nocturnal", "Spy", "Safe"})]
    else if kind == LYCANTHROPY_ROLE then data["augur" := Lycanthropy("doomsayer", "seer")]
    else data
  }

  /** The module state `SEEN`: the augurs that have used their power tonight. */
  class Augurs {
    var seen: set<Player>

    constructor()
      ensures seen == {}
    {
      seen := {};
    }

    /** The `see` command of `source`. `target` is what `get_target` resolved
        (None when it refused); `misdirect`, `exchange`, `mainRole` and
        `investigate` stand for `try_misdirection`, `try_exchange`,
        `get_main_role` and the rewrites of the `investigate` listeners;
        `wolfteam` and `neutral` are the two category sets. */
    method See(source: Player, target: Option<Player>,
               misdirect: (Player, Player) -> Player, exchange: (Player, Player) -> bool,
               mainRole: Player -> Role, investigate: (Player, Player, Role) -> Role,
               wolfteam: set<Role>, neutral: set<Role>)
      returns (out: SeeOutcome)
      modifies this`seen
      ensures source in old(seen) ==> out == AlreadySeen
      ensures source !in old(seen) && target.None? ==> out == NoTarget
      ensures source !in old(seen) && target.Some? && exchange(source, misdirect(source, target.value)) ==>
        out == Exchanged
      ensures out.Saw? <==>
        source !in old(seen) && target.Some? && !exchange(source, misdirect(source, target.value))
      ensures out.Saw? ==>
        var t := misdirect(source, target.value);
        out == Saw(t, AuraOf(investigate(source, t, mainRole(t)), wolfteam, neutral))
      ensures seen == if out.Saw? then old(seen) + {source} else old(seen)
    {
      if source in seen {
        return AlreadySeen;
      }
      if target.None? {
        return NoTarget;
      }
      var t := misdirect(source, target.value);
      if exchange(source, t) {
        return Exchanged;
      }
      var targrole := mainRole(t);
      targrole := investigate(source, t, targrole);
      var aura := AuraOf(targrole, wolfteam, neutral);
      out := Saw(t, aura);
      seen := seen + {source};
    }
  }

  /** The metadata the three roles file for "role_categories", starting from
      the entries of the other roles. */
  function CategoriesOf(others: MetaData): MetaData {
    var kind := ROLE_CATEGORIES;
    WolfShaman.OnGetRoleMetadata(Mayor.OnGetRoleMetadata(OnGetRoleMetadata(others, kind), kind), kind)
  }

  /** With the category sets read off the metadata, an uninvestigated look
      shows the wolf shaman red and the mayor and the augur blue, whatever the
      other roles file. */
  lemma {:induction false} AurasOfTheseRoles(others: MetaData)
    ensures var data := CategoriesOf(others);
      var wolfteam, neutral := Members(data, "Wolfteam"), Members(data, "Neutral");
      && AuraOf("wolf shaman", wolfteam, neutral) == Red
      && AuraOf("mayor", wolfteam, neutral) == Blue
      && AuraOf("augur", wolfteam, neutral) == Blue
  {
    var data := CategoriesOf(others);
    assert data["wolf shaman"] == Categories({"Wolf", "Wolfchat", "Wolfteam", "Killer", "Nocturnal"});
    assert data["mayor"] == Categories({"Village", "Safe"});
    assert data["augur"] == Categories({"Village", "Nocturnal", "Spy", "Safe"});
    assert "Wolfteam" !in {"Village", "Safe"} && "Neutral" !in {"Village", "Safe"};
    assert "Wolfteam" !in {"Village", "Nocturnal", "Spy", "Safe"};
    assert "Neutral" !in {"Village", "Nocturnal", "Spy", "Safe"};
  }
}
