/** The mayor: the first time the village lynches a mayor who has not been
    revealed, the lynch is cancelled and the mayor is revealed instead. */
module Mayor {
  import opened Common
  import opened RoleMetadata

  /** The fields of a `chk_decision_lynch` event that the mayor reads and overwrites. */
  datatype LynchEvent = LynchEvent(votee: Option<Player>, preventDefault: bool, stopProcessing: bool)

  /** The lynch names a mayor (a holder of "mayor" in `var.ROLES`) not revealed yet. */
  predicate Reveals(revealed: set<Player>, mayors: set<Player>, votee: Option<Player>) {
    votee.Some? && votee.value in mayors && votee.value !in revealed
  }

  /** `REVEALED_MAYORS` after one lynch decision: it gains at most the votee,
      and only when the votee is an unrevealed mayor. */
  function RevealedAfter(revealed: set<Player>, mayors: set<Player>, votee: Option<Player>): (r: set<Player>)
    ensures revealed <= r && r - revealed <= mayors
    ensures |r| <= |revealed| + 1
    ensures r != revealed <==> Reveals(revealed, mayors, votee)
    ensures Reveals(revealed, mayors, votee) ==> votee.value in r
  {
    if Reveals(revealed, mayors, votee) then revealed + {votee.value} else revealed
  }

  /** Once a mayor has been revealed, lynching the same player again goes through. */
  lemma LaterLynchPassesThrough(revealed: set<Player>, mayors: set<Player>, votee: Option<Player>)
    ensures !Reveals(RevealedAfter(revealed, mayors, votee), mayors, votee)
    ensures RevealedAfter(RevealedAfter(revealed, mayors, votee), mayors, votee) == RevealedAfter(revealed, mayors, votee)
  {
  }

  /** The categories the mayor files for "role_categories"; every other entry is kept. */
  function OnGetRoleMetadata(data: MetaData, kind: string): (data': MetaData)
    ensures kind == ROLE_CATEGORIES ==> "mayor" in data' && data'["mayor"] == Categories({"Village", "Safe"})
    ensures data'.Keys == data.Keys + (if kind == ROLE_CATEGORIES then {"mayor"} else {})
    ensures forall r :: r in data && (r != "mayor" || kind != ROLE_CATEGORIES) ==> data'[r] == data[r]
  {
    if kind == ROLE_CATEGORIES then data["mayor" := Categories({"Village", "Safe"})] else data
  }

  /** The module state `REVEALED_MAYORS`. */
  class Mayors {
    var revealed: set<Player>

    constructor()
      ensures revealed == {}
    {
      revealed := {};
    }

    /** The `chk_decision_lynch` listener: an unrevealed mayor is revealed,
        the votee is cleared and the default lynch and the later listeners are
        stopped; any other lynch leaves the event and the set alone. */
    method OnChkDecisionLynch(evt: LynchEvent, mayors: set<Player>) returns (evt': LynchEvent)
      modifies this`revealed
      ensures revealed == RevealedAfter(old(revealed), mayors, evt.votee)
      ensures Reveals(old(revealed), mayors, evt.votee) ==> evt' == LynchEvent(None, true, true)
      ensures !Reveals(old(revealed), mayors, evt.votee) ==> evt' == evt
    {
      evt' := evt;
      if evt.votee.Some? && evt.votee.value in mayors && evt.votee.value !in revealed {
        revealed := revealed + {evt.votee.value};
        evt' := evt'.(votee := None);
        evt' := evt'.(preventDefault := true);
        evt' := evt'.(stopProcessing := true);
      }
    }

    /** The `reset` listener. */
    method OnReset()
      modifies this`revealed
      ensures revealed == {}
    {
      revealed := {};
    }
  }
}
