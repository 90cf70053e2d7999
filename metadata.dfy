/** The `get_role_metadata` event that every role module answers: for the
    kind "role_categories" a role files the set of categories it belongs to,
    for "lycanthropy_role" the role it turns into. */
module RoleMetadata {
  import opened Common

  const ROLE_CATEGORIES: string := "role_categories"
  const LYCANTHROPY_ROLE: string := "lycanthropy_role"

  /** One entry of `evt.data`. */
  datatype MetaValue =
    | Categories(cats: set<string>)
    | Lycanthropy(role: Role, prefix: string)

  type MetaData = map<Role, MetaValue>

  /** The roles whose "role_categories" entry names `cat`, the way the
      category sets (`Wolfteam`, `Neutral`, ...) are read off the metadata. */
  function Members(data: MetaData, cat: string): (rs: set<Role>)
    ensures forall r :: r in rs <==> r in data && data[r].Categories? && cat in data[r].cats
  {
    set r | r in data && data[r].Categories? && cat in data[r].cats
  }
}
