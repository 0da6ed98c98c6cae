/** Identities and catalogue entities shared by the planner and the merge rules. */
module Domain {
  import opened Orderings

  datatype Realm = Live | Simulation(id: int)

  /** A designation inside one realm. */
  datatype WorldKey = WorldKey(realm: Realm, id: string)

  /** A position with finite coordinates; a non-finite one is an absent one. */
  datatype Position = Position(x: real, y: real, z: real)

  datatype Star = Star(
    key: WorldKey,
    name: Option<string>,
    spectralType: Option<string>,
    entryPoint: Option<WorldKey>,
    position: Option<Position>,
    hasHub: Option<bool>,
    hasWard: Option<bool>,
    knowledgeObserved: bool,
    explored: Option<bool>,
    hasLife: Option<bool>,
    region: Option<string>)
}
