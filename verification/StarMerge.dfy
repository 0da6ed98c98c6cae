/** Account-shared stars, per-replicant star knowledge, and the collapse between them. */
module StarMerge {
  import opened Orderings
  import opened Domain
  import opened Observations

  datatype StarKnowledge = StarKnowledge(
    replicant: WorldKey,
    star: WorldKey,
    position: Option<Position>,
    spectralType: Option<string>,
    entryPoint: Option<WorldKey>,
    explored: Option<bool>,
    hasHub: Option<bool>,
    hasWard: Option<bool>,
    hasLife: Option<bool>,
    region: Option<string>,
    distanceFromReplicant: Option<real>,
    estimatedTravelTime: Option<int>)

  function Preserve<T>(incoming: Option<T>, existing: Option<T>): Option<T> {
    if incoming.None? then existing else incoming
  }

  function StarRule(existing: Observation<Star>, incoming: Observation<Star>): Star {
    var e, i := existing.value, incoming.value;
    i.(name := Preserve(i.name, e.name),
       spectralType := Preserve(i.spectralType, e.spectralType),
       entryPoint := Preserve(i.entryPoint, e.entryPoint),
       position := Preserve(i.position, e.position),
       hasHub := Preserve(i.hasHub, e.hasHub),
       hasWard := Preserve(i.hasWard, e.hasWard),
       knowledgeObserved := i.knowledgeObserved || e.knowledgeObserved,
       explored := Preserve(i.explored, e.explored),
       hasLife := Preserve(i.hasLife, e.hasLife),
       region := Preserve(i.region, e.region))
  }

  function KnowledgeRule(existing: Observation<StarKnowledge>, incoming: Observation<StarKnowledge>): StarKnowledge {
    var e, i := existing.value, incoming.value;
    i.(position := Preserve(i.position, e.position),
       spectralType := Preserve(i.spectralType, e.spectralType),
       entryPoint := Preserve(i.entryPoint, e.entryPoint),
       explored := Preserve(i.explored, e.explored),
       hasHub := Preserve(i.hasHub, e.hasHub),
       hasWard := Preserve(i.hasWard, e.hasWard),
       hasLife := Preserve(i.hasLife, e.hasLife),
       region := Preserve(i.region, e.region),
       distanceFromReplicant := Preserve(i.distanceFromReplicant, e.distanceFromReplicant),
       estimatedTravelTime := Preserve(i.estimatedTravelTime, e.estimatedTravelTime))
  }

  /** The account-shared projection of one replicant's knowledge. */
  function Collapse(k: Observation<StarKnowledge>): Observation<Star> {
    Observation(Star(k.value.star, None, k.value.spectralType, k.value.entryPoint, k.value.position, k.value.hasHub,
                     k.value.hasWard, true, k.value.explored, k.value.hasLife, k.value.region), k.metadata)
  }

  /** The replicant-scoped view of an account-shared star. */
  function View(s: Observation<Star>, replicant: WorldKey): Observation<StarKnowledge> {
    Observation(StarKnowledge(replicant, s.value.key, s.value.position, s.value.spectralType, s.value.entryPoint,
                              s.value.explored, s.value.hasHub, s.value.hasWard, s.value.hasLife, s.value.region,
                              None, None), s.metadata)
  }

  function CollapseAll(ks: seq<Observation<StarKnowledge>>): seq<Observation<Star>> {
    seq(|ks|, i requires 0 <= i < |ks| => Collapse(ks[i]))
  }

  /**
   For any sequence of knowledge: merge then collapse, or collapse each then merge, give the
   same account star, and the two merges accept the same observations.
   */
  lemma {:induction false} CollapseCommutes(ks: seq<Observation<StarKnowledge>>, n: nat)
    requires 1 <= n <= |ks|
    ensures Collapse(Fold(KnowledgeRule, ks, n)) == Fold(StarRule, CollapseAll(ks), n)
    ensures var s := Fold(StarRule, CollapseAll(ks), n).value; s.name == None && s.knowledgeObserved
    ensures n < |ks| ==>
              (Merge(KnowledgeRule, Fold(KnowledgeRule, ks, n), ks[n]).Replaced?
               <==> Merge(StarRule, Fold(StarRule, CollapseAll(ks), n), CollapseAll(ks)[n]).Replaced?)
  {
    if n > 1 {
      CollapseCommutes(ks, n - 1);
    }
  }

  /** Viewing the collapsed merge back loses the replicant-relative fields and nothing else. */
  lemma ViewOfCollapse(ks: seq<Observation<StarKnowledge>>, n: nat)
    requires 1 <= n <= |ks|
    ensures var merged := Fold(KnowledgeRule, ks, n);
            View(Fold(StarRule, CollapseAll(ks), n), merged.value.replicant)
            == Observation(merged.value.(distanceFromReplicant := None, estimatedTravelTime := None), merged.metadata)
  {
    CollapseCommutes(ks, n);
  }

  /** Each optional star field is that of the latest accepted observation that knew it. */
  lemma StarFieldsLatest(obs: seq<Observation<Star>>, n: nat)
    requires 1 <= n <= |obs|
    ensures var s := Fold(StarRule, obs, n).value;
            && s.name == LatestKnown((x: Star) => x.name, obs, n)
            && s.spectralType == LatestKnown((x: Star) => x.spectralType, obs, n)
            && s.entryPoint == LatestKnown((x: Star) => x.entryPoint, obs, n)
            && s.position == LatestKnown((x: Star) => x.position, obs, n)
            && s.hasHub == LatestKnown((x: Star) => x.hasHub, obs, n)
            && s.hasWard == LatestKnown((x: Star) => x.hasWard, obs, n)
            && s.explored == LatestKnown((x: Star) => x.explored, obs, n)
            && s.hasLife == LatestKnown((x: Star) => x.hasLife, obs, n)
            && s.region == LatestKnown((x: Star) => x.region, obs, n)
  {
    PreservedField(StarRule, (x: Star) => x.name, obs, n);
    PreservedField(StarRule, (x: Star) => x.spectralType, obs, n);
    PreservedField(StarRule, (x: Star) => x.entryPoint, obs, n);
    PreservedField(StarRule, (x: Star) => x.position, obs, n);
    PreservedField(StarRule, (x: Star) => x.hasHub, obs, n);
    PreservedField(StarRule, (x: Star) => x.hasWard, obs, n);
    PreservedField(StarRule, (x: Star) => x.explored, obs, n);
    PreservedField(StarRule, (x: Star) => x.hasLife, obs, n);
    PreservedField(StarRule, (x: Star) => x.region, obs, n);
  }

  ghost predicate TellsKnown(obs: seq<Observation<Star>>, i: nat)
    requires i < |obs|
  {
    Accepted(obs, i) && obs[i].value.knowledgeObserved
  }

  /** The star counts as known to the account once any accepted observation said so. */
  lemma {:induction false} KnowledgeSticks(obs: seq<Observation<Star>>, n: nat)
    requires 1 <= n <= |obs|
    ensures Fold(StarRule, obs, n).value.knowledgeObserved <==> exists i :: 0 <= i < n && TellsKnown(obs, i)
  {
    if n > 1 {
      KnowledgeSticks(obs, n - 1);
      FoldStep(StarRule, obs, n - 1);
      assert TellsKnown(obs, n - 1) <==> Accepted(obs, n - 1) && obs[n - 1].value.knowledgeObserved;
    } else {
      assert TellsKnown(obs, 0) <==> obs[0].value.knowledgeObserved;
    }
  }
}
