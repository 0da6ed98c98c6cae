/**
 Observations and the rule every entity merge shares: an observation older, or equally old
 and less authoritative, than the held one is refused; any other replaces it, keeping what
 the entity's own rule keeps.
 */
module Observations {
  import opened Orderings

  datatype Source = RestDetail | RestCollection | EventLog | Sse | CommandResponse | Reconciliation

  datatype Authority =
    EntitySnapshot | CollectionMember | CompleteCollection | EventDelta | OperationResult | PublicProfile | Discovery

  datatype Access = Owned | SiblingShared | Granted | Public

  datatype Reachability = Reachable | OutOfRange | AccessRevoked | Historical

  datatype Metadata = Metadata(
    source: Source, authority: Authority, observedAt: int, access: Access,
    reachability: Reachability, stale: bool, document: string)

  datatype Observation<T> = Observation(value: T, metadata: Metadata)

  datatype Outcome<T> = Replaced(value: T) | Retained(value: T)

  function AuthorityRank(a: Authority): nat {
    match a
    case OperationResult => 6
    case EntitySnapshot => 5
    case CompleteCollection => 4
    case CollectionMember => 3
    case EventDelta => 2
    case PublicProfile => 1
    case Discovery => 1
  }

  function SourceRank(s: Source): nat {
    match s
    case CommandResponse => 6
    case RestDetail => 5
    case Reconciliation => 4
    case RestCollection => 3
    case EventLog => 2
    case Sse => 1
  }

  function MetadataOrder(a: Metadata, b: Metadata): Ordering {
    Compare(a.observedAt, b.observedAt)
    .Then(Compare(AuthorityRank(a.authority), AuthorityRank(b.authority)))
    .Then(Compare(SourceRank(a.source), SourceRank(b.source)))
  }

  /** What an entity's merge makes of the held and the incoming observation. */
  type Rule<!T> = (Observation<T>, Observation<T>) -> T

  function Merge<T>(rule: Rule<T>, existing: Observation<T>, incoming: Observation<T>): Outcome<Observation<T>> {
    if MetadataOrder(incoming.metadata, existing.metadata) == Less then Retained(existing)
    else Replaced(Observation(rule(existing, incoming), incoming.metadata))
  }

  /** The first `n` observations merged in order. */
  function Fold<T>(rule: Rule<T>, obs: seq<Observation<T>>, n: nat): Observation<T>
    requires 1 <= n <= |obs|
  {
    if n == 1 then obs[0] else Merge(rule, Fold(rule, obs, n - 1), obs[n - 1]).value
  }

  /** An observation that no earlier one outranks. */
  ghost predicate Accepted<T>(obs: seq<Observation<T>>, i: nat)
    requires i < |obs|
  {
    forall j :: 0 <= j < i ==> MetadataOrder(obs[i].metadata, obs[j].metadata) != Less
  }

  /** The last of the first `n` observations that was accepted. */
  ghost function LastAccepted<T>(obs: seq<Observation<T>>, n: nat): (k: nat)
    requires 1 <= n <= |obs|
    ensures k < n
  {
    if n == 1 || Accepted(obs, n - 1) then n - 1 else LastAccepted(obs, n - 1)
  }

  lemma {:induction false} LastAcceptedIs<T>(obs: seq<Observation<T>>, n: nat)
    requires 1 <= n <= |obs|
    ensures Accepted(obs, LastAccepted(obs, n))
    ensures forall i :: LastAccepted(obs, n) < i < n ==> !Accepted(obs, i)
  {
    if n > 1 && !Accepted(obs, n - 1) {
      LastAcceptedIs(obs, n - 1);
    }
  }

  // ----- who outranks whom ---------------------------------------------------------

  /** Authorities from the strongest to the weakest; public profiles and discoveries tie. */
  predicate Stronger(a: Authority, b: Authority) {
    match a
    case OperationResult => b != OperationResult
    case EntitySnapshot => b != OperationResult && b != EntitySnapshot
    case CompleteCollection => b.CollectionMember? || b.EventDelta? || b.PublicProfile? || b.Discovery?
    case CollectionMember => b.EventDelta? || b.PublicProfile? || b.Discovery?
    case EventDelta => b.PublicProfile? || b.Discovery?
    case PublicProfile => false
    case Discovery => false
  }

  /** Sources from the most to the least direct. */
  predicate Closer(a: Source, b: Source) {
    match a
    case CommandResponse => b != CommandResponse
    case RestDetail => b != CommandResponse && b != RestDetail
    case Reconciliation => b.RestCollection? || b.EventLog? || b.Sse?
    case RestCollection => b.EventLog? || b.Sse?
    case EventLog => b.Sse?
    case Sse => false
  }

  /** Later, or at the same time of stronger authority, or of like authority from a closer source. */
  predicate Outranks(a: Metadata, b: Metadata) {
    || a.observedAt > b.observedAt
    || (a.observedAt == b.observedAt && Stronger(a.authority, b.authority))
    || (a.observedAt == b.observedAt && !Stronger(b.authority, a.authority) && Closer(a.source, b.source))
  }

  lemma OrderIsRank(a: Metadata, b: Metadata)
    ensures MetadataOrder(a, b) == Less <==> Outranks(b, a)
  {
  }

  /** The held observation stays, unchanged, exactly when it outranks the incoming one. */
  lemma MergeDecides<T>(rule: Rule<T>, existing: Observation<T>, incoming: Observation<T>)
    ensures Merge(rule, existing, incoming)
            == if Outranks(existing.metadata, incoming.metadata) then Retained(existing)
               else Replaced(Observation(rule(existing, incoming), incoming.metadata))
  {
    OrderIsRank(incoming.metadata, existing.metadata);
  }

  lemma AcceptedIs<T>(obs: seq<Observation<T>>, i: nat)
    requires i < |obs|
    ensures Accepted(obs, i) <==> forall j :: 0 <= j < i ==> !Outranks(obs[j].metadata, obs[i].metadata)
  {
    forall j | 0 <= j < i
      ensures MetadataOrder(obs[i].metadata, obs[j].metadata) == Less <==> Outranks(obs[j].metadata, obs[i].metadata)
    {
      OrderIsRank(obs[i].metadata, obs[j].metadata);
    }
  }

  /** Over any run the held observation is the newest seen, and none seen outranks it. */
  lemma NewestHeld<T>(rule: Rule<T>, obs: seq<Observation<T>>, n: nat)
    requires 1 <= n <= |obs|
    ensures var held := Fold(rule, obs, n).metadata;
            && (exists j :: 0 <= j < n && obs[j].metadata == held)
            && (forall j :: 0 <= j < n ==> obs[j].metadata.observedAt <= held.observedAt)
            && (forall j :: 0 <= j < n ==> !Outranks(obs[j].metadata, held))
  {
    HeldIsMaximum(rule, obs, n);
    var held := Fold(rule, obs, n).metadata;
    assert obs[LastAccepted(obs, n)].metadata == held;
    forall j | 0 <= j < n ensures !Outranks(obs[j].metadata, held) && obs[j].metadata.observedAt <= held.observedAt {
      OrderIsRank(held, obs[j].metadata);
      OrderTotal(obs[j].metadata, held, held);
    }
  }

  lemma OrderTotal(a: Metadata, b: Metadata, c: Metadata)
    ensures MetadataOrder(b, a) == MetadataOrder(a, b).Reverse()
    ensures MetadataOrder(a, b) != Greater && MetadataOrder(b, c) != Greater ==> MetadataOrder(a, c) != Greater
  {
  }

  /**
   The held metadata is that of the last accepted observation, and no observation so far
   outranks it; so the merge accepts exactly the observations no earlier one outranks.
   */
  lemma {:induction false} HeldIsMaximum<T>(rule: Rule<T>, obs: seq<Observation<T>>, n: nat)
    requires 1 <= n <= |obs|
    ensures var held := Fold(rule, obs, n).metadata;
            && held == obs[LastAccepted(obs, n)].metadata
            && (forall j :: 0 <= j < n ==> MetadataOrder(obs[j].metadata, held) != Greater)
            && (n < |obs| ==> (Accepted(obs, n) <==> MetadataOrder(obs[n].metadata, held) != Less))
  {
    if n > 1 {
      HeldIsMaximum(rule, obs, n - 1);
      var before, last := Fold(rule, obs, n - 1).metadata, obs[n - 1].metadata;
      OrderTotal(last, before, last);
      forall j | 0 <= j < n - 1 && MetadataOrder(last, before) != Less
        ensures MetadataOrder(obs[j].metadata, last) != Greater
      {
        OrderTotal(obs[j].metadata, before, last);
      }
    }
    var held := Fold(rule, obs, n).metadata;
    if n < |obs| {
      AcceptedMeets(obs, n, LastAccepted(obs, n), held);
    }
  }

  /** Being outranked by none of the earlier ones is not being outranked by their maximum. */
  lemma AcceptedMeets<T>(obs: seq<Observation<T>>, n: nat, k: nat, held: Metadata)
    requires k < n < |obs| && obs[k].metadata == held
    requires forall j :: 0 <= j < n ==> MetadataOrder(obs[j].metadata, held) != Greater
    ensures Accepted(obs, n) <==> MetadataOrder(obs[n].metadata, held) != Less
  {
    var next := obs[n].metadata;
    forall j | 0 <= j < n && MetadataOrder(next, held) != Less ensures MetadataOrder(next, obs[j].metadata) != Less {
      OrderTotal(next, held, next);
      OrderTotal(obs[j].metadata, held, next);
      OrderTotal(next, obs[j].metadata, next);
    }
  }

  /** One more observation: merged when accepted, ignored otherwise. */
  lemma FoldStep<T>(rule: Rule<T>, obs: seq<Observation<T>>, n: nat)
    requires 1 <= n < |obs|
    ensures var held := Fold(rule, obs, n);
            Fold(rule, obs, n + 1)
                == if Accepted(obs, n) then Observation(rule(held, obs[n]), obs[n].metadata) else held
  {
    HeldIsMaximum(rule, obs, n);
  }

  /** The value of `f` in the latest accepted observation that knew it. */
  ghost function LatestKnown<T, U>(f: T -> Option<U>, obs: seq<Observation<T>>, n: nat): Option<U>
    requires n <= |obs|
  {
    if n == 0 then None
    else if Accepted(obs, n - 1) && f(obs[n - 1].value).Some? then f(obs[n - 1].value)
    else LatestKnown(f, obs, n - 1)
  }

  /** A rule that keeps a field when the incoming observation does not know it. */
  ghost predicate Preserves<T(!new), U(!new)>(rule: Rule<T>, f: T -> Option<U>) {
    forall e, i :: f(rule(e, i)) == if f(i.value).Some? then f(i.value) else f(e.value)
  }

  lemma {:induction false} PreservedField<T(!new), U(!new)>(rule: Rule<T>, f: T -> Option<U>,
                                                            obs: seq<Observation<T>>, n: nat)
    requires 1 <= n <= |obs| && Preserves(rule, f)
    ensures f(Fold(rule, obs, n).value) == LatestKnown(f, obs, n)
  {
    if n > 1 {
      PreservedField(rule, f, obs, n - 1);
      FoldStep(rule, obs, n - 1);
    } else {
      assert Accepted(obs, 0);
    }
  }

  /** Once known, known for good. */
  lemma {:induction false} StaysKnown<T(!new), U(!new)>(rule: Rule<T>, f: T -> Option<U>, obs: seq<Observation<T>>,
                                                        m: nat, n: nat)
    requires 1 <= m <= n <= |obs| && Preserves(rule, f)
    ensures f(Fold(rule, obs, m).value).Some? ==> f(Fold(rule, obs, n).value).Some?
    decreases n
  {
    if m < n {
      StaysKnown(rule, f, obs, m, n - 1);
    }
  }

  // ----- relations kept over a stretch of observations -----------------------------

  ghost predicate Transitive<T(!new)>(rel: (T, T) -> bool) {
    forall x, y, z :: rel(x, y) && rel(y, z) ==> rel(x, z)
  }

  lemma Compose<T(!new)>(rel: (T, T) -> bool, x: T, y: T, z: T)
    requires Transitive(rel) && rel(x, y) && rel(y, z)
    ensures rel(x, z)
  {
  }

  /** The `n`-th observation, when accepted, keeps the relation to whatever is held. */
  ghost predicate KeepsAt<T(!new)>(rule: Rule<T>, rel: (T, T) -> bool, obs: seq<Observation<T>>, n: nat)
    requires n < |obs|
  {
    Accepted(obs, n) ==> forall e :: rel(rule(e, obs[n]), e.value)
  }

  lemma KeptOnce<T(!new)>(rule: Rule<T>, rel: (T, T) -> bool, obs: seq<Observation<T>>, n: nat)
    requires 1 <= n < |obs| && (forall x :: rel(x, x)) && KeepsAt(rule, rel, obs, n)
    ensures Linked(rule, rel, obs, n)
  {
    FoldStep(rule, obs, n);
  }

  /** The relation holds between the values held before and after one observation. */
  ghost predicate Linked<T(!new)>(rule: Rule<T>, rel: (T, T) -> bool, obs: seq<Observation<T>>, n: nat)
    requires 1 <= n < |obs|
  {
    rel(Fold(rule, obs, n + 1).value, Fold(rule, obs, n).value)
  }

  lemma {:induction false} KeptOver<T(!new)>(rule: Rule<T>, rel: (T, T) -> bool, obs: seq<Observation<T>>, m: nat,
                                             n: nat)
    requires 1 <= m < n <= |obs| && Transitive(rel)
    requires forall i :: m <= i < n ==> Linked(rule, rel, obs, i)
    ensures rel(Fold(rule, obs, n).value, Fold(rule, obs, m).value)
    decreases n
  {
    assert Linked(rule, rel, obs, n - 1);
    if m < n - 1 {
      KeptOver(rule, rel, obs, m, n - 1);
      Compose(rel, Fold(rule, obs, n).value, Fold(rule, obs, n - 1).value, Fold(rule, obs, m).value);
    }
  }
}
