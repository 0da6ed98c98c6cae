/** Duration of one travel leg, over exact distances. */
module TravelTiming {
  import opened Orderings
  import opened TravelRoutes

  datatype Profile = Standard | Cargo | Racing

  const U64_RANGE: nat := 0x1_0000_0000_0000_0000

  function Scaled(distance: real, profile: Profile): real {
    match profile
    case Standard => distance * 30.0
    case Cargo => distance * 30.0 / 0.6
    case Racing => distance * 30.0 / 1.35
  }

  lemma ScaledLinear(a: real, b: real, profile: Profile)
    ensures Scaled(a + b, profile) == Scaled(a, profile) + Scaled(b, profile)
    ensures a <= b ==> Scaled(a, profile) <= Scaled(b, profile)
  {
  }

  /** Three quarters without the product `3 * n`, which could leave 64 bits. */
  function ThreeQuarters(n: nat): (r: nat)
    ensures r == 3 * n / 4
    ensures r <= n
  {
    (n / 4) * 3 + ((n % 4) * 3) / 4
  }

  /** The cast saturates: a floor of exactly 2^64 passes the range check and becomes 2^64 - 1. */
  function PreSurge(distance: real, profile: Profile): (r: Option<nat>)
    ensures r.Some? ==> r.value <= U64_MAX
    ensures r.Some? ==> r.value as real <= Scaled(distance, profile)
    ensures r.Some? && r.value < U64_MAX ==> Scaled(distance, profile) < r.value as real + 1.0
    ensures r.None? <==> distance < 0.0 || Scaled(distance, profile).Floor > U64_RANGE
  {
    if distance < 0.0 then None else
    var floor := Scaled(distance, profile).Floor;
    if floor > U64_RANGE then None
    else Some(if floor == U64_RANGE then U64_MAX else floor)
  }

  /** A destination hub cuts the whole seconds to three quarters, again rounded down. */
  function SurgeSeconds(distance: real, profile: Profile, destinationHasHub: bool): (r: Option<nat>)
    ensures r.None? <==> distance < 0.0 || Scaled(distance, profile).Floor > U64_RANGE
    ensures r.Some? ==> r.value <= U64_MAX
  {
    match PreSurge(distance, profile)
    case None => None
    case Some(n) => Some(if destinationHasHub then ThreeQuarters(n) else n)
  }
}
