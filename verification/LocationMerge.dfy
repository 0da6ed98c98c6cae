/** Location knowledge: merging a newer observation into a held one, field by field. */
module LocationMerge {
  import opened Orderings
  import opened Domain

  /** `Absent` is an observation; `Unknown` is none. */
  datatype Knowledge<T> = Unknown | Absent | Present(value: T)

  datatype SurveyProgress = SurveyProgress(
    planetsTotal: Option<int>, planetsScanned: Option<int>, moonsTotal: Option<int>, moonsScanned: Option<int>,
    moonsTotalEstimated: Option<bool>, surveySystemComplete: Option<bool>)

  datatype Environment = Environment(
    atmosphere: Knowledge<string>, magneticField: Knowledge<bool>, gravityG: Knowledge<real>,
    surfaceTempC: Knowledge<real>, surfaceTempK: Knowledge<real>, atmoPressureAtm: Knowledge<real>,
    atmoO2Pct: Knowledge<real>, atmoToxicity: Knowledge<real>, hydrospherePct: Knowledge<real>,
    tectonicIndex: Knowledge<real>, biosphereIndex: Knowledge<real>, hasSubsurfaceOcean: Knowledge<bool>,
    inHabitableZone: Knowledge<bool>, lifeStage: Knowledge<string>, axialTiltDeg: Knowledge<real>,
    rotationState: Knowledge<string>, starSpectralType: Knowledge<string>, nearbyBeltRichness: Knowledge<string>,
    distanceFromSolLy: Knowledge<real>)

  datatype Location = Location(
    key: WorldKey, locationType: Option<string>, scanned: Option<bool>, systemScanned: Option<bool>,
    systemTags: seq<string>, system: Option<string>, parent: Option<WorldKey>, customName: Option<string>,
    survey: SurveyProgress, environment: Environment, unknown: map<string, string>)

  const NO_SURVEY := SurveyProgress(None, None, None, None, None, None)

  const NO_ENVIRONMENT := Environment(
    Unknown, Unknown, Unknown, Unknown, Unknown, Unknown, Unknown, Unknown, Unknown, Unknown,
    Unknown, Unknown, Unknown, Unknown, Unknown, Unknown, Unknown, Unknown, Unknown)

  /** A location about which nothing is known. */
  function Blank(key: WorldKey): Location {
    Location(key, None, None, None, [], None, None, None, NO_SURVEY, NO_ENVIRONMENT, map[])
  }

  function Or<T>(newer: Option<T>, older: Option<T>): Option<T> { if newer.Some? then newer else older }

  function MergeKnowledge<T>(current: Knowledge<T>, newer: Knowledge<T>): Knowledge<T> {
    if newer.Unknown? then current else newer
  }

  function MergeSurvey(a: SurveyProgress, n: SurveyProgress): SurveyProgress {
    SurveyProgress(Or(n.planetsTotal, a.planetsTotal), Or(n.planetsScanned, a.planetsScanned),
                   Or(n.moonsTotal, a.moonsTotal), Or(n.moonsScanned, a.moonsScanned),
                   Or(n.moonsTotalEstimated, a.moonsTotalEstimated), Or(n.surveySystemComplete, a.surveySystemComplete))
  }

  function MergeEnvironment(a: Environment, n: Environment): Environment {
    Environment(
      MergeKnowledge(a.atmosphere, n.atmosphere), MergeKnowledge(a.magneticField, n.magneticField),
      MergeKnowledge(a.gravityG, n.gravityG), MergeKnowledge(a.surfaceTempC, n.surfaceTempC),
      MergeKnowledge(a.surfaceTempK, n.surfaceTempK), MergeKnowledge(a.atmoPressureAtm, n.atmoPressureAtm),
      MergeKnowledge(a.atmoO2Pct, n.atmoO2Pct), MergeKnowledge(a.atmoToxicity, n.atmoToxicity),
      MergeKnowledge(a.hydrospherePct, n.hydrospherePct), MergeKnowledge(a.tectonicIndex, n.tectonicIndex),
      MergeKnowledge(a.biosphereIndex, n.biosphereIndex), MergeKnowledge(a.hasSubsurfaceOcean, n.hasSubsurfaceOcean),
      MergeKnowledge(a.inHabitableZone, n.inHabitableZone), MergeKnowledge(a.lifeStage, n.lifeStage),
      MergeKnowledge(a.axialTiltDeg, n.axialTiltDeg), MergeKnowledge(a.rotationState, n.rotationState),
      MergeKnowledge(a.starSpectralType, n.starSpectralType),
      MergeKnowledge(a.nearbyBeltRichness, n.nearbyBeltRichness),
      MergeKnowledge(a.distanceFromSolLy, n.distanceFromSolLy))
  }

  function Merged(a: Location, n: Location): Location {
    Location(a.key, Or(n.locationType, a.locationType), Or(n.scanned, a.scanned), Or(n.systemScanned, a.systemScanned),
             if n.systemTags != [] then n.systemTags else a.systemTags, Or(n.system, a.system), Or(n.parent, a.parent),
             Or(n.customName, a.customName), MergeSurvey(a.survey, n.survey),
             MergeEnvironment(a.environment, n.environment), a.unknown + n.unknown)
  }

  /** A held location, whose fields are updated in place one after the other. */
  class LocationCell {
    var value: Location
    var survey: SurveyProgress
    var environment: Environment

    constructor (value: Location)
      ensures Value() == value
    {
      this.value, survey, environment := value, value.survey, value.environment;
    }

    function Value(): Location
      reads this
    {
      value.(survey := survey, environment := environment)
    }

    method MergeFrom(newer: Location)
      modifies this
      ensures Value() == Merged(old(Value()), newer)
    {
      value := value.(locationType := Or(newer.locationType, value.locationType));
      value := value.(scanned := Or(newer.scanned, value.scanned));
      value := value.(systemScanned := Or(newer.systemScanned, value.systemScanned));
      if newer.systemTags != [] {
        value := value.(systemTags := newer.systemTags);
      }
      value := value.(system := Or(newer.system, value.system));
      value := value.(parent := Or(newer.parent, value.parent));
      value := value.(customName := Or(newer.customName, value.customName));
      MergeSurveyFrom(newer.survey);
      MergeEnvironmentFrom(newer.environment);
      value := value.(unknown := value.unknown + newer.unknown);
    }

    method MergeSurveyFrom(newer: SurveyProgress)
      modifies this`survey
      ensures survey == MergeSurvey(old(survey), newer)
    {
      survey := survey.(planetsTotal := Or(newer.planetsTotal, survey.planetsTotal));
      survey := survey.(planetsScanned := Or(newer.planetsScanned, survey.planetsScanned));
      survey := survey.(moonsTotal := Or(newer.moonsTotal, survey.moonsTotal));
      survey := survey.(moonsScanned := Or(newer.moonsScanned, survey.moonsScanned));
      survey := survey.(moonsTotalEstimated := Or(newer.moonsTotalEstimated, survey.moonsTotalEstimated));
      survey := survey.(surveySystemComplete := Or(newer.surveySystemComplete, survey.surveySystemComplete));
    }

    method MergeEnvironmentFrom(newer: Environment)
      modifies this`environment
      ensures environment == MergeEnvironment(old(environment), newer)
    {
      environment := environment.(atmosphere := MergeKnowledge(environment.atmosphere, newer.atmosphere));
      environment := environment.(magneticField := MergeKnowledge(environment.magneticField, newer.magneticField));
      environment := environment.(gravityG := MergeKnowledge(environment.gravityG, newer.gravityG));
      environment := environment.(surfaceTempC := MergeKnowledge(environment.surfaceTempC, newer.surfaceTempC));
      environment := environment.(surfaceTempK := MergeKnowledge(environment.surfaceTempK, newer.surfaceTempK));
      environment := environment.(
        atmoPressureAtm := MergeKnowledge(environment.atmoPressureAtm, newer.atmoPressureAtm));
      environment := environment.(atmoO2Pct := MergeKnowledge(environment.atmoO2Pct, newer.atmoO2Pct));
      environment := environment.(atmoToxicity := MergeKnowledge(environment.atmoToxicity, newer.atmoToxicity));
      environment := environment.(hydrospherePct := MergeKnowledge(environment.hydrospherePct, newer.hydrospherePct));
      environment := environment.(tectonicIndex := MergeKnowledge(environment.tectonicIndex, newer.tectonicIndex));
      environment := environment.(biosphereIndex := MergeKnowledge(environment.biosphereIndex, newer.biosphereIndex));
      environment := environment.(
        hasSubsurfaceOcean := MergeKnowledge(environment.hasSubsurfaceOcean, newer.hasSubsurfaceOcean));
      environment := environment.(
        inHabitableZone := MergeKnowledge(environment.inHabitableZone, newer.inHabitableZone));
      environment := environment.(lifeStage := MergeKnowledge(environment.lifeStage, newer.lifeStage));
      environment := environment.(axialTiltDeg := MergeKnowledge(environment.axialTiltDeg, newer.axialTiltDeg));
      environment := environment.(rotationState := MergeKnowledge(environment.rotationState, newer.rotationState));
      environment := environment.(
        starSpectralType := MergeKnowledge(environment.starSpectralType, newer.starSpectralType));
      environment := environment.(
        nearbyBeltRichness := MergeKnowledge(environment.nearbyBeltRichness, newer.nearbyBeltRichness));
      environment := environment.(
        distanceFromSolLy := MergeKnowledge(environment.distanceFromSolLy, newer.distanceFromSolLy));
    }
  }

  // ----- the algebra ---------------------------------------------------------------

  lemma SurveyAssociative(a: SurveyProgress, b: SurveyProgress, c: SurveyProgress)
    ensures MergeSurvey(MergeSurvey(a, b), c) == MergeSurvey(a, MergeSurvey(b, c))
  {
  }

  lemma EnvironmentAssociative(a: Environment, b: Environment, c: Environment)
    ensures MergeEnvironment(MergeEnvironment(a, b), c) == MergeEnvironment(a, MergeEnvironment(b, c))
  {
  }

  lemma Associative(a: Location, b: Location, c: Location)
    ensures Merged(Merged(a, b), c) == Merged(a, Merged(b, c))
  {
    SurveyAssociative(a.survey, b.survey, c.survey);
    EnvironmentAssociative(a.environment, b.environment, c.environment);
    assert (a.unknown + b.unknown) + c.unknown == a.unknown + (b.unknown + c.unknown);
  }

  /** The unknown location is neutral on both sides; merging anything with itself changes nothing. */
  lemma NeutralAndIdempotent(a: Location, key: WorldKey)
    ensures Merged(a, Blank(key)) == a && Merged(Blank(key), a) == a.(key := key)
    ensures Merged(a, a) == a
  {
    assert a.unknown + map[] == a.unknown && map[] + a.unknown == a.unknown;
    assert a.unknown + a.unknown == a.unknown;
  }

  /** Merging the same observation again changes nothing. */
  lemma Absorbs(a: Location, b: Location)
    ensures Merged(Merged(a, b), b) == Merged(a, b)
  {
    Associative(a, b, b);
    NeutralAndIdempotent(b, b.key);
  }

  /** Values combined one after the other. */
  function Combine<T>(op: (T, T) -> T, a: T, xs: seq<T>, n: nat): T
    requires n <= |xs|
  {
    if n == 0 then a else op(Combine(op, a, xs, n - 1), xs[n - 1])
  }

  ghost predicate AssociatesAt<T>(op: (T, T) -> T, a: T, b: T, c: T) { op(op(a, b), c) == op(a, op(b, c)) }

  ghost predicate IsAssociative<T(!new)>(op: (T, T) -> T) {
    forall a, b, c :: AssociatesAt(op, a, b, c)
  }

  lemma {:induction false} CombineInBatch<T(!new)>(op: (T, T) -> T, a: T, unit: T, xs: seq<T>, n: nat)
    requires n <= |xs| && IsAssociative(op) && op(a, unit) == a
    ensures Combine(op, a, xs, n) == op(a, Combine(op, unit, xs, n))
  {
    if n > 0 {
      CombineInBatch(op, a, unit, xs, n - 1);
      assert AssociatesAt(op, a, Combine(op, unit, xs, n - 1), xs[n - 1]);
    }
  }

  /** Observations merged one after the other. */
  lemma {:induction false} CombineSame<T>(op: (T, T) -> T, a: T, xs: seq<T>, ys: seq<T>, n: nat)
    requires n <= |xs| && n <= |ys| && forall i :: 0 <= i < n ==> xs[i] == ys[i]
    ensures Combine(op, a, xs, n) == Combine(op, a, ys, n)
  {
    if n > 0 {
      CombineSame(op, a, xs, ys, n - 1);
    }
  }

  lemma CombineOneMore<T>(op: (T, T) -> T, a: T, xs: seq<T>, x: T)
    ensures Combine(op, a, xs + [x], |xs| + 1) == op(Combine(op, a, xs, |xs|), x)
  {
    CombineSame(op, a, xs + [x], xs, |xs|);
  }

  function MergeAll(a: Location, xs: seq<Location>): Location {
    Combine(Merged, a, xs, |xs|)
  }

  /** Folding a batch on its own and merging the result equals folding it one by one. */
  lemma BatchEqualsOneByOne(a: Location, xs: seq<Location>, key: WorldKey)
    ensures MergeAll(a, xs) == Merged(a, MergeAll(Blank(key), xs))
  {
    forall a, b, c ensures AssociatesAt(Merged, a, b, c) {
      Associative(a, b, c);
    }
    NeutralAndIdempotent(a, key);
    CombineInBatch(Merged, a, Blank(key), xs, |xs|);
  }

  /** Delivering a whole batch again changes nothing. */
  lemma ReplayedBatchIsNeutral(a: Location, xs: seq<Location>)
    ensures MergeAll(MergeAll(a, xs), xs) == MergeAll(a, xs)
  {
    BatchEqualsOneByOne(a, xs, a.key);
    BatchEqualsOneByOne(MergeAll(a, xs), xs, a.key);
    Absorbs(a, MergeAll(Blank(a.key), xs));
  }

  /** The last value that knew the field decides it. */
  ghost function LastKnown<T, U>(f: T -> Knowledge<U>, a: T, xs: seq<T>, n: nat): Knowledge<U>
    requires n <= |xs|
  {
    if n == 0 then f(a) else if !f(xs[n - 1]).Unknown? then f(xs[n - 1]) else LastKnown(f, a, xs, n - 1)
  }

  ghost predicate TracksAt<T, U>(op: (T, T) -> T, f: T -> Knowledge<U>, a: T, n: T) {
    f(op(a, n)) == MergeKnowledge(f(a), f(n))
  }

  ghost predicate Tracked<T(!new), U(!new)>(op: (T, T) -> T, f: T -> Knowledge<U>) {
    forall a, n :: TracksAt(op, f, a, n)
  }

  lemma {:induction false} LastKnownWins<T(!new), U(!new)>(op: (T, T) -> T, f: T -> Knowledge<U>, a: T, xs: seq<T>,
                                                           n: nat)
    requires n <= |xs| && Tracked(op, f)
    ensures f(Combine(op, a, xs, n)) == LastKnown(f, a, xs, n)
  {
    if n > 0 {
      LastKnownWins(op, f, a, xs, n - 1);
      assert TracksAt(op, f, Combine(op, a, xs, n - 1), xs[n - 1]);
    }
  }

  // ----- every field is the last known one -----------------------------------------

  datatype EnvironmentField =
    Atmosphere | MagneticField | GravityG | SurfaceTempC | SurfaceTempK | AtmoPressureAtm | AtmoO2Pct
    | AtmoToxicity | HydrospherePct | TectonicIndex | BiosphereIndex | HasSubsurfaceOcean | InHabitableZone
    | LifeStage | AxialTiltDeg | RotationState | StarSpectralType | NearbyBeltRichness | DistanceFromSolLy

  datatype SurveyField =
    PlanetsTotal | PlanetsScanned | MoonsTotal | MoonsScanned | MoonsTotalEstimated | SurveySystemComplete

  /** The fields of a location; `Extra` is one member of the map of unmodelled data. */
  datatype Field =
    | OfEnvironment(environment: EnvironmentField)
    | OfSurvey(survey: SurveyField)
    | LocationType | Scanned | SystemScanned | SystemTags | System | Parent | CustomName
    | Extra(name: string)

  datatype Fact =
    | Text(text: string) | Flag(flag: bool) | Number(number: real) | Count(count: int)
    | Key(key: WorldKey) | Tags(tags: seq<string>)

  function TextOf(k: Knowledge<string>): Knowledge<Fact> {
    match k case Unknown => Unknown case Absent => Absent case Present(x) => Present(Text(x))
  }

  function FlagOf(k: Knowledge<bool>): Knowledge<Fact> {
    match k case Unknown => Unknown case Absent => Absent case Present(x) => Present(Flag(x))
  }

  function NumberOf(k: Knowledge<real>): Knowledge<Fact> {
    match k case Unknown => Unknown case Absent => Absent case Present(x) => Present(Number(x))
  }

  function Known<T>(o: Option<T>): Knowledge<T> { if o.Some? then Present(o.value) else Unknown }

  function CountOf(o: Option<int>): Knowledge<Fact> { if o.Some? then Present(Count(o.value)) else Unknown }

  function EnvironmentAt(f: EnvironmentField, e: Environment): Knowledge<Fact> {
    match f
    case Atmosphere => TextOf(e.atmosphere)
    case MagneticField => FlagOf(e.magneticField)
    case GravityG => NumberOf(e.gravityG)
    case SurfaceTempC => NumberOf(e.surfaceTempC)
    case SurfaceTempK => NumberOf(e.surfaceTempK)
    case AtmoPressureAtm => NumberOf(e.atmoPressureAtm)
    case AtmoO2Pct => NumberOf(e.atmoO2Pct)
    case AtmoToxicity => NumberOf(e.atmoToxicity)
    case HydrospherePct => NumberOf(e.hydrospherePct)
    case TectonicIndex => NumberOf(e.tectonicIndex)
    case BiosphereIndex => NumberOf(e.biosphereIndex)
    case HasSubsurfaceOcean => FlagOf(e.hasSubsurfaceOcean)
    case InHabitableZone => FlagOf(e.inHabitableZone)
    case LifeStage => TextOf(e.lifeStage)
    case AxialTiltDeg => NumberOf(e.axialTiltDeg)
    case RotationState => TextOf(e.rotationState)
    case StarSpectralType => TextOf(e.starSpectralType)
    case NearbyBeltRichness => TextOf(e.nearbyBeltRichness)
    case DistanceFromSolLy => NumberOf(e.distanceFromSolLy)
  }

  function SurveyAt(f: SurveyField, s: SurveyProgress): Knowledge<Fact> {
    match f
    case PlanetsTotal => CountOf(s.planetsTotal)
    case PlanetsScanned => CountOf(s.planetsScanned)
    case MoonsTotal => CountOf(s.moonsTotal)
    case MoonsScanned => CountOf(s.moonsScanned)
    case MoonsTotalEstimated => FlagOf(Known(s.moonsTotalEstimated))
    case SurveySystemComplete => FlagOf(Known(s.surveySystemComplete))
  }

  /** What a location knows about a field. */
  function At(f: Field, l: Location): Knowledge<Fact> {
    match f
    case OfEnvironment(e) => EnvironmentAt(e, l.environment)
    case OfSurvey(s) => SurveyAt(s, l.survey)
    case LocationType => TextOf(Known(l.locationType))
    case Scanned => FlagOf(Known(l.scanned))
    case SystemScanned => FlagOf(Known(l.systemScanned))
    case SystemTags => if l.systemTags == [] then Unknown else Present(Tags(l.systemTags))
    case System => TextOf(Known(l.system))
    case Parent => if l.parent.Some? then Present(Key(l.parent.value)) else Unknown
    case CustomName => TextOf(Known(l.customName))
    case Extra(name) => if name in l.unknown then Present(Text(l.unknown[name])) else Unknown
  }

  lemma EnvironmentTracked(f: EnvironmentField, a: Environment, n: Environment)
    ensures EnvironmentAt(f, MergeEnvironment(a, n)) == MergeKnowledge(EnvironmentAt(f, a), EnvironmentAt(f, n))
  {
  }

  lemma SurveyTracked(f: SurveyField, a: SurveyProgress, n: SurveyProgress)
    ensures SurveyAt(f, MergeSurvey(a, n)) == MergeKnowledge(SurveyAt(f, a), SurveyAt(f, n))
  {
  }

  lemma FieldTracked(f: Field, a: Location, n: Location)
    ensures At(f, Merged(a, n)) == MergeKnowledge(At(f, a), At(f, n))
  {
    match f
    case OfEnvironment(e) => EnvironmentTracked(e, a.environment, n.environment);
    case OfSurvey(s) => SurveyTracked(s, a.survey, n.survey);
    case _ =>
  }

  /**
   After any sequence of merges every field, of the environment, the survey or the location
   itself, is the last value that knew it; absence counts as known, no tags as unknown.
   */
  lemma FieldsLastKnown(f: Field, a: Location, xs: seq<Location>)
    ensures At(f, MergeAll(a, xs)) == LastKnown((l: Location) => At(f, l), a, xs, |xs|)
  {
    var at := (l: Location) => At(f, l);
    forall x, n ensures TracksAt(Merged, at, x, n) {
      FieldTracked(f, x, n);
    }
    LastKnownWins(Merged, at, a, xs, |xs|);
  }

  // ----- survey evidence -----------------------------------------------------------

  predicate HasSurveyEvidence(l: Location) {
    var e := l.environment;
    || !e.atmosphere.Unknown? || !e.magneticField.Unknown? || !e.axialTiltDeg.Unknown?
    || !e.atmoPressureAtm.Unknown? || !e.atmoO2Pct.Unknown? || !e.atmoToxicity.Unknown?
    || !e.hydrospherePct.Unknown? || !e.tectonicIndex.Unknown? || !e.biosphereIndex.Unknown?
    || !e.hasSubsurfaceOcean.Unknown?
  }

  /** The fields only a survey reports. */
  predicate SurveyOnly(f: EnvironmentField) {
    f in {Atmosphere, MagneticField, AxialTiltDeg, AtmoPressureAtm, AtmoO2Pct, AtmoToxicity, HydrospherePct,
          TectonicIndex, BiosphereIndex, HasSubsurfaceOcean}
  }

  lemma EvidenceWritten(l: Location)
    ensures HasSurveyEvidence(l) <==> exists f :: SurveyOnly(f) && !EnvironmentAt(f, l.environment).Unknown?
  {
    var e := l.environment;
    assert SurveyOnly(Atmosphere) && SurveyOnly(MagneticField) && SurveyOnly(AxialTiltDeg)
           && SurveyOnly(AtmoPressureAtm);
    assert SurveyOnly(AtmoO2Pct) && SurveyOnly(AtmoToxicity) && SurveyOnly(HydrospherePct) && SurveyOnly(TectonicIndex);
    assert SurveyOnly(BiosphereIndex) && SurveyOnly(HasSubsurfaceOcean);
    if HasSurveyEvidence(l) {
      var f := if !e.atmosphere.Unknown? then Atmosphere else if !e.magneticField.Unknown? then MagneticField
               else if !e.axialTiltDeg.Unknown? then AxialTiltDeg
               else if !e.atmoPressureAtm.Unknown? then AtmoPressureAtm
               else if !e.atmoO2Pct.Unknown? then AtmoO2Pct else if !e.atmoToxicity.Unknown? then AtmoToxicity
               else if !e.hydrospherePct.Unknown? then HydrospherePct
               else if !e.tectonicIndex.Unknown? then TectonicIndex
               else if !e.biosphereIndex.Unknown? then BiosphereIndex else HasSubsurfaceOcean;
      assert SurveyOnly(f) && !EnvironmentAt(f, e).Unknown?;
    }
  }

  lemma EvidenceOfMerge(a: Location, b: Location)
    ensures HasSurveyEvidence(Merged(a, b)) <==> HasSurveyEvidence(a) || HasSurveyEvidence(b)
  {
  }

  ghost predicate DisjunctiveAt<T>(op: (T, T) -> T, p: T -> bool, a: T, b: T) { p(op(a, b)) <==> p(a) || p(b) }

  ghost predicate Disjunctive<T(!new)>(op: (T, T) -> T, p: T -> bool) {
    forall a, b :: DisjunctiveAt(op, p, a, b)
  }

  lemma {:induction false} CombineHas<T(!new)>(op: (T, T) -> T, p: T -> bool, a: T, xs: seq<T>, n: nat)
    requires n <= |xs| && Disjunctive(op, p)
    ensures p(Combine(op, a, xs, n)) <==> p(a) || exists i :: 0 <= i < n && p(xs[i])
  {
    if n > 0 {
      CombineHas(op, p, a, xs, n - 1);
      assert DisjunctiveAt(op, p, Combine(op, a, xs, n - 1), xs[n - 1]);
    }
  }

  /** Evidence is present exactly when some observation brought it, and then stays. */
  lemma EvidenceStays(a: Location, xs: seq<Location>)
    ensures HasSurveyEvidence(MergeAll(a, xs))
            <==> HasSurveyEvidence(a) || exists i :: 0 <= i < |xs| && HasSurveyEvidence(xs[i])
  {
    forall a, b ensures DisjunctiveAt(Merged, HasSurveyEvidence, a, b) {
      EvidenceOfMerge(a, b);
    }
    CombineHas(Merged, HasSurveyEvidence, a, xs, |xs|);
  }
}
