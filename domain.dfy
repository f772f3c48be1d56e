/**
 * The domain types of the service adapter contract and their well-formedness rules.
 *
 * Every Go slice is modelled as `Option<seq<T>>` (nil or a sequence) because the `required`
 * rule tells a nil slice from an empty one. Arbitrary `interface{}` values are `Value`s.
 * `Validate` functions return `None` for Go's nil error.
 */
module ServiceAdapter {
  import opened Wrappers
  import opened Validator

  // ---------------------------------------------------------------------------------------
  // Arbitrary values and request parameters
  // ---------------------------------------------------------------------------------------

  /** A Go `interface{}` value as it arrives in a request body or a plan's properties:
      nil, a scalar, a list, or a string-keyed map. */
  datatype Value =
    | Nil
    | Boolean(b: bool)
    | Number(n: int)
    | Str(s: string)
    | List(items: seq<Value>)
    | Object(entries: map<string, Value>)

  /** The raw request body handed to the adapter. */
  type RequestParameters = map<string, Value>

  /** A plan's adapter-specific configuration; it has no validation rules. */
  type Properties = map<string, Value>

  const ParametersKey: string := "parameters"

  /** Indexing a Go map: a missing key reads as nil. */
  function Lookup(s: map<string, Value>, key: string): Value
  {
    if key in s then s[key] else Nil
  }

  /** The failure of `ArbitraryParams`: the value under "parameters" is neither nil nor a
      map, so the type assertion in the source panics. */
  datatype ParamsError = ParametersNotAMap(found: Value)

  /** The map under "parameters", an empty map when that key is absent or nil. */
  function ArbitraryParams(s: RequestParameters): (r: Result<map<string, Value>, ParamsError>)
    ensures (ParametersKey !in s || s[ParametersKey] == Nil) ==> r == Success(map[])
    ensures ParametersKey in s && s[ParametersKey].Object? ==> r == Success(s[ParametersKey].entries)
    ensures r.Failure? <==> ParametersKey in s && !s[ParametersKey].Nil? && !s[ParametersKey].Object?
    ensures r.Failure? ==> r.error.found == s[ParametersKey]
  {
    match Lookup(s, ParametersKey)
    case Nil => Success(map[])
    case Object(m) => Success(m)
    case other => Failure(ParametersNotAMap(other))
  }

  // ---------------------------------------------------------------------------------------
  // Errors
  // ---------------------------------------------------------------------------------------

  /** The errors this layer produces or passes on. */
  datatype Error =
      /** An error made by `errors.New`. */
    | Plain(message: string)
      /** The validator's aggregate of failed field rules. */
    | ValidationFailed(failures: set<FieldError>)
      /** `BindingAlreadyExistsError`: embeds its cause. */
    | BindingAlreadyExists(cause: Error)
      /** `AppGuidNotProvidedError`: embeds its cause. */
    | AppGuidNotProvided(cause: Error)

  /** What a caller can tell apart with a type switch on an error. */
  datatype ErrorKind = Generic | AlreadyExists | MissingAppGuid

  function Kind(e: Error): (k: ErrorKind)
    ensures k == AlreadyExists <==> e.BindingAlreadyExists?
    ensures k == MissingAppGuid <==> e.AppGuidNotProvided?
  {
    match e
    case BindingAlreadyExists(_) => AlreadyExists
    case AppGuidNotProvided(_) => MissingAppGuid
    case _ => Generic
  }

  /** The text of `Error()`. A wrapper has no `Error` method of its own, so the embedded
      cause's method is the one called. The validator renders its aggregate by iterating
      a Go map, in no fixed order, so that text is not modelled (`None`). */
  function Message(e: Error): (m: Option<string>)
    ensures e.Plain? ==> m == Some(e.message)
    ensures e.ValidationFailed? ==> m.None?
  {
    match e
    case Plain(t) => Some(t)
    case ValidationFailed(_) => None
    case BindingAlreadyExists(c) => Message(c)
    case AppGuidNotProvided(c) => Message(c)
  }

  /** The embedded `error` field of a wrapper; other errors embed nothing. The field is
      unexported and the wrappers have no `Unwrap` method, so only this package reaches it. */
  function Cause(e: Error): (c: Option<Error>)
    ensures c.Some? <==> Kind(e) != Generic
  {
    match e
    case BindingAlreadyExists(c) => Some(c)
    case AppGuidNotProvided(c) => Some(c)
    case _ => None
  }

  function NewBindingAlreadyExistsError(e: Error): (r: Error)
    ensures Kind(r) == AlreadyExists
    ensures Cause(r) == Some(e)
    ensures Message(r) == Message(e)
  {
    BindingAlreadyExists(e)
  }

  function NewAppGuidNotProvidedError(e: Error): (r: Error)
    ensures Kind(r) == MissingAppGuid
    ensures Cause(r) == Some(e)
    ensures Message(r) == Message(e)
  {
    AppGuidNotProvided(e)
  }

  // ---------------------------------------------------------------------------------------
  // Domain types
  // ---------------------------------------------------------------------------------------

  datatype ServiceRelease = ServiceRelease(name: string, version: string, jobs: Option<seq<string>>)

  /** A Go slice of releases: nil or a sequence. */
  type ServiceReleases = Option<seq<ServiceRelease>>

  datatype Stemcell = Stemcell(os: string, version: string)

  datatype ServiceDeployment = ServiceDeployment(
    deploymentName: string,
    releases: ServiceReleases,
    stemcell: Stemcell)

  datatype InstanceGroup = InstanceGroup(
    name: string,
    vmType: string,
    persistentDisk: string,
    instances: int,
    networks: Option<seq<string>>,
    azs: Option<seq<string>>,
    lifecycle: string)

  datatype Plan = Plan(properties: Properties, instanceGroups: Option<seq<InstanceGroup>>)

  /** What `CreateBinding` returns; it carries no validation rules. */
  datatype Binding = Binding(credentials: map<string, Value>, syslogDrainUrl: string, routeServiceUrl: string)

  // ---------------------------------------------------------------------------------------
  // Tag-driven field rules, struct by struct
  // ---------------------------------------------------------------------------------------

  /** What a release must be, independently of how the tags express it: a name, a version
      and at least one job. */
  predicate ReleaseWellFormed(r: ServiceRelease) {
    r.name != "" && r.version != "" && r.jobs.Some? && |r.jobs.value| >= 1
  }

  /** A stemcell names an operating system and a version. */
  predicate StemcellWellFormed(s: Stemcell) {
    s.os != "" && s.version != ""
  }

  /** An instance group has a name, a VM type, at least one instance, a network list (which
      may be empty) and at least one availability zone. */
  predicate InstanceGroupWellFormed(g: InstanceGroup) {
    g.name != "" && g.vmType != "" && g.instances >= 1 && g.networks.Some? && g.azs.Some? && |g.azs.value| >= 1
  }

  /** The tags of `ServiceRelease`: Name `required`, Version `required`, Jobs `required,min=1`. */
  function ReleaseFailures(r: ServiceRelease): (errs: set<FieldError>)
    ensures errs == {} <==> ReleaseWellFormed(r)
    ensures errs <= {FieldError(At(Field("Name")), Required), FieldError(At(Field("Version")), Required),
                     FieldError(At(Field("Jobs")), Required), FieldError(At(Field("Jobs")), Min(1))}
  {
    FieldCheck("Name", StringValue(r.name), [Required])
    + FieldCheck("Version", StringValue(r.version), [Required])
    + FieldCheck("Jobs", SliceOf(r.jobs), [Required, Min(1)])
  }

  /** The tags of `Stemcell`: OS `required`, Version `required`. */
  function StemcellFailures(s: Stemcell): (errs: set<FieldError>)
    ensures errs == {} <==> StemcellWellFormed(s)
    ensures FieldError(At(Field("OS")), Required) in errs <==> s.os == ""
    ensures FieldError(At(Field("Version")), Required) in errs <==> s.version == ""
    ensures errs <= {FieldError(At(Field("OS")), Required), FieldError(At(Field("Version")), Required)}
  {
    FieldCheck("OS", StringValue(s.os), [Required]) + FieldCheck("Version", StringValue(s.version), [Required])
  }

  /** The tags of `ServiceDeployment`: DeploymentName `required`, Releases `required` (no
      `dive`, so the releases themselves are not looked at), Stemcell `required`. On a field
      of struct kind the validator does not evaluate `required`; it checks the nested
      struct's own fields instead. */
  function DeploymentFailures(d: ServiceDeployment): (errs: set<FieldError>)
    ensures errs == {} <==> d.deploymentName != "" && d.releases.Some? && StemcellWellFormed(d.stemcell)
    ensures errs <= {FieldError(At(Field("DeploymentName")), Required), FieldError(At(Field("Releases")), Required),
                     FieldError(Within(Field("Stemcell"), At(Field("OS"))), Required),
                     FieldError(Within(Field("Stemcell"), At(Field("Version"))), Required)}
  {
    RequiredTag("DeploymentName", StringValue(d.deploymentName));
    RequiredTag("Releases", SliceOf(d.releases));
    FieldCheck("DeploymentName", StringValue(d.deploymentName), [Required])
    + FieldCheck("Releases", SliceOf(d.releases), [Required])
    + Nest(Field("Stemcell"), StemcellFailures(d.stemcell))
  }

  /** The tags of `InstanceGroup`: Name `required`, VMType `required`, Instances `min=1`,
      Networks `required`, AZs `required,min=1`; PersistentDisk and Lifecycle have none. */
  function InstanceGroupFailures(g: InstanceGroup): (errs: set<FieldError>)
    ensures errs == {} <==> InstanceGroupWellFormed(g)
    ensures errs <= {FieldError(At(Field("Name")), Required), FieldError(At(Field("VMType")), Required),
                     FieldError(At(Field("Instances")), Min(1)), FieldError(At(Field("Networks")), Required),
                     FieldError(At(Field("AZs")), Required), FieldError(At(Field("AZs")), Min(1))}
  {
    RequiredTag("Networks", SliceOf(g.networks));
    RequiredMinTag("AZs", SliceOf(g.azs), 1);
    FieldCheck("Name", StringValue(g.name), [Required])
    + FieldCheck("VMType", StringValue(g.vmType), [Required])
    + FieldCheck("Instances", IntValue(g.instances), [Min(1)])
    + FieldCheck("Networks", SliceOf(g.networks), [Required])
    + FieldCheck("AZs", SliceOf(g.azs), [Required, Min(1)])
  }

  /** `dive` over instance groups from index `from` on: each element's own errors, under
      that element's index. */
  function ElementFailures(gs: seq<InstanceGroup>, from: nat): (errs: set<FieldError>)
    requires from <= |gs|
    decreases |gs| - from
    ensures errs == {} <==> forall i :: from <= i < |gs| ==> InstanceGroupWellFormed(gs[i])
    ensures forall i, e :: from <= i < |gs| && e in InstanceGroupFailures(gs[i]) ==>
              FieldError(Within(Index(i), e.path), e.rule) in errs
    ensures forall e :: e in errs ==>
              e.path.Within? && e.path.seg.Index? && from <= e.path.seg.i < |gs| &&
              FieldError(e.path.rest, e.rule) in InstanceGroupFailures(gs[e.path.seg.i])
  {
    if from == |gs| then {}
    else Nest(Index(from), InstanceGroupFailures(gs[from])) + ElementFailures(gs, from + 1)
  }

  /** The tags of `Plan`: InstanceGroups `required,dive`; Properties has none. The dive only
      happens once `required` has passed. */
  function PlanFailures(p: Plan): (errs: set<FieldError>)
    ensures FieldError(At(Field("InstanceGroups")), Required) in errs <==> p.instanceGroups.None?
    ensures p.instanceGroups.None? ==> errs == {FieldError(At(Field("InstanceGroups")), Required)}
    ensures p.instanceGroups.Some? ==> errs == Nest(Field("InstanceGroups"), ElementFailures(p.instanceGroups.value, 0))
  {
    RequiredTag("InstanceGroups", SliceOf(p.instanceGroups));
    match p.instanceGroups
    case None =>
      FieldCheck("InstanceGroups", SliceOf(p.instanceGroups), [Required])
    case Some(gs) =>
      var elements := ElementFailures(gs, 0);
      assert FieldError(At(Field("InstanceGroups")), Required) !in Nest(Field("InstanceGroups"), elements) by {
        assert forall e :: e in elements ==> e.path.Within?;
      }
      FieldCheck("InstanceGroups", SliceOf(p.instanceGroups), [Required]) + Nest(Field("InstanceGroups"), elements)
  }

  // ---------------------------------------------------------------------------------------
  // Validate
  // ---------------------------------------------------------------------------------------

  /** `validate.Struct` on a value of the struct type `typeName` whose field errors are
      `failures`: nil when there are none, otherwise the aggregate, with every path under
      the type's name. */
  function StructResult(typeName: string, failures: set<FieldError>): Option<Error>
  {
    if failures == {} then None else Some(ValidationFailed(Nest(Field(typeName), failures)))
  }

  const NoReleasesMessage: string := "no releases specified"

  /** The per-release stage of `ServiceReleases.Validate`: the error of the first release,
      in list order, that fails its field rules. */
  function FirstInvalidRelease(rs: seq<ServiceRelease>): (r: Option<Error>)
    ensures r.None? <==> forall i :: 0 <= i < |rs| ==> ReleaseWellFormed(rs[i])
    ensures r.Some? ==> r.value.ValidationFailed?
  {
    if |rs| == 0 then None
    else
      var head := StructResult("ServiceRelease", ReleaseFailures(rs[0]));
      if head.Some? then head
      else
        assert forall i :: 1 <= i < |rs| ==> rs[i] == rs[1..][i - 1];
        FirstInvalidRelease(rs[1..])
  }

  /** `ServiceReleases.Validate`: the "no releases specified" error for a nil or empty list,
      checked before any release; otherwise the first invalid release's error, or nil. */
  function ValidateReleases(rs: ServiceReleases): (r: Option<Error>)
    ensures r == Some(Plain(NoReleasesMessage)) <==> rs.None? || |rs.value| == 0
    ensures r.None? <==> rs.Some? && |rs.value| >= 1 && forall i :: 0 <= i < |rs.value| ==> ReleaseWellFormed(rs.value[i])
  {
    if Length(SliceOf(rs)) < 1 then Some(Plain(NoReleasesMessage))
    else FirstInvalidRelease(rs.value)
  }

  /** `ServiceDeployment.Validate`. */
  function ValidateDeployment(d: ServiceDeployment): (r: Option<Error>)
    ensures r.None? <==> d.deploymentName != "" && d.releases.Some? && StemcellWellFormed(d.stemcell)
    ensures r.Some? ==> r.value.ValidationFailed?
  {
    StructResult("ServiceDeployment", DeploymentFailures(d))
  }

  /** `Plan.Validate`. */
  function ValidatePlan(p: Plan): (r: Option<Error>)
    ensures r.None? <==> p.instanceGroups.Some? && forall i :: 0 <= i < |p.instanceGroups.value| ==> InstanceGroupWellFormed(p.instanceGroups.value[i])
    ensures r.Some? ==> r.value.ValidationFailed?
  {
    StructResult("Plan", PlanFailures(p))
  }
}
