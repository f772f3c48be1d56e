/**
 * Properties of the domain model: which field each rule reports, the first-failure order of
 * `ServiceReleases.Validate`, what each `Validate` ignores, the request-parameter accessor
 * and the error wrappers.
 */
module ServiceAdapterProperties {
  import opened Wrappers
  import opened Validator
  import opened ServiceAdapter

  // ---------------------------------------------------------------------------------------
  // Field by field
  // ---------------------------------------------------------------------------------------

  /** Each rule of `ServiceRelease` reports its own field, and `min=1` on Jobs is reported only
      for an empty, non-nil list (a nil list fails `required` first). */
  lemma ReleaseFailureFields(r: ServiceRelease)
    ensures FieldError(At(Field("Name")), Required) in ReleaseFailures(r) <==> r.name == ""
    ensures FieldError(At(Field("Version")), Required) in ReleaseFailures(r) <==> r.version == ""
    ensures FieldError(At(Field("Jobs")), Required) in ReleaseFailures(r) <==> r.jobs.None?
    ensures FieldError(At(Field("Jobs")), Min(1)) in ReleaseFailures(r) <==> r.jobs == Some([])
  {
    RequiredTag("Name", StringValue(r.name));
    RequiredTag("Version", StringValue(r.version));
    RequiredMinTag("Jobs", SliceOf(r.jobs), 1);
  }

  /** The errors of `ServiceDeployment.Validate`, field by field, under the validator's
      namespace "ServiceDeployment.…". */
  lemma DeploymentFailureFields(d: ServiceDeployment)
    ensures FieldError(At(Field("DeploymentName")), Required) in DeploymentFailures(d) <==> d.deploymentName == ""
    ensures FieldError(At(Field("Releases")), Required) in DeploymentFailures(d) <==> d.releases.None?
    ensures FieldError(Within(Field("Stemcell"), At(Field("OS"))), Required) in DeploymentFailures(d) <==> d.stemcell.os == ""
    ensures FieldError(Within(Field("Stemcell"), At(Field("Version"))), Required) in DeploymentFailures(d) <==> d.stemcell.version == ""
  {
    RequiredTag("DeploymentName", StringValue(d.deploymentName));
    RequiredTag("Releases", SliceOf(d.releases));
  }

  /** The `required` rules of `InstanceGroup`. A nil AZs list fails `required`, not `min`. */
  lemma InstanceGroupRequiredFields(g: InstanceGroup)
    ensures FieldError(At(Field("Name")), Required) in InstanceGroupFailures(g) <==> g.name == ""
    ensures FieldError(At(Field("VMType")), Required) in InstanceGroupFailures(g) <==> g.vmType == ""
    ensures FieldError(At(Field("Networks")), Required) in InstanceGroupFailures(g) <==> g.networks.None?
    ensures FieldError(At(Field("AZs")), Required) in InstanceGroupFailures(g) <==> g.azs.None?
  {
    RequiredTag("Name", StringValue(g.name));
    RequiredTag("VMType", StringValue(g.vmType));
    RequiredTag("Networks", SliceOf(g.networks));
    RequiredMinTag("AZs", SliceOf(g.azs), 1);
  }

  /** The `min=1` rules of `InstanceGroup`: fewer than one instance, or an empty non-nil AZs list. */
  lemma InstanceGroupMinFields(g: InstanceGroup)
    ensures FieldError(At(Field("Instances")), Min(1)) in InstanceGroupFailures(g) <==> g.instances < 1
    ensures FieldError(At(Field("AZs")), Min(1)) in InstanceGroupFailures(g) <==> g.azs == Some([])
  {
    MinTag("Instances", IntValue(g.instances), 1);
    RequiredMinTag("AZs", SliceOf(g.azs), 1);
  }

  /** PersistentDisk and Lifecycle carry no rules, so they never change an instance group's errors. */
  lemma InstanceGroupIgnoresUntagged(g: InstanceGroup, disk: string, lifecycle: string)
    ensures InstanceGroupFailures(g.(persistentDisk := disk, lifecycle := lifecycle)) == InstanceGroupFailures(g)
  {
  }

  // ---------------------------------------------------------------------------------------
  // ServiceReleases.Validate
  // ---------------------------------------------------------------------------------------

  /** The per-release stage returns the error of the first ill-formed release in list order,
      whatever the releases after it are. */
  lemma {:induction false} FirstInvalidReleaseAt(rs: seq<ServiceRelease>, i: nat)
    requires i < |rs| && !ReleaseWellFormed(rs[i])
    requires forall j :: 0 <= j < i ==> ReleaseWellFormed(rs[j])
    ensures FirstInvalidRelease(rs) == Some(ValidationFailed(Nest(Field("ServiceRelease"), ReleaseFailures(rs[i]))))
  {
    if i > 0 {
      assert ReleaseWellFormed(rs[0]);
      assert forall j :: 0 <= j < i - 1 ==> rs[1..][j] == rs[j + 1];
      FirstInvalidReleaseAt(rs[1..], i - 1);
    }
  }

  /** `ServiceReleases.Validate` on a non-empty list: nil when every release is well formed,
      otherwise the first ill-formed release's own error (never "no releases specified"). */
  lemma ValidateReleasesFirstFailure(rs: seq<ServiceRelease>, i: nat)
    requires i < |rs| && !ReleaseWellFormed(rs[i])
    requires forall j :: 0 <= j < i ==> ReleaseWellFormed(rs[j])
    ensures ValidateReleases(Some(rs)) == Some(ValidationFailed(Nest(Field("ServiceRelease"), ReleaseFailures(rs[i]))))
    ensures ValidateReleases(Some(rs)) != Some(Plain(NoReleasesMessage))
  {
    FirstInvalidReleaseAt(rs, i);
  }

  /** The cardinality check comes first: a nil or empty list gets "no releases specified". */
  lemma ValidateReleasesEmpty(rs: ServiceReleases)
    requires rs.None? || rs == Some([])
    ensures ValidateReleases(rs) == Some(Plain(NoReleasesMessage))
    ensures Message(ValidateReleases(rs).value) == Some("no releases specified")
  {
  }

  // ---------------------------------------------------------------------------------------
  // ServiceDeployment.Validate
  // ---------------------------------------------------------------------------------------

  /** Releases is only `required`, without `dive`: once it is non-nil, what it holds does not
      matter to `ServiceDeployment.Validate`. */
  lemma DeploymentIgnoresReleaseContents(d: ServiceDeployment, xs: seq<ServiceRelease>, ys: seq<ServiceRelease>)
    ensures ValidateDeployment(d.(releases := Some(xs))) == ValidateDeployment(d.(releases := Some(ys)))
  {
    var dx, dy := d.(releases := Some(xs)), d.(releases := Some(ys));
    RequiredTag("Releases", SliceOf(dx.releases));
    RequiredTag("Releases", SliceOf(dy.releases));
    assert DeploymentFailures(dx) == DeploymentFailures(dy);
  }

  /** So a deployment can pass `ServiceDeployment.Validate` while its releases fail
      `ServiceReleases.Validate`: its list may be empty, or hold a release with no jobs. */
  lemma DeploymentValidDespiteReleases(name: string, stemcell: Stemcell, bad: ServiceRelease)
    requires name != "" && StemcellWellFormed(stemcell) && !ReleaseWellFormed(bad)
    ensures ValidateDeployment(ServiceDeployment(name, Some([]), stemcell)).None?
    ensures ValidateDeployment(ServiceDeployment(name, Some([bad]), stemcell)).None?
    ensures ValidateReleases(Some([])).Some? && ValidateReleases(Some([bad])).Some?
  {
    FirstInvalidReleaseAt([bad], 0);
  }

  // ---------------------------------------------------------------------------------------
  // Plan.Validate
  // ---------------------------------------------------------------------------------------

  /** `dive` reports every error of an ill-formed instance group, under its index:
      "Plan.InstanceGroups[i].<field>". */
  lemma PlanReportsElement(p: Plan, i: nat, e: FieldError)
    requires p.instanceGroups.Some? && i < |p.instanceGroups.value|
    requires e in InstanceGroupFailures(p.instanceGroups.value[i])
    ensures ValidatePlan(p).Some?
    ensures FieldError(Within(Field("Plan"), Within(Field("InstanceGroups"), Within(Index(i), e.path))), e.rule)
              in ValidatePlan(p).value.failures
  {
    var gs := p.instanceGroups.value;
    var element := FieldError(Within(Index(i), e.path), e.rule);
    assert element in ElementFailures(gs, 0);
    var field := FieldError(Within(Field("InstanceGroups"), element.path), e.rule);
    assert field in PlanFailures(p);
  }

  /** A nil InstanceGroups list fails `required` and nothing else is reported. */
  lemma PlanWithoutInstanceGroups(properties: Properties)
    ensures ValidatePlan(Plan(properties, None)) ==
      Some(ValidationFailed({FieldError(Within(Field("Plan"), At(Field("InstanceGroups"))), Required)}))
  {
    var inner := {FieldError(At(Field("InstanceGroups")), Required)};
    assert Nest(Field("Plan"), inner) == {FieldError(Within(Field("Plan"), At(Field("InstanceGroups"))), Required)};
  }

  /** Properties carries no rules. */
  lemma PlanIgnoresProperties(p: Plan, properties: Properties)
    ensures ValidatePlan(p.(properties := properties)) == ValidatePlan(p)
  {
  }

  // ---------------------------------------------------------------------------------------
  // RequestParameters.ArbitraryParams
  // ---------------------------------------------------------------------------------------

  /** An empty request has no arbitrary parameters. */
  lemma ArbitraryParamsOfEmptyRequest()
    ensures ArbitraryParams(map[]) == Success(map[])
  {
  }

  /** The map under "parameters" comes back as it is. */
  lemma ArbitraryParamsExample()
    ensures ArbitraryParams(map["parameters" := Object(map["a" := Number(1)])]) == Success(map["a" := Number(1)])
  {
  }

  /** Only the "parameters" key is read. */
  lemma ArbitraryParamsReadsOnlyParameters(s: RequestParameters, key: string, v: Value)
    requires key != ParametersKey
    ensures ArbitraryParams(s[key := v]) == ArbitraryParams(s)
  {
  }

  // ---------------------------------------------------------------------------------------
  // Error wrappers
  // ---------------------------------------------------------------------------------------

  /** The two wrappers are never equal, and neither is ever the same kind as a generic error. */
  lemma WrapperKindsDistinct(e1: Error, e2: Error, other: Error)
    requires Kind(other) == Generic
    ensures NewBindingAlreadyExistsError(e1) != NewAppGuidNotProvidedError(e2)
    ensures Kind(NewBindingAlreadyExistsError(e1)) != Kind(NewAppGuidNotProvidedError(e2))
    ensures Kind(NewBindingAlreadyExistsError(e1)) != Kind(other)
    ensures Kind(NewAppGuidNotProvidedError(e2)) != Kind(other)
  {
  }

  /** Every error of a distinguished kind is one of the two wrappers around some cause. */
  lemma DistinguishedKindsAreWrappers(e: Error)
    ensures Kind(e) == AlreadyExists <==> exists c :: e == NewBindingAlreadyExistsError(c)
    ensures Kind(e) == MissingAppGuid <==> exists c :: e == NewAppGuidNotProvidedError(c)
  {
    if e.BindingAlreadyExists? {
      assert e == NewBindingAlreadyExistsError(e.cause);
    } else if e.AppGuidNotProvided? {
      assert e == NewAppGuidNotProvidedError(e.cause);
    }
  }

  /** The errors of `Validate` are generic: a caller cannot mistake them for either wrapper. */
  lemma ValidationErrorsAreGeneric(rs: ServiceReleases, d: ServiceDeployment, p: Plan)
    ensures ValidateReleases(rs).Some? ==> Kind(ValidateReleases(rs).value) == Generic
    ensures ValidateDeployment(d).Some? ==> Kind(ValidateDeployment(d).value) == Generic
    ensures ValidatePlan(p).Some? ==> Kind(ValidatePlan(p).value) == Generic
  {
  }
}
