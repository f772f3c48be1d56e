# Service adapter domain model

A Dafny model of the domain types of the on-demand service adapter SDK
(`serviceadapter/domain.go`). These are the values an orchestrator hands to a service adapter:
a service deployment with its releases and stemcell, a plan with its instance groups, the raw
request parameters, and the two error wrappers an adapter uses to report distinguished binding
failures. The model also proves their well-formedness rules.

In the source, the rules are `validate:"..."` struct tags that go-playground validator
(version 8) reads by reflection. Here they are written out as functions:

- `validator.dfy` (module `Validator`) holds the rule vocabulary the tags use. `required`
  rejects the zero value: an empty string, 0, or a nil slice. An empty slice that is not nil
  passes. `min=N` is a lower bound on an int and on a length.
  A field's rules are tried in tag order, and only the first one that fails is reported.
  A struct's errors form a set of `FieldError(path, rule)` values, because the library keeps
  them in a map keyed by the field's namespace. A path such as
  `Within(Field("Plan"), Within(Field("InstanceGroups"), Within(Index(0), At(Field("Name")))))`
  is the library's `Plan.InstanceGroups[0].Name`.
- `domain.dfy` (module `ServiceAdapter`) holds the entities and the three `Validate` operations:
  - The entities are datatypes. A Go slice is `Option<seq<T>>`, so nil and empty stay distinct.
    An `interface{}` value is a `Value`.
  - `ServiceDeployment.Validate`, `Plan.Validate` and `ServiceReleases.Validate` are functions.
    `None` stands for Go's nil error.
  - `RequestParameters.ArbitraryParams` returns a `Result`.
  - The errors are one datatype: `errors.New` text, the validator's aggregate, and the two
    wrappers.
- `properties.dfy` (module `ServiceAdapterProperties`) holds the lemmas that relate these
  to each other.
- `wrappers.dfy` holds `Option` and `Result`.

`ServiceRelease`, `Stemcell` and `InstanceGroup` each have a plain well-formedness predicate:
`ReleaseWellFormed`, `StemcellWellFormed` and `InstanceGroupWellFormed` (the last asks for a
name, a VM type, at least one instance, a network list and at least one zone). Each struct's
tag-driven failure set is proved empty exactly when its predicate holds. The conditions for
`ServiceDeployment` and `Plan` are written inline in the contracts of `DeploymentFailures`,
`ValidateDeployment` and `ValidatePlan`.

Three rules are looser than the field names suggest:

- `ServiceDeployment.Releases` is tagged only `required`. A non-nil but empty or ill-formed
  release list therefore passes `ServiceDeployment.Validate`; only `ServiceReleases.Validate`
  inspects the releases.
- `Stemcell`'s `required` is not evaluated on a struct-kinded field. The stemcell's own OS and
  Version rules apply instead.
- `Binding` has no `validate` tags, so `Credentials` is never checked.

## Model

| member | source | states |
|---|---|---|
| `Validator.FirstFailed` | serviceadapter/domain.go:57 | no rule is reported exactly when every rule of the tag passes; a reported rule is one of the tag's and fails |
| `Validator.FirstFailedIsEarliest` | serviceadapter/domain.go:108 | the reported rule is the earliest failing one in tag order |
| `Validator.RequiredTag` | serviceadapter/domain.go:55-56 | `required` alone: exactly one `required` error at the field when it holds its zero value, none otherwise |
| `Validator.MinTag` | serviceadapter/domain.go:106 | `min=N` alone: exactly one `min` error at the field when it falls below the bound, none otherwise |
| `Validator.RequiredMinTag` | serviceadapter/domain.go:57 | `required,min=N`: the zero value fails `required` only; otherwise `min` alone decides |
| `Validator.FieldCheck` | serviceadapter/domain.go:103 | a field has no error exactly when all its rules pass; its error is at that field and names a failing rule |
| `Validator.Nest` | serviceadapter/domain.go:65 | a nested struct's or element's errors reappear with the segment prepended to their paths, and nothing else does; empty exactly when the inner errors are |
| `ServiceAdapter.ReleaseFailures` | serviceadapter/domain.go:54-58 | a release's tag errors are empty exactly when it has a name, a version and at least one job; the only possible errors are the four tag rules |
| `ServiceAdapter.StemcellFailures` | serviceadapter/domain.go:82-85 | OS and Version each fail `required` exactly when empty, and nothing else is reported |
| `ServiceAdapter.DeploymentFailures` | serviceadapter/domain.go:62-66 | empty exactly when the name is set, the release list is non-nil and the stemcell is well formed; the only possible errors are `required` on DeploymentName, Releases, Stemcell.OS and Stemcell.Version |
| `ServiceAdapter.InstanceGroupFailures` | serviceadapter/domain.go:102-110 | empty exactly when name, VM type, instances >= 1, non-nil networks and at least one AZ hold; only the six tag rules can be reported |
| `ServiceAdapter.ElementFailures` | serviceadapter/domain.go:95 | `dive`: empty exactly when every element is well formed; every element error appears under its index, and nothing else does |
| `ServiceAdapter.PlanFailures` | serviceadapter/domain.go:93-96 | a nil list yields the one `required` error; otherwise exactly the dived element errors under InstanceGroups |
| `ServiceAdapter.FirstInvalidRelease` | serviceadapter/domain.go:73-77 | no error exactly when every release is well formed; any error is a validation error |
| `ServiceAdapter.ValidateReleases` | serviceadapter/domain.go:68-80 | "no releases specified" exactly when the list has no element; nil exactly when it has at least one and all are well formed |
| `ServiceAdapter.ValidateDeployment` | serviceadapter/domain.go:87-89 | nil exactly when the deployment name is set, releases is non-nil and the stemcell's OS and version are set |
| `ServiceAdapter.ValidatePlan` | serviceadapter/domain.go:98-100 | nil exactly when the instance group list is non-nil and every element is well formed |
| `ServiceAdapter.ArbitraryParams` | serviceadapter/domain.go:40-45 | an empty map when "parameters" is absent or nil; the held map unchanged; failure (the panic) exactly when it holds anything else |
| `ServiceAdapter.Kind` | serviceadapter/domain.go:22-28 | the two wrapper types are told apart from each other and from every other error |
| `ServiceAdapter.Message` | serviceadapter/domain.go:22-28 | an `errors.New` error's text is its message; the validator's aggregate text is not modelled |
| `ServiceAdapter.Cause` | serviceadapter/domain.go:22-28 | an error embeds a cause exactly when it is one of the two wrappers |
| `ServiceAdapter.NewBindingAlreadyExistsError` | serviceadapter/domain.go:30-32 | the result is of the already-exists kind, embeds the cause and has the cause's message |
| `ServiceAdapter.NewAppGuidNotProvidedError` | serviceadapter/domain.go:34-36 | the result is of the missing-app-GUID kind, embeds the cause and has the cause's message |
| `ServiceAdapterProperties.ReleaseFailureFields` | serviceadapter/domain.go:55-57 | each release rule is reported exactly when its field violates it; `min=1` on Jobs only for an empty non-nil list |
| `ServiceAdapterProperties.DeploymentFailureFields` | serviceadapter/domain.go:63-65 | DeploymentName, Releases, Stemcell.OS and Stemcell.Version each reported exactly when missing |
| `ServiceAdapterProperties.InstanceGroupRequiredFields` | serviceadapter/domain.go:103-108 | Name, VMType, Networks and AZs fail `required` exactly when empty or nil |
| `ServiceAdapterProperties.InstanceGroupMinFields` | serviceadapter/domain.go:106-108 | `min=1` reported exactly for instances < 1 and for an empty non-nil AZs list |
| `ServiceAdapterProperties.InstanceGroupIgnoresUntagged` | serviceadapter/domain.go:105-109 | PersistentDisk and Lifecycle never change the errors |
| `ServiceAdapterProperties.FirstInvalidReleaseAt` | serviceadapter/domain.go:73-77 | the result is the error of the first ill-formed release in list order |
| `ServiceAdapterProperties.ValidateReleasesFirstFailure` | serviceadapter/domain.go:68-79 | a non-empty list fails with its first ill-formed release's error, never "no releases specified" |
| `ServiceAdapterProperties.ValidateReleasesEmpty` | serviceadapter/domain.go:69-71 | a nil or empty list gets the "no releases specified" error with that message |
| `ServiceAdapterProperties.DeploymentIgnoresReleaseContents` | serviceadapter/domain.go:64 | once Releases is non-nil its contents never change `ServiceDeployment.Validate` |
| `ServiceAdapterProperties.DeploymentValidDespiteReleases` | serviceadapter/domain.go:64-80 | a deployment with an empty list or an ill-formed release passes, while `ServiceReleases.Validate` fails on that list |
| `ServiceAdapterProperties.PlanReportsElement` | serviceadapter/domain.go:95 | each error of an ill-formed instance group makes the plan fail and appears as Plan.InstanceGroups[i].<path> |
| `ServiceAdapterProperties.PlanWithoutInstanceGroups` | serviceadapter/domain.go:95 | a nil list yields exactly the Plan.InstanceGroups `required` error |
| `ServiceAdapterProperties.PlanIgnoresProperties` | serviceadapter/domain.go:94 | Properties never changes `Plan.Validate` |
| `ServiceAdapterProperties.ArbitraryParamsOfEmptyRequest` | serviceadapter/domain.go:41-42 | an empty request yields an empty map |
| `ServiceAdapterProperties.ArbitraryParamsExample` | serviceadapter/domain.go:44 | `{"parameters": {"a": 1}}` yields `{"a": 1}` |
| `ServiceAdapterProperties.ArbitraryParamsReadsOnlyParameters` | serviceadapter/domain.go:40-45 | keys other than "parameters" never change the result |
| `ServiceAdapterProperties.WrapperKindsDistinct` | serviceadapter/domain.go:22-36 | the two wrappers never coincide and are of kinds distinct from each other and from any generic error |
| `ServiceAdapterProperties.DistinguishedKindsAreWrappers` | serviceadapter/domain.go:22-36 | an error has a distinguished kind exactly when it is built by the matching constructor |
| `ServiceAdapterProperties.ValidationErrorsAreGeneric` | serviceadapter/domain.go:68-100 | errors from the three `Validate`s are never of a wrapper kind |

## Left out

- `ManifestGenerator` and `Binder` (serviceadapter/domain.go:11-20) are interface signatures with no logic. Their argument types `bosh.BoshManifest` and `bosh.BoshVMs` are not part of this model.
- The validator's construction in `init` (serviceadapter/domain.go:47-52) only selects the tag name. The library's reflection is replaced by the written-out rules.
- `Message` does not model the text of the validator's aggregate error. The library builds it by iterating a Go map, so its line order is not fixed. It is `None` in the model.
- A `FieldError` keeps only the path and the failed rule. The library's other fields (kind, type, parameter text, offending value) are left out.
- JSON and YAML struct tags, and any serialisation round trip, belong to the encoding libraries. They are not modelled.
- `Binding` is modelled as a datatype only. The source gives it no tags and no operations.
- `ArbitraryParams` does not tell a nil map from an empty one. A "parameters" value that is a typed nil map comes back as an empty map here, whereas Go returns a nil map. Reads give the same result either way.
- `NewBindingAlreadyExistsError`: a nil cause is not modelled. In Go, calling `Error()` on such a wrapper panics. The same holds for `NewAppGuidNotProvidedError`.
- `ArbitraryParams`: `Object` stands for any string-keyed map, so the model returns `Success` wherever it holds one. Go's type assertion accepts only the exact type `map[string]interface{}` and panics on other dynamic types, for example a `map[string]string`, a value of the named type `Properties` or `RequestParameters`, or a typed nil pointer. Such values cannot come from a decoded request body, and the model does not tell them apart.
- `ValidateReleases`: the model compares errors by value, so two `Plain` errors with the same text are equal. In Go, `errors.New` returns a new pointer on every call, so two such errors are never `==`; a Go caller can recognise the empty-list error only by its text or its type.
- A Go string may hold bytes that are not valid UTF-8; a Dafny string cannot. No rule here depends on such bytes.
- `ArbitraryParams` returns the very map stored in the request, so in Go a caller's write to the result changes the request. The model works on values and does not capture this sharing.
- `Value` numbers are integers. The floating-point numbers that a JSON decoder produces are not modelled, and they are opaque to this layer anyway.
