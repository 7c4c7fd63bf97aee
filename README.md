# Serverless Components core: AwsIamRole, credential merge and run

A Dafny model of three pieces of the Serverless Components framework, with
proofs of what each of them promises.

- **The AwsIamRole component** (`aws_iam_role.dfy`, module `AwsIamRole`).
  - `construct` fills in the defaults: the AdministratorAccess policy and the role name `role-<instanceId>`.
  - `shouldDeploy` classifies a redeploy as `replace`, `deploy` or nothing.
  - `deploy` either creates the role or updates its trust document and swaps its policy.
  - `remove` detaches the policy and deletes the role.
  - `define` reports an AwsIamPolicy component given as the policy as the component's one child.
  - IAM is a class `Iam` that appends every call it receives to a log, `sleep(15000)` included. It fails the calls named in its `faults` map with the given message. Every helper and lifecycle method is proved to leave exactly the events of a trace function in that log, and to return that trace's error.
- **addEnvVarsToCredentials** (`env_credentials.dfy`, module `EnvCredentials`).
  - The nested loops over the providers table fill a credentials object in place.
  - The object is a class holding a map from provider to SDK key to value.
  - The method is proved equal to a fold, `Merge`. `Merge` is characterised key by key: a truthy credential is never overwritten, nothing outside the three AWS keys changes, and the merge is idempotent.
- **run** (`run.dfy`, module `Run`).
  - It applies the defaults to the configuration object in place and picks `.env.<stage>` or `.env`.
  - It merges that file's variables into the credentials.
  - It then dispatches on the first definition file found: `serverless.js`, `serverless.yml`, `serverless.yaml`, then `serverless.json`.
  - The declarative runner scans the `components` table for `Type::instance` keys. The last key with a matching instance wins, and the child's id is `<stage>.<name>.<instance>`.
  - Errors reach `errorHandler`, modelled as the outcome `Reported(message, origin)`.

`common.dfy` (module `Common`) holds the optional value and JavaScript
truthiness shared by the three.

A JavaScript value that is `undefined`, or an optional input that is
`null`, is `None`; the places where the two differ are listed under
"## Left out". A falsy string is the empty string.

The file system, the parsed `.env` files, the exported component of
`serverless.js`, the parsed declarative files, the component types that exist
and the calls that throw are all inputs: the `Project` value in `run.dfy` and
the `Iam` object in `aws_iam_role.dfy`.

Points of the code worth knowing, each modelled as written:

- `remove` swallows any error whose message contains `Role not found`, from the detach call as well as from the delete call, because the check sits in its outer `catch`.
- `deploy` sets `arn` only on the create path, and only when the whole create sequence succeeded. On update paths `arn` keeps its old value. `remove` clears `arn` only when the delete succeeded.
- Not every error goes to a component's own `errorHandler` call. An unknown instance or an invalid component type is thrown outside the declarative runner's `try`. It reaches `run`'s handler under the origin `Serverless Components`.
- With an instance but no method, `runDeclarative` has no branch that applies and `run` returns `undefined` (`NoBranch`).

## Model

| member | source | states |
|---|---|---|
| Common.Option.GetOr | registry/AwsIamRole/src/index.js:93-94 | `or(a, b)`: the value when present, the fallback when absent |
| AwsIamRole.TrustDocument | registry/AwsIamRole/src/index.js:20-33 | the serialized trust document is read back by the parser as exactly the service it was built for |
| AwsIamRole.Principal | registry/AwsIamRole/src/index.js:24-26 | the principal is `{"Service":"<service>"}` with the service verbatim between the fixed delimiters, or `{}` when the service is undefined |
| AwsIamRole.TrustDocumentRoundTrip | registry/AwsIamRole/src/index.js:20-33 | the serialized trust document parses back to the service it was built for and starts with the fixed version/statement prefix; an undefined service gives the empty principal `{}` |
| AwsIamRole.TrustDocumentParsed | registry/AwsIamRole/src/index.js:20-33 | every string the parser accepts is exactly the trust document of what it read |
| AwsIamRole.TrustDocumentInjective | registry/AwsIamRole/src/index.js:63-77 | two services give the same trust document only when they are equal, so the update call names the new service |
| AwsIamRole.Iam.constructor | registry/AwsIamRole/src/index.js:123-125 | a fresh IAM client has an empty call log, the given faults and the arn it answers createRole with |
| AwsIamRole.Iam.Issue | registry/AwsIamRole/src/index.js:4-7 | an awaited IAM call is appended to the log whether or not it fails, and fails with the injected message; a wait never fails |
| AwsIamRole.AttachRolePolicy | registry/AwsIamRole/src/index.js:3-10 | attach with the role name and policy arn, then sleep 15000 ms only if the attach succeeded |
| AwsIamRole.DetachRolePolicy | registry/AwsIamRole/src/index.js:12-17 | one detach call with the role name and policy arn; its error propagates |
| AwsIamRole.CreateRole | registry/AwsIamRole/src/index.js:19-42 | createRole under path `/` with the trust document, then the attach sequence unless create failed; answers the client's role arn |
| AwsIamRole.UpdateAssumeRolePolicy | registry/AwsIamRole/src/index.js:63-78 | one updateAssumeRolePolicy call with the freshly built trust document |
| AwsIamRole.UpdateRole | registry/AwsIamRole/src/index.js:134-142 | the update branch: the IAM log grows by exactly the update trace (trust update if the service changed, then detach-old and attach-new if the policy changed) and the error is that trace's |
| AwsIamRole.DeleteRole | registry/AwsIamRole/src/index.js:44-61 | detach, tolerating exactly `Policy <arn> was not found.`; any other detach error stops before deleteRole |
| AwsIamRole.Role.constructor | registry/AwsIamRole/src/index.js:84-95 | policy defaults to AdministratorAccess and roleName to `role-<instanceId>` when not given; service is taken as given; no arn yet |
| AwsIamRole.Role.Deploy | registry/AwsIamRole/src/index.js:122-143 | the IAM log grows by exactly the deploy trace (create path, or trust update and policy swap) and the error is that trace's; arn is set to the created role's arn only on a successful create path |
| AwsIamRole.Role.Remove | registry/AwsIamRole/src/index.js:145-158 | the IAM log grows by the delete trace; an error mentioning `Role not found` is swallowed; arn becomes null only when the delete sequence succeeded |
| AwsIamRole.Project | registry/AwsIamRole/src/index.js:103 | `pick`: the projection keeps the previous instance's roleName, service and policy, and nothing else |
| AwsIamRole.DeployTrace | registry/AwsIamRole/src/index.js:127-142 | deploy awaits at most four calls; on the create path the first is createRole with the new name and its trust document; on the update path it issues nothing exactly when the picked fields are unchanged |
| AwsIamRole.DeleteTrace | registry/AwsIamRole/src/index.js:44-61 | `deleteRole` issues detach of the policy, then deleteRole iff the detach succeeded or reported the vanished policy; its error is exactly the last issued call's, under every fault map |
| AwsIamRole.RemoveTrace | registry/AwsIamRole/src/index.js:150-157 | remove issues detach of the current policy, then deleteRole iff the detach succeeded or reported the vanished policy; it never raises an error containing `Role not found`, and otherwise raises exactly the last call's error; its events are those of the delete sequence |
| AwsIamRole.ShouldDeploy | registry/AwsIamRole/src/index.js:97-110 | `replace` iff a previous instance has another role name; `deploy` iff there is none or the name is equal and the projected inputs differ; no verdict iff the projected inputs are equal |
| AwsIamRole.Define | registry/AwsIamRole/src/index.js:112-120 | a child is reported iff the policy is an AwsIamPolicy component, and it is that policy |
| AwsIamRole.CreatePathTrace | registry/AwsIamRole/src/index.js:127-133 | on the create path deploy issues a prefix of createRole, attach, sleep(15000), stops at the first failure with its message, and succeeds iff all three were issued |
| AwsIamRole.DeployStopsAtFirstFailure | registry/AwsIamRole/src/index.js:127-142 | deploy awaits its calls in sequence: every call before the last succeeded, a completed deploy saw no failure, and a failed deploy reports the failure of the last call it issued |
| AwsIamRole.FirstDeploy | registry/AwsIamRole/src/index.js:127-133 | a first deploy that IAM answers without errors issues exactly create, attach, sleep(15000), and the create document names the service |
| AwsIamRole.UpdatePathNeverCreates | registry/AwsIamRole/src/index.js:134-142 | with the role name unchanged deploy never creates or deletes a role |
| AwsIamRole.UpdatePathPrefix | registry/AwsIamRole/src/index.js:134-142 | on the update path under any IAM errors, deploy issues a prefix of the fault-free calls, skipping none; it succeeds iff none of those calls fails, and then it issued all of them |
| AwsIamRole.UpdatePathTrace | registry/AwsIamRole/src/index.js:134-142 | with the role name unchanged and no errors, the trust update is issued iff the service changed, and detach-old, attach-new, sleep iff the policy changed, in that order |
| AwsIamRole.ShouldDeployAgreesWithDeploy | registry/AwsIamRole/src/index.js:97-143 | no verdict means deploy issues nothing; `replace` means deploy starts with createRole under the new name; `deploy` on an unchanged name issues at least one call and no create |
| AwsIamRole.ShouldDeployIgnoresOtherFields | registry/AwsIamRole/src/index.js:103-104 | only the three picked fields are compared: the previous arn and any extra field do not change the verdict |
| AwsIamRole.RemoveWithoutErrors | registry/AwsIamRole/src/index.js:44-61 | a remove without errors issues detach of the current policy, then deleteRole of the current name |
| AwsIamRole.RemoveToleratesMissingPolicy | registry/AwsIamRole/src/index.js:50-54 | a detach answered `Policy <arn> was not found.` still leads to deleteRole, whose error is the outcome |
| AwsIamRole.RemoveStopsOnDetachError | registry/AwsIamRole/src/index.js:150-157 | any other detach error stops before the delete and surfaces unless it contains `Role not found` |
| AwsIamRole.RemoveSurfacesDeleteError | registry/AwsIamRole/src/index.js:56-58 | once the detach succeeded or reported the vanished policy, a deleteRole error without `Role not found` is what remove raises |
| AwsIamRole.RemoveClearsArnOnSuccess | registry/AwsIamRole/src/index.js:150-153 | the delete sequence succeeds, so `arn` becomes null, exactly when detach and deleteRole were both issued and deleteRole answered without an error |
| AwsIamRole.RemoveErrors | registry/AwsIamRole/src/index.js:150-157 | remove raises only IAM's own errors (the delete's, or a detach error other than the vanished policy), and never one containing `Role not found` |
| EnvCredentials.ApplyVar | src/utils/addEnvVarsToCredentials.js:12-17 | one iteration changes at most the key its variable feeds: copied when the variable is present and the key is not truthy, the provider entry created iff it existed or the variable is present; other providers untouched |
| EnvCredentials.ApplyVarsOutcome | src/utils/addEnvVarsToCredentials.js:11-18 | after one provider's loop: other providers untouched, the provider's entry exists iff it did or a variable is present, unfed keys unchanged, each fed key kept if truthy else copied from a present variable |
| EnvCredentials.Merge | src/utils/addEnvVarsToCredentials.js:9-19 | the merge never overwrites a truthy credential under any provider or key, and leaves every provider other than `aws` untouched |
| EnvCredentials.MergeIsAws | src/utils/addEnvVarsToCredentials.js:7-22 | with the one-entry providers table, the merge is the AWS loop, and its outcome is characterised key by key |
| EnvCredentials.Credentials.constructor | src/utils/addEnvVarsToCredentials.js:7 | a credentials object holding the given entries (`{}` for the default) |
| EnvCredentials.AddProviderVars | src/utils/addEnvVarsToCredentials.js:11-18 | the inner loop leaves the object's entries equal to the fold over the provider's variables |
| EnvCredentials.AddEnvVarsToCredentials | src/utils/addEnvVarsToCredentials.js:7-22 | fills the given object in place (a fresh empty one when none is given), returns it, and its entries become the merge of the old entries with the environment |
| EnvCredentials.CopiesRecognisedVariable | src/utils/addEnvVarsToCredentials.js:12-17 | a recognised variable that is present is copied verbatim, even when empty, into a missing or falsy credential |
| EnvCredentials.MergeFrame | src/utils/addEnvVarsToCredentials.js:9-19 | nothing else changes: other providers, unfed AWS keys and keys whose variable is absent |
| EnvCredentials.AwsEntryCreatedOnlyWhenNeeded | src/utils/addEnvVarsToCredentials.js:12-13 | `credentials.aws` exists afterwards iff it existed or a recognised variable is present |
| EnvCredentials.OnlyRecognisedVariablesMatter | src/utils/addEnvVarsToCredentials.js:29-34 | two environments that agree on the three AWS variables give the same merge |
| EnvCredentials.MergeIdempotent | src/utils/addEnvVarsToCredentials.js:7-22 | merging the same variables a second time changes nothing |
| Run.OrDefault | src/lib/run.js:166-167 | JavaScript `value or fallback`: the value when truthy, the fallback otherwise |
| Run.OrNull | src/lib/run.js:169-170 | JavaScript `value or null`: the value when truthy, null otherwise; never an empty string |
| Run.RunConfig.constructor | src/lib/run.js:163 | the configuration object holds the given fields |
| Run.RunConfig.ApplyDefaults | src/lib/run.js:165-170 | root defaults to the working directory, stage to `dev`, credentials to a fresh `{}`, instance and method to null, each only when falsy |
| Run.LoadEnvVars | src/lib/run.js:180-187 | the variables come from `.env.<stage>` when it exists (and `{}` if it parses to nothing, without falling back to `.env`), else from `.env` when it exists, else `{}` |
| Run.ReadEnvVars | src/lib/run.js:179-187 | the variables read are exactly `LoadEnvVars` of the stage and the files |
| Run.LoadCredentials | src/lib/run.js:179-190 | the defaulted credentials object is kept and holds the merge of its entries with the environment file's variables |
| Run.EnvFileName | src/lib/run.js:179-187 | `.env.<stage>` when it exists, else `.env` when it exists, else no file; the file chosen exists |
| Run.DefinitionFileName | src/lib/run.js:192-212 | the first existing file of `serverless.js`, `.yml`, `.yaml`, `.json`; none iff none exists |
| Run.Invoke | src/lib/run.js:143-147 | a call yields its outputs iff it does not throw; when it throws, the result is the errorHandler report of its message with the given origin |
| Run.RunProgrammatic | src/lib/run.js:36-49 | a method the component lacks is reported as `Component "<name>" does not have a "<method>" method`; a method it has is called; with no method, or a falsy one, the default call is made; errors are reported under the component's name |
| Run.Split | src/lib/run.js:113-114 | `split('::')` yields at least one piece, the first piece is a prefix of the key, and no piece contains `::` |
| Run.SplitLeftmost | src/lib/run.js:113-114 | `split('::')` cuts at the leftmost `::`: the first piece is the whole key, or it is followed by `::`, no `::` starts inside it, and the remaining pieces split what follows |
| Run.TypeAndInstanceParts | src/lib/run.js:113-114 | a key holding `::` is its type part, the leftmost `::` and the rest; the instance part is the first piece of that rest, so `A::b::c` names instance `b` |
| Run.JoinSplit | src/lib/run.js:113-114 | splitting on `::` loses nothing: joining the pieces gives the key back |
| Run.SplitWhole | src/lib/run.js:113-114 | a key without `::` is a single piece |
| Run.SplitAfterType | src/lib/run.js:113 | a colon-free type before the first `::` is the first piece |
| Run.TypePart | src/lib/run.js:113 | the type part is a prefix of the key holding no `::`, and the whole key when the key has no `::` |
| Run.InstancePart | src/lib/run.js:114 | a key has an instance part iff it contains `::`, and that part holds no `::` |
| Run.KeyParts | src/lib/run.js:113-114 | `Type::name` has type part `Type` and instance part `name` |
| Run.KeyWithoutInstance | src/lib/run.js:114 | a key without `::` has no instance part and is its own type part |
| Run.LastMatch | src/lib/run.js:109-119 | no match iff no key has the instance; otherwise the match is the last key with that instance, with its type part |
| Run.ChildId | src/lib/run.js:139 | the id is the stage, a dot, the root name, a dot, then the instance name |
| Run.ChildIdInjective | src/lib/run.js:139 | child ids `<stage>.<name>.<instance>` are distinct for distinct children when stage and name hold no dot |
| Run.DeclarativeTargetsLastInstance | src/lib/run.js:108-148 | with instance and method, the method is called on the child of the last key naming the instance, under id `<stage>.<name>.<instance>`, errors reported under its type |
| Run.DeclarativeMissingInstance | src/lib/run.js:121-124 | with instance and method, an instance no key names throws `Component instance "<i>" does not exist in your project.` |
| Run.DeclarativeInvalidType | src/lib/run.js:126-129 | with instance and method, a last matching key whose type is not a component type throws `Component "<type>" is not a valid Component.` |
| Run.DeclarativeOutcome | src/lib/run.js:67-148 | errors are thrown only with both instance and method; nothing is returned iff an instance comes without a method; reports carry the root's name or a valid component type; an output comes from a call that did not throw, made with the requested method or the default call; without an instance, the root's default call or the root's method is made, errors reported under the root's name |
| Run.FindInstance | src/lib/run.js:108-119 | the loop over the components table keeps exactly the last key whose instance part matches, with its type part (`LastMatch`) |
| Run.RunDeclarative | src/lib/run.js:58-149 | the runner's loop and branches yield exactly the declarative outcome: default call, root method, child method, the two thrown errors, or nothing |
| Run.ProgrammaticFirst | src/lib/run.js:200-201 | `serverless.js` wins over every declarative file |
| Run.DispatchDeclarative | src/lib/run.js:202-214 | a declarative file runs the declarative runner on that file's contents; what it throws is reported under `Serverless Components` |
| Run.DispatchMissingInstance | src/lib/run.js:121-124 | through run, an instance no key names ends in the `does not exist in your project.` report under `Serverless Components` |
| Run.DispatchInvalidType | src/lib/run.js:126-129 | through run, an instance whose type is not a component type ends in the `is not a valid Component.` report under `Serverless Components` |
| Run.DispatchNoBranch | src/lib/run.js:198-222 | run returns `undefined` iff a declarative file is used with an instance and no method |
| Run.Dispatch | src/lib/run.js:198-215 | with no definition file the result is the `No Serverless file … found in <root>` report under `Serverless Components`; outputs come only from a definition file and a call that did not throw, and carry the requested method when they name one |
| Run.RunDefinitionFile | src/lib/run.js:198-215 | the try block: the missing-file error, the programmatic runner, or the declarative runner with thrown errors reported under `Serverless Components` |
| Run.Run | src/lib/run.js:163-223 | the configuration gets its defaults in place; the credentials object (kept, or fresh) holds the merge of its entries with the chosen env file's variables; the result is the dispatch on the definition file |

## Left out

- `provider.getSdk()`, `new AWS.IAM()` and `.promise()` are not modelled. The IAM client is the `Iam` object passed in.
- `context.log`, the CLI singleton (`cliInstance.config`, the closing timer) and the `SERVERLESS_VERBOSE`/`SERVERLESS_DEBUG` environment flags are not modelled. They are output only.
- `info` is not modelled. It only returns display fields.
- `resolve`, `resolvable` and `loadType` are not modelled. Inputs are taken as already resolved, and an AwsIamPolicy component is the `PolicyComponent` variant of `Policy`.
- AwsIamRole.TrustDocument: the trust document is built by concatenation, without JSON escaping of the service string.
- AwsIamRole.Role.constructor: a service given as `null` is the same as one not given (both are `None`, serialized as `{}`).
- AwsIamRole.Role.Deploy: `equals` on policies is the model's structural equality of `Policy` values.
- dotenv parsing, `fileExists`, `readFile`, `coreComponentExists` and `loadComponent` are not modelled. Their results are fields of `Project`.
- Errors raised while loading or constructing components are not modelled. This includes `ComponentDeclarative` construction in the method-only branch.
- EnvCredentials.AddEnvVarsToCredentials: a `null` credentials argument is treated like an omitted one and starts from a fresh `{}`. The JavaScript default replaces only `undefined`: with an explicit `null` the function returns `null` when no recognised variable is set, and throws a TypeError otherwise. `run` never passes `null`, since it defaults the credentials to `{}` first.
- EnvCredentials.AddEnvVarsToCredentials: credential values are strings. A non-string value, or a falsy non-object provider entry, is not modelled.
- Run.Run: the context's stage is taken to be the configuration's stage.
