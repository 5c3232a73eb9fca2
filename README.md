# Marathon module deployer, modelled in Dafny

This project models the core of the Spring Cloud Data Flow module deployer
for Marathon (Mesos), `MarathonModuleDeployer`. The deployer does four things:

- **deploy** turns a module deployment request into a Marathon app
  description. The app id is `group-label`. The environment merges the
  qualified module arguments, the server properties and four fixed entries,
  in that order. One fixed entry is the module marker
  `SPRING_CLOUD_DATAFLOW_MODULE=group:label`.
- **undeploy** names the app to delete.
- **status(id)** looks up one module's app.
- **status()** walks every Marathon app. It reads the module marker back,
  splitting it at the first colon. It reports each marked app under the
  identity parsed from the marker.

In both status queries an app's status is reconciled from the app's requested
instance count and the tasks Marathon reports. The result has one UP entry per
task, in task order. It is then padded with DOWN entries up to the requested
count. There is never any clamping.

Marathon itself is input data. The create call becomes the returned app
description. The `getApp` query becomes a map from app id to app. The
`getApps` query becomes a sequence of apps.

Files:

- `wrappers.dfy`: `Option` and `Result`.
- `marathon_types.dfy`: the request, configuration, app, task and status
  datatypes, and the marker key.
- `app_identity.dfy`: app ids, and writing and parsing the module marker.
- `status_builder.dfy`: `buildStatus`, written as a method with loops. It is
  proved against the specification predicate `IsReconciliation` and the
  function `Reconcile`.
- `module_deployer.dfy`: `deploy`, `undeploy`, `status(id)` and `status()`.
  The `status()` loop is proved equal to the left-to-right fold `Aggregate`.
  The fold applies the step `Record` to each app. Lemmas state what the fold
  reports.

The module identity's `label` is called `moduleLabel` here, because `label`
is a reserved word in Dafny.

## Model

| member | source | states |
|---|---|---|
| `AppIdentity.IndexOf` | spring-cloud-dataflow-deployer-mesos/src/main/java/org/springframework/cloud/dataflow/module/deployer/marathon/MarathonModuleDeployer.java:163 | `indexOf(':')` is -1 exactly when the character is absent. Otherwise it is a position holding the character with no earlier occurrence. |
| `AppIdentity.DeduceAppId` | spring-cloud-dataflow-deployer-mesos/src/main/java/org/springframework/cloud/dataflow/module/deployer/marathon/MarathonModuleDeployer.java:141-143 | The app id is the group, then one `-`, then the label, with case and characters preserved. |
| `AppIdentity.DeduceRequestAppId` | spring-cloud-dataflow-deployer-mesos/src/main/java/org/springframework/cloud/dataflow/module/deployer/marathon/MarathonModuleDeployer.java:200-202 | The request-based app id equals the id-based app id of the request's module identity. So undeploy and status find the app that deploy created. |
| `AppIdentity.AppIdCollision` | spring-cloud-dataflow-deployer-mesos/src/main/java/org/springframework/cloud/dataflow/module/deployer/marathon/MarathonModuleDeployer.java:141-143 | Distinct modules `(a-b, c)` and `(a, b-c)` get the same app id `a-b-c`. |
| `AppIdentity.AppIdInjective` | spring-cloud-dataflow-deployer-mesos/src/main/java/org/springframework/cloud/dataflow/module/deployer/marathon/MarathonModuleDeployer.java:141-143 | Among modules whose groups hold no `-`, equal app ids imply equal module identities. |
| `AppIdentity.EncodeMarker` | spring-cloud-dataflow-deployer-mesos/src/main/java/org/springframework/cloud/dataflow/module/deployer/marathon/MarathonModuleDeployer.java:105 | The marker is the group, then one `:`, then the label, each part kept as given. |
| `AppIdentity.ParseMarker` | spring-cloud-dataflow-deployer-mesos/src/main/java/org/springframework/cloud/dataflow/module/deployer/marathon/MarathonModuleDeployer.java:163-165 | Parsing fails with a `substring` bounds error exactly when the marker has no colon. On success, the group has no colon and `group:label` rebuilds the marker. |
| `AppIdentity.MarkerRoundTrip` | spring-cloud-dataflow-deployer-mesos/src/main/java/org/springframework/cloud/dataflow/module/deployer/marathon/MarathonModuleDeployer.java:163-165 | Parsing the marker `group:label` (written at line 105) recovers `(group, label)` whenever the group has no colon. The label may contain colons. |
| `AppIdentity.MarkerRoundTripNeedsColonFreeGroup` | spring-cloud-dataflow-deployer-mesos/src/main/java/org/springframework/cloud/dataflow/module/deployer/marathon/MarathonModuleDeployer.java:163-165 | When the group contains a colon, the round trip does not recover the identity. |
| `StatusBuilder.UpEntries` | spring-cloud-dataflow-deployer-mesos/src/main/java/org/springframework/cloud/dataflow/module/deployer/marathon/MarathonModuleDeployer.java:178-183 | One UP entry per task, in the order the tasks were given. |
| `StatusBuilder.DownEntries` | spring-cloud-dataflow-deployer-mesos/src/main/java/org/springframework/cloud/dataflow/module/deployer/marathon/MarathonModuleDeployer.java:184-186 | The padding holds `max(n, 0)` entries, all DOWN. |
| `StatusBuilder.Reconcile` | spring-cloud-dataflow-deployer-mesos/src/main/java/org/springframework/cloud/dataflow/module/deployer/marathon/MarathonModuleDeployer.java:174-188 | The report has `max(requested, #tasks)` entries. The first `#tasks` are UP, one per task in order. All later entries are DOWN. |
| `StatusBuilder.BuildStatus` | spring-cloud-dataflow-deployer-mesos/src/main/java/org/springframework/cloud/dataflow/module/deployer/marathon/MarathonModuleDeployer.java:174-188 | The counting loop and the padding loop give a status for the given id. It meets that same description, so it equals `Reconcile`. |
| `StatusBuilder.UpAndDownCounts` | spring-cloud-dataflow-deployer-mesos/src/main/java/org/springframework/cloud/dataflow/module/deployer/marathon/MarathonModuleDeployer.java:176-186 | A report counts exactly `#tasks` UP entries and `max(requested - #tasks, 0)` DOWN entries. |
| `StatusBuilder.NoClampWhenOverProvisioned` | spring-cloud-dataflow-deployer-mesos/src/main/java/org/springframework/cloud/dataflow/module/deployer/marathon/MarathonModuleDeployer.java:184-186 | When `#tasks >= requested`, the report has `#tasks` entries and all of them are UP. There is no padding and no clamping to the requested count. |
| `StatusBuilder.NullTasksAreNoTasks` | spring-cloud-dataflow-deployer-mesos/src/main/java/org/springframework/cloud/dataflow/module/deployer/marathon/MarathonModuleDeployer.java:178 | A null or empty task list gives only DOWN padding up to the requested count. |
| `ModuleDeployer.ModuleArgs` | spring-cloud-dataflow-deployer-mesos/src/main/java/org/springframework/cloud/dataflow/module/deployer/marathon/MarathonModuleDeployer.java:86-96 | The arguments hold the keys of both maps plus `includes`. A definition parameter overrides a deployment property with the same key. `includes` is the caller's value, a comma and the configured default, or the configured default alone when the caller gave none. |
| `ModuleDeployer.DeduceCpus` | spring-cloud-dataflow-deployer-mesos/src/main/java/org/springframework/cloud/dataflow/module/deployer/marathon/MarathonModuleDeployer.java:195-198 | The CPU share is an override exactly when `marathon.cpu` is among the deployment properties, and then it is that property's text. Otherwise it is the configured CPU share. |
| `ModuleDeployer.DeduceMemory` | spring-cloud-dataflow-deployer-mesos/src/main/java/org/springframework/cloud/dataflow/module/deployer/marathon/MarathonModuleDeployer.java:190-193 | The memory is an override exactly when `marathon.memory` is among the deployment properties, and then it is that property's text. Otherwise it is the configured memory. |
| `ModuleDeployer.Deploy` | spring-cloud-dataflow-deployer-mesos/src/main/java/org/springframework/cloud/dataflow/module/deployer/marathon/MarathonModuleDeployer.java:84-127 | The app id is `DeduceAppId` of the returned identity, and the instance count equals the request's. CPU and memory are `DeduceCpus` and `DeduceMemory` of the request. The env keys are the qualified args, the server properties and the four fixed keys. The fixed keys hold the coordinates, `cloud`, `group:label` and the API endpoint. Server properties override qualified args. When the group has no colon, the marker parses back to the identity. |
| `ModuleDeployer.Undeploy` | spring-cloud-dataflow-deployer-mesos/src/main/java/org/springframework/cloud/dataflow/module/deployer/marathon/MarathonModuleDeployer.java:131-139 | The app deleted for an identity is the app created by any request for that identity. |
| `ModuleDeployer.Status` | spring-cloud-dataflow-deployer-mesos/src/main/java/org/springframework/cloud/dataflow/module/deployer/marathon/MarathonModuleDeployer.java:146-155 | It succeeds exactly when Marathon knows the app `group-label`, and then reconciles that app under the given id. Otherwise it fails with Marathon's failure for that app id. |
| `ModuleDeployer.StatusAll` | spring-cloud-dataflow-deployer-mesos/src/main/java/org/springframework/cloud/dataflow/module/deployer/marathon/MarathonModuleDeployer.java:158-172 | The loop over the apps returns exactly the fold `Aggregate`, including the early abort on a malformed marker. |
| `ModuleDeployer.AggregateFailsIffMalformed` | spring-cloud-dataflow-deployer-mesos/src/main/java/org/springframework/cloud/dataflow/module/deployer/marathon/MarathonModuleDeployer.java:161-165 | `status()` fails exactly when some app carries a marker without a colon. |
| `ModuleDeployer.ReportsFirstMalformedMarker` | spring-cloud-dataflow-deployer-mesos/src/main/java/org/springframework/cloud/dataflow/module/deployer/marathon/MarathonModuleDeployer.java:160-165 | The failure is the bounds error on the first malformed marker in app order. |
| `ModuleDeployer.AggregateFailureSticks` | spring-cloud-dataflow-deployer-mesos/src/main/java/org/springframework/cloud/dataflow/module/deployer/marathon/MarathonModuleDeployer.java:160-170 | After a failure on some prefix of the apps, the remaining apps do not change the outcome. |
| `ModuleDeployer.AggregateKeys` | spring-cloud-dataflow-deployer-mesos/src/main/java/org/springframework/cloud/dataflow/module/deployer/marathon/MarathonModuleDeployer.java:159-171 | A successful report's keys are exactly the identities parsed from the apps' markers. Apps without a marker are omitted. |
| `ModuleDeployer.AggregateLastWins` | spring-cloud-dataflow-deployer-mesos/src/main/java/org/springframework/cloud/dataflow/module/deployer/marathon/MarathonModuleDeployer.java:166-168 | For apps sharing a marker, the entry is the status reconciled from the last such app alone, because `put` overwrites. |
| `ModuleDeployer.UnmarkedAppIgnored` | spring-cloud-dataflow-deployer-mesos/src/main/java/org/springframework/cloud/dataflow/module/deployer/marathon/MarathonModuleDeployer.java:161-162 | Inserting an app without a marker anywhere in the app list leaves the outcome unchanged. |
| `ModuleDeployer.SharedMarkerKeepsLastApp` | spring-cloud-dataflow-deployer-mesos/src/main/java/org/springframework/cloud/dataflow/module/deployer/marathon/MarathonModuleDeployer.java:158-172 | Take two apps marked `g1:l1`, the later one with one requested instance and the single task y, followed by an unmarked app. The report has the single entry `(g1, l1)`, and it holds only `UP(y)` from the later app. |

## Behaviour worth noting

- Apps sharing a marker are not merged: `HashMap.put` (line 168) keeps only the last app's status; see `AggregateLastWins`, `SharedMarkerKeepsLastApp`.
- A negative requested count is not checked: the padding loop (line 184) adds nothing, so `Reconcile` yields `max(requested, #tasks)` entries for every integer.

## Left out

- Marathon REST calls (`createApp`, `deleteApp`, `getApp`, `getApps`) and the construction of the client: these are network I/O in a library that is not part of this model. Queries are input data, and creation is the returned app description.
- Wrapping `MarathonException` in `RuntimeException`: transport failures are not modelled. The only Marathon failure kept is `status(id)` on an app id Marathon does not know.
- ModuleDeployer.Status: Marathon's app table is taken as a map keyed by app id. Any other Marathon failure (transport, server error) is not modelled.
- ModuleDeployer.Deploy: the Docker container, image, port mapping and network settings (lines 73-82) and the log line (line 119) are fixed values with no behaviour and are not part of the app description. The configured Docker image is therefore not among the modelled properties either.
- ModuleDeployer.Deploy: `Double.valueOf` on a CPU or memory override is floating-point parsing. The override stays as its text (`Override`), and a malformed number (a `NumberFormatException`) is not modelled.
- `ModuleArgumentQualifier.qualifyArgs`, `DataFlowServerProperties.asStringProperties` and `JMX_DEFAULT_DOMAIN_KEY` are code that is not part of this model. They are the uninterpreted fields `qualify`, `serverProperties` and `jmxDomainKey` of `DeployerContext`.
- `MarathonModuleInstanceStatus.up/down` are not part of this model. An instance status is `Up(app, task)` or `Down(app)`. The aggregate deployment state a consumer derives from the entries is not modelled.
- Java `null`s other than the task list are not modelled: a null environment map, a null marker value, a null instance count or a null configured `includes`.
- The `int` task counter `actualInstances` is unbounded here. Its 32-bit overflow would need more than 2^31 tasks.
- `MarathonAutoConfiguration` (dependency-injection and Redis connector wiring) and the context-loading test contain no logic of their own.
- StatusBuilder.BuildStatus: `ModuleStatus.of(id)`, `Builder.with` and `build` are code that is not part of this model. A status is taken as the ordered list of every instance status passed to `with`, in call order. Length `max(requested, #tasks)` and task order hold of the stored status only if the builder keeps every entry in that order; a builder keyed by instance would merge the identical DOWN entries.
- ModuleDeployer.StatusAll: `ModuleDeploymentId` is code that is not part of this model. The overwrite by `result.put(id, status)` is modelled with structural equality on (group, label). That matches Java only if `ModuleDeploymentId.equals` and `hashCode` compare exactly group and label.
