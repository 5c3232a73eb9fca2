/**
 * The Marathon module deployer: `deploy` turns a module deployment request
 * into a Marathon app description, `status(id)` reports one module from
 * Marathon's app table, and `status()` reports every app that carries a
 * module marker. Marathon itself is input data: the app table a query would
 * return, and the app description a create call would send.
 */
module ModuleDeployer {
  import opened Wrappers
  import opened MarathonTypes
  import opened AppIdentity
  import opened StatusBuilder

  /** The key of the comma-joined list of extra module includes. */
  const IncludesKey: string := "includes"

  /** Deployment properties that override the configured CPU share and memory. */
  const CpuKey: string := "marathon.cpu"
  const MemoryKey: string := "marathon.memory"

  /** The environment entries `deploy` writes last, with fixed values. */
  const ModulesKey: string := "MODULES"
  const ProfilesKey: string := "spring.profiles.active"
  const MarathonHostKey: string := "SPRING_CLOUD_MARATHON_HOST"
  const FixedEnvKeys: set<string> := {ModulesKey, ProfilesKey, ModuleMarkerKey, MarathonHostKey}

  /**
   * The module arguments `deploy` builds before qualifying them: deployment
   * properties overridden by definition parameters, with `includes` set to
   * the caller's value, a comma and the configured default, or to the
   * configured default alone when the caller gave none.
   */
  function ModuleArgs(request: DeploymentRequest, configuredIncludes: string): (args: Env)
    ensures args.Keys == request.deploymentProperties.Keys + request.definition.parameters.Keys + {IncludesKey}
    ensures forall k :: k in request.definition.parameters && k != IncludesKey ==>
      args[k] == request.definition.parameters[k]
    ensures forall k :: k in request.deploymentProperties && k !in request.definition.parameters && k != IncludesKey ==>
      args[k] == request.deploymentProperties[k]
    ensures IncludesKey in request.definition.parameters ==>
      args[IncludesKey] == request.definition.parameters[IncludesKey] + "," + configuredIncludes
    ensures IncludesKey !in request.definition.parameters && IncludesKey in request.deploymentProperties ==>
      args[IncludesKey] == request.deploymentProperties[IncludesKey] + "," + configuredIncludes
    ensures IncludesKey !in request.definition.parameters && IncludesKey !in request.deploymentProperties ==>
      args[IncludesKey] == configuredIncludes
  {
    var merged := request.deploymentProperties + request.definition.parameters;
    merged[IncludesKey := if IncludesKey in merged then merged[IncludesKey] + "," + configuredIncludes else configuredIncludes]
  }

  /** The JMX domain of a module: `group.label`. */
  function JmxDomainName(definition: ModuleDefinition): string
  {
    definition.group + "." + definition.moduleLabel
  }

  /** The qualified module arguments, with the qualified JMX domain entry written over them. */
  function QualifiedArgs(request: DeploymentRequest, properties: MarathonProperties, context: DeployerContext): Env
  {
    context.qualify(ModuleArgs(request, properties.includes))
      + context.qualify(map[context.jmxDomainKey := JmxDomainName(request.definition)])
  }

  /** `deduceCpus`: the `marathon.cpu` override if present, else the configured CPU share. */
  function DeduceCpus(request: DeploymentRequest, properties: MarathonProperties): (r: Quantity)
    ensures r.Override? <==> CpuKey in request.deploymentProperties
    ensures r.Override? ==> r.literal == request.deploymentProperties[CpuKey]
    ensures r.Configured? ==> r.amount == properties.cpu
  {
    if CpuKey in request.deploymentProperties then Override(request.deploymentProperties[CpuKey])
    else Configured(properties.cpu)
  }

  /** `deduceMemory`: the `marathon.memory` override if present, else the configured memory. */
  function DeduceMemory(request: DeploymentRequest, properties: MarathonProperties): (r: Quantity)
    ensures r.Override? <==> MemoryKey in request.deploymentProperties
    ensures r.Override? ==> r.literal == request.deploymentProperties[MemoryKey]
    ensures r.Configured? ==> r.amount == properties.memory
  {
    if MemoryKey in request.deploymentProperties then Override(request.deploymentProperties[MemoryKey])
    else Configured(properties.memory)
  }

  /**
   * The environment `deploy` sends: qualified arguments, then server
   * properties, then the four fixed entries, each write winning over the
   * earlier ones.
   */
  lemma FixedEntriesWrittenLast(qualified: Env, server: Env, coordinates: string, marker: string, endpoint: string)
    ensures var env := (qualified + server)[ModulesKey := coordinates][ProfilesKey := "cloud"]
                         [ModuleMarkerKey := marker][MarathonHostKey := endpoint];
      && env.Keys == qualified.Keys + server.Keys + FixedEnvKeys
      && env[ModulesKey] == coordinates
      && env[ProfilesKey] == "cloud"
      && env[ModuleMarkerKey] == marker
      && env[MarathonHostKey] == endpoint
      && (forall k :: k in server && k !in FixedEnvKeys ==> env[k] == server[k])
      && (forall k :: k in qualified && k !in server && k !in FixedEnvKeys ==> env[k] == qualified[k])
  {
  }

  /**
   * `deploy(request)`: the app description sent to Marathon and the module
   * identity returned to the caller. Maps are filled in a fixed order, so a
   * later write wins over an earlier one.
   */
  method Deploy(request: DeploymentRequest, properties: MarathonProperties, context: DeployerContext)
    returns (app: App, id: ModuleDeploymentId)
    ensures id == DefinitionId(request.definition)
    ensures app.id == DeduceAppId(id)
    ensures app.instances == request.count && app.tasks == None
    ensures app.cpus == DeduceCpus(request, properties)
    ensures app.mem == DeduceMemory(request, properties)
    ensures app.env.Keys == QualifiedArgs(request, properties, context).Keys + context.serverProperties.Keys + FixedEnvKeys
    ensures app.env[ModulesKey] == request.coordinates
    ensures app.env[ProfilesKey] == "cloud"
    ensures app.env[ModuleMarkerKey] == EncodeMarker(id)
    ensures app.env[MarathonHostKey] == properties.apiEndpoint
    ensures forall k :: k in context.serverProperties && k !in FixedEnvKeys ==>
      app.env[k] == context.serverProperties[k]
    ensures forall k :: k in QualifiedArgs(request, properties, context) && k !in context.serverProperties && k !in FixedEnvKeys ==>
      app.env[k] == QualifiedArgs(request, properties, context)[k]
    ensures ':' !in id.group ==> ParseMarker(app.env[ModuleMarkerKey]) == Ok(id)
  {
    var definition := request.definition;
    var appId := DeduceRequestAppId(request);

    var args: Env := map[];
    args := args + request.deploymentProperties;
    args := args + definition.parameters;
    var includes: string;
    if IncludesKey in args {
      includes := args[IncludesKey] + "," + properties.includes;
    } else {
      includes := properties.includes;
    }
    args := args[IncludesKey := includes];
    assert args == ModuleArgs(request, properties.includes);
    var qualifiedArgs := context.qualify(args);
    var jmxDomainName := definition.group + "." + definition.moduleLabel;
    qualifiedArgs := qualifiedArgs + context.qualify(map[context.jmxDomainKey := jmxDomainName]);
    assert qualifiedArgs == QualifiedArgs(request, properties, context);

    var env: Env := map[];
    env := env + qualifiedArgs;
    env := env + context.serverProperties;
    assert env == qualifiedArgs + context.serverProperties;
    env := env[ModulesKey := request.coordinates];
    env := env[ProfilesKey := "cloud"];
    env := env[ModuleMarkerKey := definition.group + ":" + definition.moduleLabel];
    env := env[MarathonHostKey := properties.apiEndpoint];
    FixedEntriesWrittenLast(qualifiedArgs, context.serverProperties, request.coordinates,
      definition.group + ":" + definition.moduleLabel, properties.apiEndpoint);

    app := App(appId, env, DeduceCpus(request, properties), DeduceMemory(request, properties), request.count, None);
    id := DefinitionId(definition);
    if ':' !in id.group {
      MarkerRoundTrip(id);
    }
  }

  /** `undeploy(id)`: the id of the Marathon app to delete. */
  function Undeploy(id: ModuleDeploymentId): (appId: string)
    ensures forall request: DeploymentRequest :: DefinitionId(request.definition) == id ==>
      appId == DeduceRequestAppId(request)
  {
    DeduceAppId(id)
  }

  /**
   * `status(id)`: looks the module's app up in Marathon's app table (`apps`,
   * keyed by app id) and builds its status; an unknown app is Marathon's
   * failure.
   */
  method Status(id: ModuleDeploymentId, apps: map<string, App>) returns (r: Result<ModuleStatus, DeployerError>)
    ensures r.Ok? <==> DeduceAppId(id) in apps
    ensures r.Err? ==> r.error == MarathonFailure(DeduceAppId(id))
    ensures r.Ok? ==> r.value.id == id && IsReconciliation(apps[DeduceAppId(id)], r.value.instances)
  {
    var appName := DeduceAppId(id);
    if appName !in apps {
      return Err(MarathonFailure(appName));
    }
    var status := BuildStatus(id, apps[appName]);
    return Ok(status);
  }

  /** The module identity an app's marker names, if it has a well-formed marker. */
  function ModuleIdOf(app: App): Option<ModuleDeploymentId>
  {
    if ModuleMarkerKey !in app.env then None
    else match ParseMarker(app.env[ModuleMarkerKey])
      case Err(_) => None
      case Ok(id) => Some(id)
  }

  /** An app whose marker has no colon, which `status()` cannot parse. */
  predicate HasMalformedMarker(app: App)
  {
    ModuleMarkerKey in app.env && ':' !in app.env[ModuleMarkerKey]
  }

  /** One step of `status()`: what handling `app` does to the map built so far. */
  function Record(result: map<ModuleDeploymentId, ModuleStatus>, app: App)
    : Result<map<ModuleDeploymentId, ModuleStatus>, DeployerError>
  {
    if ModuleMarkerKey !in app.env then Ok(result)
    else match ParseMarker(app.env[ModuleMarkerKey])
      case Err(e) => Err(e)
      case Ok(id) => Ok(result[id := ModuleStatus(id, Reconcile(app))])
  }

  /** What `status()` returns for Marathon's app list `apps`, handled in order. */
  function Aggregate(apps: seq<App>): Result<map<ModuleDeploymentId, ModuleStatus>, DeployerError>
  {
    if apps == [] then Ok(map[])
    else match Aggregate(apps[..|apps| - 1])
      case Err(e) => Err(e)
      case Ok(result) => Record(result, apps[|apps| - 1])
  }

  /** Once `status()` has failed on a prefix of the apps, the later apps change nothing. */
  lemma {:induction false} AggregateFailureSticks(apps: seq<App>, n: nat)
    requires n <= |apps|
    requires Aggregate(apps[..n]).Err?
    ensures Aggregate(apps) == Aggregate(apps[..n])
    decreases |apps| - n
  {
    if n < |apps| {
      assert apps[..n + 1][..n] == apps[..n];
      AggregateFailureSticks(apps, n + 1);
    } else {
      assert apps[..n] == apps;
    }
  }

  /**
   * `status()` over Marathon's app list (`getApps()`): every app carrying a
   * marker is reported under the identity parsed from it, a later app
   * replacing an earlier one with the same marker; a marker without a colon
   * aborts the whole query.
   */
  method StatusAll(apps: seq<App>) returns (r: Result<map<ModuleDeploymentId, ModuleStatus>, DeployerError>)
    ensures r == Aggregate(apps)
  {
    var result: map<ModuleDeploymentId, ModuleStatus> := map[];
    for n := 0 to |apps|
      invariant Aggregate(apps[..n]) == Ok(result)
    {
      var app := apps[n];
      assert apps[..n + 1][..n] == apps[..n];
      if ModuleMarkerKey in app.env {
        var moduleMarker := app.env[ModuleMarkerKey];
        var colon := IndexOf(moduleMarker, ':');
        if colon < 0 {
          AggregateFailureSticks(apps, n + 1);
          return Err(StringIndexOutOfBounds(moduleMarker));
        }
        var id := ModuleDeploymentId(moduleMarker[..colon], moduleMarker[colon + 1..]);
        var status := BuildStatus(id, app);
        result := result[id := status];
      }
    }
    assert apps[..|apps|] == apps;
    return Ok(result);
  }

  /** `status()` fails exactly when some app's marker has no colon. */
  lemma {:induction false} AggregateFailsIffMalformed(apps: seq<App>)
    ensures Aggregate(apps).Err? <==> exists i :: 0 <= i < |apps| && HasMalformedMarker(apps[i])
  {
    if apps != [] {
      var init := apps[..|apps| - 1];
      AggregateFailsIffMalformed(init);
      if exists i :: 0 <= i < |init| && HasMalformedMarker(init[i]) {
        var i :| 0 <= i < |init| && HasMalformedMarker(init[i]);
        assert apps[i] == init[i];
      }
      if exists i :: 0 <= i < |apps| && HasMalformedMarker(apps[i]) {
        var i :| 0 <= i < |apps| && HasMalformedMarker(apps[i]);
        if i < |init| {
          assert init[i] == apps[i];
        }
      }
    }
  }

  /** The failure names the first malformed marker, the one the loop meets first. */
  lemma ReportsFirstMalformedMarker(apps: seq<App>, i: nat)
    requires i < |apps| && HasMalformedMarker(apps[i])
    requires forall j :: 0 <= j < i ==> !HasMalformedMarker(apps[j])
    ensures Aggregate(apps) == Err(StringIndexOutOfBounds(apps[i].env[ModuleMarkerKey]))
  {
    var prefix := apps[..i];
    AggregateFailsIffMalformed(prefix);
    assert apps[..i + 1][..i] == prefix;
    AggregateFailureSticks(apps, i + 1);
  }

  /** Recording an app adds at most the identity its marker names. */
  lemma RecordKeys(result: map<ModuleDeploymentId, ModuleStatus>, app: App)
    requires Record(result, app).Ok?
    ensures forall id :: id in Record(result, app).value <==> id in result || ModuleIdOf(app) == Some(id)
  {
  }

  /** Some app of the list names `id` iff one before the last does or the last does. */
  lemma NamedBySomeApp(apps: seq<App>, init: seq<App>, id: ModuleDeploymentId)
    requires apps != [] && init == apps[..|apps| - 1]
    ensures (exists i :: 0 <= i < |apps| && ModuleIdOf(apps[i]) == Some(id)) <==>
      (exists i :: 0 <= i < |init| && ModuleIdOf(init[i]) == Some(id))
      || ModuleIdOf(apps[|apps| - 1]) == Some(id)
  {
  }

  /** A successful report holds exactly the identities parsed from the apps' markers. */
  lemma {:induction false} AggregateKeys(apps: seq<App>)
    requires Aggregate(apps).Ok?
    ensures forall id :: id in Aggregate(apps).value <==>
      exists i :: 0 <= i < |apps| && ModuleIdOf(apps[i]) == Some(id)
  {
    if apps != [] {
      var init := apps[..|apps| - 1];
      var last := apps[|apps| - 1];
      var before := Aggregate(init);
      assert before.Ok? && Aggregate(apps) == Record(before.value, last);
      AggregateKeys(init);
      RecordKeys(before.value, last);
      forall id
        ensures id in Aggregate(apps).value <==> exists i :: 0 <= i < |apps| && ModuleIdOf(apps[i]) == Some(id)
      {
        NamedBySomeApp(apps, init, id);
      }
    }
  }

  /**
   * Apps sharing a marker are not merged: the report holds the status built
   * from the last of them alone.
   */
  lemma {:induction false} AggregateLastWins(apps: seq<App>, i: nat)
    requires Aggregate(apps).Ok?
    requires i < |apps| && ModuleIdOf(apps[i]).Some?
    requires forall j :: i < j < |apps| ==> ModuleIdOf(apps[j]) != ModuleIdOf(apps[i])
    ensures ModuleIdOf(apps[i]).value in Aggregate(apps).value
    ensures Aggregate(apps).value[ModuleIdOf(apps[i]).value]
      == ModuleStatus(ModuleIdOf(apps[i]).value, Reconcile(apps[i]))
  {
    var init := apps[..|apps| - 1];
    if i < |init| {
      assert init[i] == apps[i];
      forall j | i < j < |init|
        ensures ModuleIdOf(init[j]) != ModuleIdOf(init[i])
      {
        assert init[j] == apps[j];
      }
      AggregateLastWins(init, i);
    }
  }

  /** An app without a marker is skipped wherever it stands in the list. */
  lemma {:induction false} UnmarkedAppIgnored(before: seq<App>, app: App, after: seq<App>)
    requires ModuleMarkerKey !in app.env
    ensures Aggregate(before + [app] + after) == Aggregate(before + after)
  {
    if after == [] {
      assert (before + [app])[..|before|] == before;
      assert before + [app] + after == before + [app];
      assert before + after == before;
    } else {
      var last := after[|after| - 1];
      var rest := after[..|after| - 1];
      UnmarkedAppIgnored(before, app, rest);
      assert (before + [app] + after)[..|before + [app] + after| - 1] == before + [app] + rest;
      assert (before + after)[..|before + after| - 1] == before + rest;
    }
  }

  /** The step of the fold on an app appended after `apps`. */
  lemma AggregateSnoc(apps: seq<App>, app: App)
    ensures Aggregate(apps + [app]) == match Aggregate(apps)
      case Err(e) => Err(e)
      case Ok(result) => Record(result, app)
  {
  }

  /** The marker `g1:l1` names the module `(g1, l1)`. */
  lemma ParseG1L1()
    ensures ParseMarker("g1:l1") == Ok(ModuleDeploymentId("g1", "l1"))
  {
    var id := ModuleDeploymentId("g1", "l1");
    MarkerRoundTrip(id);
    assert EncodeMarker(id) == "g1:l1";
  }

  /**
   * Two apps marked `g1:l1`, the later with the single task y and one
   * requested instance, then an app without a marker: the report has the
   * single entry for `(g1, l1)`, and it holds only y, from the later app.
   */
  lemma SharedMarkerKeepsLastApp(first: App, second: App, unmarked: App, y: Task)
    requires first.env == map[ModuleMarkerKey := "g1:l1"] && second.env == first.env
    requires second.instances == 1 && second.tasks == Some([y])
    requires ModuleMarkerKey !in unmarked.env
    ensures var id := ModuleDeploymentId("g1", "l1");
      Aggregate([first, second, unmarked]) == Ok(map[id := ModuleStatus(id, [Up(second, y)])])
  {
    var id := ModuleDeploymentId("g1", "l1");
    var afterFirst := map[id := ModuleStatus(id, Reconcile(first))];
    var afterSecond := map[id := ModuleStatus(id, [Up(second, y)])];
    ParseG1L1();
    AggregateSnoc([], first);
    assert [] + [first] == [first];
    assert Aggregate([first]) == Ok(afterFirst);
    assert Reconcile(second) == [Up(second, y)];
    assert afterFirst[id := ModuleStatus(id, Reconcile(second))] == afterSecond;
    AggregateSnoc([first], second);
    assert [first] + [second] == [first, second];
    assert Aggregate([first, second]) == Ok(afterSecond);
    AggregateSnoc([first, second], unmarked);
    assert [first, second] + [unmarked] == [first, second, unmarked];
  }
}
