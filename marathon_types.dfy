/**
 * The entities the Marathon module deployer reads and writes: the module
 * deployment request coming from the Data Flow server, the Marathon app
 * description it creates, the app and task snapshot Marathon reports back,
 * and the module status built from that snapshot.
 */
module MarathonTypes {
  import opened Wrappers

  /** A string-keyed map such as an app's environment or a parameter map. */
  type Env = map<string, string>

  /** The name of the environment variable that marks an app as a Data Flow module. */
  const ModuleMarkerKey: string := "SPRING_CLOUD_DATAFLOW_MODULE"

  /** The identity of a deployed module: its stream (group) and its label. */
  datatype ModuleDeploymentId = ModuleDeploymentId(group: string, moduleLabel: string)

  /** The module definition carried by a request. */
  datatype ModuleDefinition = ModuleDefinition(group: string, moduleLabel: string, parameters: Env)

  /** A module deployment request; `coordinates` is the printed Maven coordinates of the module. */
  datatype DeploymentRequest = DeploymentRequest(
    definition: ModuleDefinition,
    coordinates: string,
    deploymentProperties: Env,
    count: int)

  /** The deployer's static configuration. */
  datatype MarathonProperties = MarathonProperties(
    apiEndpoint: string,
    includes: string,
    memory: real,
    cpu: real)

  /**
   * Code the deployer calls but that is not part of this model:
   * `qualify` stands for `ModuleArgumentQualifier.qualifyArgs(0, ·)`,
   * `jmxDomainKey` for `JMX_DEFAULT_DOMAIN_KEY` and `serverProperties` for
   * `DataFlowServerProperties.asStringProperties()`.
   */
  datatype DeployerContext = DeployerContext(
    qualify: Env -> Env,
    jmxDomainKey: string,
    serverProperties: Env)

  /**
   * A CPU or memory amount: either the text of a deployment-property
   * override (to be read as a Java `Double`) or the configured default.
   */
  datatype Quantity = Override(literal: string) | Configured(amount: real)

  /** A running Marathon task. */
  datatype Task = Task(id: string, host: string)

  /**
   * A Marathon app: the description the deployer creates and the snapshot
   * Marathon reports (`tasks` is `None` where Marathon's task list is null).
   */
  datatype App = App(
    id: string,
    env: Env,
    cpus: Quantity,
    mem: Quantity,
    instances: int,
    tasks: Option<seq<Task>>)

  /** The status of one module instance, built from the app and, when up, its task. */
  datatype InstanceStatus = Up(app: App, task: Task) | Down(app: App)

  /** The status of a deployed module: one entry per instance. */
  datatype ModuleStatus = ModuleStatus(id: ModuleDeploymentId, instances: seq<InstanceStatus>)

  /** Failures the deployer reports. */
  datatype DeployerError =
    /** `String.substring` rejected its bounds while parsing `text`. */
    | StringIndexOutOfBounds(text: string)
    /** Marathon refused the request for the app `appId` (e.g. an unknown app). */
    | MarathonFailure(appId: string)
}
