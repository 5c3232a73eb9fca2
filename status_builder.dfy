/**
 * Status reconciliation (`buildStatus`): the requested instance count of an
 * app and the tasks Marathon reports for it become one UP entry per task, in
 * task order, padded with DOWN entries up to the requested count.
 */
module StatusBuilder {
  import opened Wrappers
  import opened MarathonTypes

  function Max(a: int, b: int): int
  {
    if a < b then b else a
  }

  /** The app's tasks; a null task list counts as no tasks. */
  function TasksOf(app: App): seq<Task>
  {
    match app.tasks
    case None => []
    case Some(tasks) => tasks
  }

  /**
   * What a status report for `app` must be: `max(requested, #tasks)` entries,
   * UP for each task in order first, DOWN for every remaining slot.
   */
  ghost predicate IsReconciliation(app: App, statuses: seq<InstanceStatus>)
  {
    var tasks := TasksOf(app);
    && |statuses| == Max(app.instances, |tasks|)
    && (forall i :: 0 <= i < |tasks| ==> statuses[i] == Up(app, tasks[i]))
    && (forall i :: |tasks| <= i < |statuses| ==> statuses[i] == Down(app))
  }

  /** At most one status report meets that description. */
  lemma ReconciliationIsUnique(app: App, s: seq<InstanceStatus>, t: seq<InstanceStatus>)
    requires IsReconciliation(app, s) && IsReconciliation(app, t)
    ensures s == t
  {
  }

  /** `n` DOWN entries for `app`; none when `n` is not positive. */
  function DownEntries(app: App, n: int): (entries: seq<InstanceStatus>)
    ensures |entries| == Max(n, 0)
    ensures forall i :: 0 <= i < |entries| ==> entries[i] == Down(app)
  {
    if n <= 0 then [] else DownEntries(app, n - 1) + [Down(app)]
  }

  /** One UP entry per task, in task order. */
  function UpEntries(app: App, tasks: seq<Task>): (entries: seq<InstanceStatus>)
    ensures |entries| == |tasks|
    ensures forall i :: 0 <= i < |tasks| ==> entries[i] == Up(app, tasks[i])
  {
    if tasks == [] then [] else UpEntries(app, tasks[..|tasks| - 1]) + [Up(app, tasks[|tasks| - 1])]
  }

  /** The instance statuses `buildStatus` reports for `app`. */
  function Reconcile(app: App): (statuses: seq<InstanceStatus>)
    ensures IsReconciliation(app, statuses)
  {
    var tasks := TasksOf(app);
    UpEntries(app, tasks) + DownEntries(app, app.instances - |tasks|)
  }

  /**
   * `buildStatus(id, app)`: walks the tasks counting them, then pads with
   * DOWN entries from that count up to the requested instances.
   */
  method BuildStatus(id: ModuleDeploymentId, app: App) returns (status: ModuleStatus)
    ensures status.id == id
    ensures IsReconciliation(app, status.instances)
    ensures status.instances == Reconcile(app)
  {
    var entries: seq<InstanceStatus> := [];
    var requestedInstances := app.instances;
    var actualInstances := 0;
    if app.tasks.Some? {
      var tasks := app.tasks.value;
      for k := 0 to |tasks|
        invariant actualInstances == k
        invariant |entries| == k
        invariant forall i :: 0 <= i < k ==> entries[i] == Up(app, tasks[i])
      {
        entries := entries + [Up(app, tasks[k])];
        actualInstances := actualInstances + 1;
      }
    }
    var i := actualInstances;
    while i < requestedInstances
      invariant actualInstances == |TasksOf(app)|
      invariant actualInstances <= i <= Max(requestedInstances, actualInstances)
      invariant |entries| == Max(i, actualInstances)
      invariant forall j :: 0 <= j < actualInstances ==> entries[j] == Up(app, TasksOf(app)[j])
      invariant forall j :: actualInstances <= j < |entries| ==> entries[j] == Down(app)
    {
      entries := entries + [Down(app)];
      i := i + 1;
    }
    status := ModuleStatus(id, entries);
    ReconciliationIsUnique(app, entries, Reconcile(app));
  }

  /** The number of UP entries in a status report. */
  function CountUp(statuses: seq<InstanceStatus>): nat
  {
    if statuses == [] then 0
    else CountUp(statuses[..|statuses| - 1]) + (if statuses[|statuses| - 1].Up? then 1 else 0)
  }

  /** The number of DOWN entries in a status report. */
  function CountDown(statuses: seq<InstanceStatus>): nat
  {
    if statuses == [] then 0
    else CountDown(statuses[..|statuses| - 1]) + (if statuses[|statuses| - 1].Down? then 1 else 0)
  }

  lemma {:induction false} CountsOfSplit(statuses: seq<InstanceStatus>, k: nat)
    requires k <= |statuses|
    requires forall i :: 0 <= i < k ==> statuses[i].Up?
    requires forall i :: k <= i < |statuses| ==> statuses[i].Down?
    ensures CountUp(statuses) == k
    ensures CountDown(statuses) == |statuses| - k
  {
    if statuses != [] {
      var init := statuses[..|statuses| - 1];
      if k == |statuses| {
        CountsOfSplit(init, k - 1);
      } else {
        CountsOfSplit(init, k);
      }
    }
  }

  /**
   * A report counts one UP entry per reported task and DOWN entries for the
   * shortfall below the requested count, never below zero.
   */
  lemma UpAndDownCounts(app: App)
    ensures CountUp(Reconcile(app)) == |TasksOf(app)|
    ensures CountDown(Reconcile(app)) == Max(app.instances - |TasksOf(app)|, 0)
  {
    CountsOfSplit(Reconcile(app), |TasksOf(app)|);
  }

  /**
   * With at least as many tasks as requested the report is exactly the UP
   * entries of all tasks: no padding, and no clamping to the requested count.
   */
  lemma NoClampWhenOverProvisioned(app: App)
    requires |TasksOf(app)| >= app.instances
    ensures |Reconcile(app)| == |TasksOf(app)|
    ensures forall e :: e in Reconcile(app) ==> e.Up?
  {
  }

  /** A null task list counts as no tasks: the report is all DOWN padding. */
  lemma NullTasksAreNoTasks(app: App)
    requires app.tasks == None || app.tasks == Some([])
    ensures Reconcile(app) == DownEntries(app, app.instances)
  {
  }
}
