/** The older runner of src/tasks/mod.rs: the sequential two-phase run
    over the String-based hosts, with no parallel variant. */
module LegacyTasks {
  import opened Errors
  import opened Json
  import opened HostEntry
  import TaskRunner

  type Record = HostRecord<string, string>

  /** The `host` field of a report entry: the plain string id. */
  function HostName(h: Record): string {
    h.id
  }

  /** `run_task_seq` of the `TaskRunner` trait for `Vec<Host>`: every
      prepare before any apply, the first prepare error as the whole
      result, otherwise one entry per host whose `success` flag is the
      outcome of that host's apply and which carries that apply's `info`
      or its displayed `error`. */
  function RunTaskSeq<D>(task: TaskRunner.Task<Record, D>, hosts: seq<Record>): (r: Result<Value>)
    ensures r.Err? <==> exists i :: 0 <= i < |hosts| && task.prepare(hosts[i]).Err?
    ensures r.Err? ==> exists i :: (0 <= i < |hosts| && task.prepare(hosts[i]) == Err(r.error) &&
      forall j :: 0 <= j < i ==> task.prepare(hosts[j]).Ok?)
    ensures r.Ok? ==> r.value.Array? && |r.value.items| == |hosts|
    ensures r.Ok? ==> forall i :: 0 <= i < |hosts| ==>
      r.value.items[i].Object? && "host" in r.value.items[i].fields && "success" in r.value.items[i].fields &&
      r.value.items[i].fields["host"] == Str(hosts[i].id) &&
      r.value.items[i].fields["success"] == Bool(task.apply(hosts[i], task.prepare(hosts[i]).value).Ok?)
    ensures r.Ok? ==> forall i :: 0 <= i < |hosts| ==>
      r.value.items[i] == TaskRunner.Entry(hosts[i].id, task.apply(hosts[i], task.prepare(hosts[i]).value))
    ensures r.Ok? ==> forall i :: 0 <= i < |hosts| ==>
      var outcome := task.apply(hosts[i], task.prepare(hosts[i]).value);
      r.value.items[i].Object? &&
      if outcome.Ok? then "info" in r.value.items[i].fields && r.value.items[i].fields["info"] == outcome.value
      else "error" in r.value.items[i].fields && r.value.items[i].fields["error"] == Str(Display(outcome.error))
  {
    TaskRunner.RunTaskSeq(task, HostName, hosts)
  }

  /** Apply errors never become the run's error: once every host is
      prepared the run succeeds, and a failing apply shows up as that
      host's entry, carrying the displayed error. */
  lemma ApplyErrorsAreEntries<D>(task: TaskRunner.Task<Record, D>, hosts: seq<Record>, k: nat)
    requires forall i :: 0 <= i < |hosts| ==> task.prepare(hosts[i]).Ok?
    requires k < |hosts| && task.apply(hosts[k], task.prepare(hosts[k]).value).Err?
    ensures RunTaskSeq(task, hosts).Ok?
    ensures RunTaskSeq(task, hosts).value.items[k].fields["error"] ==
      Str(Display(task.apply(hosts[k], task.prepare(hosts[k]).value).error))
  {
  }
}
