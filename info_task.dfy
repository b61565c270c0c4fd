/** The `info` task of src/tasks/info.rs: it prepares nothing and reports
    each host's own record. */
module InfoTask {
  import opened Errors
  import opened Json
  import opened HostIds
  import opened HostTags
  import opened HostEntry
  import opened HostDocuments
  import TaskRunner

  type Record = HostRecord<HostId, HostTag>

  /** The task carries no state. */
  datatype Info = Info

  function New(): Info {
    Info
  }

  /** `prepare`: nothing to prepare, for any host. */
  function Prepare(host: Record): Result<()> {
    Ok(())
  }

  /** `apply`: the host record serialised as a JSON document, which reads
      back as the same host when its id and tags are valid. */
  function Apply(host: Record, data: ()): (r: Result<Value>)
    ensures r.Ok? && r.value.Object? && r.value.fields.Keys == {"id", "address", "user", "tags", "vars"}
    ensures ValidHostId(host.id) && (forall i :: 0 <= i < |host.tags| ==> ValidHostTag(host.tags[i])) ==>
      HostFromValue(r.value, ParseHostId, ParseHostTag) == Ok(host)
  {
    var info := ToJson(host, HostIdText, HostTagText);
    var valid := ValidHostId(host.id) && (forall i :: 0 <= i < |host.tags| ==> ValidHostTag(host.tags[i]));
    assert valid ==> HostFromValue(info, ParseHostId, ParseHostTag) == Ok(host) by {
      if valid {
        PreludeRoundTrip(host);
      }
    }
    Ok(info)
  }

  function AsTask(info: Info): TaskRunner.Task<Record, ()> {
    TaskRunner.Task(Prepare, Apply)
  }

  function HostName(h: Record): string {
    h.id.value
  }

  /** Running `info` never fails, sequentially or in parallel, and every
      entry is a success whose info is that host's record. */
  lemma InfoReport(hosts: seq<Record>, pick: seq<nat> -> nat)
    ensures TaskRunner.RunTaskSeq(AsTask(New()), HostName, hosts) ==
      Ok(Array(seq(|hosts|, i requires 0 <= i < |hosts| =>
        Object(map["host" := Str(hosts[i].id.value), "success" := Bool(true),
                   "info" := ToJson(hosts[i], HostIdText, HostTagText)]))))
    ensures TaskRunner.RunTaskParallel(AsTask(New()), HostName, hosts, pick) ==
      TaskRunner.RunTaskSeq(AsTask(New()), HostName, hosts)
  {
    var task := AsTask(New());
    var r := TaskRunner.RunTaskSeq(task, HostName, hosts);
    assert forall i :: 0 <= i < |hosts| ==> task.prepare(hosts[i]).Ok?;
    TaskRunner.ParallelIsSequential(task, HostName, hosts, pick);
    var expected := seq(|hosts|, i requires 0 <= i < |hosts| =>
      Object(map["host" := Str(hosts[i].id.value), "success" := Bool(true),
                 "info" := ToJson(hosts[i], HostIdText, HostTagText)]));
    assert r.Ok? && r.value.Array?;
    assert forall i :: 0 <= i < |hosts| ==> r.value.items[i] == expected[i];
    assert r.value.items == expected;
  }
}
