/** The `download` task of src/tasks/download.rs: each host's file lands
    under the working directory, in a directory named after the host. */
module DownloadTask {
  import opened Errors
  import opened Json
  import opened HostIds
  import opened HostTags
  import opened HostEntry
  import opened Paths
  import TaskRunner

  type Record = HostRecord<HostId, HostTag>

  datatype Download = Download(remotePath: string, localPath: string)

  const AbsoluteLocalPath: Error := IsAbsolute("Local path should be a relative path, not absolute")

  /** `{cwd}/{host.id}/{local_path}`. */
  function FullPath(cwd: string, id: HostId, local: string): string {
    Join(Join(cwd, id.value), local)
  }

  /** The directory of one host's downloads. */
  function HostDir(cwd: string, id: HostId): string {
    Join(cwd, id.value)
  }

  /** For a valid id and a relative local path, the full path is the host's
      directory, a separator, then the local path. */
  lemma FullPathShape(cwd: string, id: HostId, local: string)
    requires ValidHostId(id) && !IsAbsolutePath(local)
    ensures FullPath(cwd, id, local) == HostDir(cwd, id) + "/" + local
    ensures HostDir(cwd, id) == (if cwd == [] || cwd[|cwd| - 1] == '/' then cwd else cwd + "/") + id.value
  {
    NoSlashInId(id.value);
    assert id.value[|id.value| - 1] != '/';
  }

  /** Different hosts never share a download path, whatever the two local
      paths are. */
  lemma DistinctHostsDistinctPaths(cwd: string, id1: HostId, id2: HostId, local1: string, local2: string)
    requires ValidHostId(id1) && ValidHostId(id2) && id1 != id2
    requires !IsAbsolutePath(local1) && !IsAbsolutePath(local2)
    ensures FullPath(cwd, id1, local1) != FullPath(cwd, id2, local2)
  {
    FullPathShape(cwd, id1, local1);
    FullPathShape(cwd, id2, local2);
    NoSlashInId(id1.value);
    NoSlashInId(id2.value);
    var base := if cwd == [] || cwd[|cwd| - 1] == '/' then cwd else cwd + "/";
    var p1 := FullPath(cwd, id1, local1);
    var p2 := FullPath(cwd, id2, local2);
    assert p1 == base + (id1.value + "/" + local1);
    assert p2 == base + (id2.value + "/" + local2);
    var s1 := id1.value + "/" + local1;
    var s2 := id2.value + "/" + local2;
    var j: nat;
    if |id1.value| < |id2.value| {
      j := |id1.value|;
      assert s1[j] == '/' && s2[j] == id2.value[j];
    } else if |id2.value| < |id1.value| {
      j := |id2.value|;
      assert s2[j] == '/' && s1[j] == id1.value[j];
    } else {
      j :| j < |id1.value| && id1.value[j] != id2.value[j];
      assert s1[j] == id1.value[j] && s2[j] == id2.value[j];
    }
    assert p1[|base| + j] == s1[j] != s2[j] == p2[|base| + j];
  }

  /** The directory `prepare` creates lies inside the host's directory. */
  lemma ParentInHostDir(cwd: string, id: HostId, local: string)
    requires ValidHostId(id) && !IsAbsolutePath(local)
    ensures |HostDir(cwd, id)| <= |Parent(FullPath(cwd, id, local))|
    ensures Parent(FullPath(cwd, id, local))[..|HostDir(cwd, id)|] == HostDir(cwd, id)
  {
    FullPathShape(cwd, id, local);
    var full := FullPath(cwd, id, local);
    var dir := HostDir(cwd, id);
    assert full[|dir|] == '/';
    LastSegmentAfterSeparator(dir, local);
  }

  /** `prepare`: an absolute local path is refused before anything else is
      looked at; otherwise the host's path is composed under the working
      directory (`cwd`, or the error of reading it) and its parent
      directory is created (`createDirAll`, which may fail). */
  function Prepare(task: Download, host: Record, cwd: Result<string>, createDirAll: string -> Result<()>): (r: Result<string>)
    ensures IsAbsolutePath(task.localPath) ==> r == Err(AbsoluteLocalPath)
    ensures !IsAbsolutePath(task.localPath) && cwd.Err? ==> r == Err(cwd.error)
    ensures r.Ok? ==> cwd.Ok? && r.value == FullPath(cwd.value, host.id, task.localPath)
    ensures r.Ok? ==> createDirAll(Parent(r.value)).Ok?
    ensures !IsAbsolutePath(task.localPath) && cwd.Ok? ==>
      (r.Ok? <==> createDirAll(Parent(FullPath(cwd.value, host.id, task.localPath))).Ok?)
  {
    if IsAbsolutePath(task.localPath) then Err(AbsoluteLocalPath)
    else
      var dir :- cwd;
      var full := FullPath(dir, host.id, task.localPath);
      var _ :- createDirAll(Parent(full));
      Ok(full)
  }

  /** `apply`'s report: the prepared path and the number of bytes the
      transfer copied (`copied`, or the error of the session or the copy). */
  function Apply(task: Download, host: Record, localPath: string, copied: Result<nat>): (r: Result<Value>)
    ensures r.Ok? <==> copied.Ok?
    ensures r.Err? ==> r.error == copied.error
    ensures r.Ok? ==> r.value.Object? && r.value.fields.Keys == {"file_path", "file_size"}
    ensures r.Ok? ==> r.value.fields["file_path"] == Str(localPath) && r.value.fields["file_size"] == Number(copied.value)
  {
    var size :- copied;
    Ok(Object(map["file_path" := Str(localPath), "file_size" := Number(size)]))
  }

  function AsTask(task: Download, cwd: Result<string>, createDirAll: string -> Result<()>,
                  copy: (Record, string) -> Result<nat>): TaskRunner.Task<Record, string> {
    TaskRunner.Task(h => Prepare(task, h, cwd, createDirAll), (h, p) => Apply(task, h, p, copy(h, p)))
  }

  function HostName(h: Record): string {
    h.id.value
  }

  /** A download run: with an absolute local path it fails as a whole
      (when there is a host at all); otherwise each successful entry
      reports the file written at that host's own path. */
  lemma DownloadReport(task: Download, cwd: Result<string>, createDirAll: string -> Result<()>,
                       copy: (Record, string) -> Result<nat>, hosts: seq<Record>, i: nat)
    requires i < |hosts|
    ensures IsAbsolutePath(task.localPath) ==>
      TaskRunner.RunTaskSeq(AsTask(task, cwd, createDirAll, copy), HostName, hosts) == Err(AbsoluteLocalPath)
    ensures (TaskRunner.RunTaskSeq(AsTask(task, cwd, createDirAll, copy), HostName, hosts).Ok? &&
             copy(hosts[i], FullPath(cwd.value, hosts[i].id, task.localPath)).Ok?) ==>
      cwd.Ok? &&
      TaskRunner.RunTaskSeq(AsTask(task, cwd, createDirAll, copy), HostName, hosts).value.items[i].fields["info"].fields["file_path"] ==
        Str(FullPath(cwd.value, hosts[i].id, task.localPath))
  {
    var t := AsTask(task, cwd, createDirAll, copy);
    assert t.prepare(hosts[i]) == Prepare(task, hosts[i], cwd, createDirAll);
  }
}
