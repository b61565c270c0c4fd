/** The `upload` task of src/tasks/upload.rs: a static file or a rendered
    template, checked and sized before any transfer starts. */
module UploadTask {
  import opened Errors
  import opened Json
  import opened HostEntry
  import opened HostDocuments
  import TaskRunner

  type Record = HostRecord<string, string>

  datatype Upload = Upload(isTemplate: bool, localPath: string, remotePath: string, fileMode: int)

  /** `new_template`: the local file is a template. */
  function NewTemplate(localPath: string, remotePath: string, fileMode: int): (t: Upload)
    ensures t.isTemplate && t.localPath == localPath && t.remotePath == remotePath && t.fileMode == fileMode
  {
    Upload(true, localPath, remotePath, fileMode)
  }

  /** `new_file`: the local file is sent as it is. */
  function NewFile(localPath: string, remotePath: string, fileMode: int): (t: Upload)
    ensures !t.isTemplate && t.localPath == localPath && t.remotePath == remotePath && t.fileMode == fileMode
  {
    Upload(false, localPath, remotePath, fileMode)
  }

  /** What `prepare` hands to `apply`. */
  datatype Context =
    | Template(content: string, fileSize: nat)
    | File(fileSize: nat)

  /** What the local filesystem says about the local path: whether it
      exists, whether it is a directory, its text (or the error of reading
      it as UTF-8) and its length (or the error of reading its metadata). */
  datatype LocalFile = LocalFile(exists_: bool, isDir: bool, text: Result<string>, length: Result<nat>)

  /** Bytes of one character in UTF-8. */
  function Utf8Width(c: char): (n: nat)
    ensures 1 <= n <= 4
    ensures n == 1 <==> c < 128 as char
  {
    if c < 128 as char then 1
    else if c < 2048 as char then 2
    else if c < 65536 as char then 3
    else 4
  }

  /** `String::len`: the length in bytes of the UTF-8 encoding. */
  function Utf8Len(s: string): (n: nat)
    ensures |s| <= n <= 4 * |s|
  {
    if s == [] then 0 else Utf8Width(s[0]) + Utf8Len(s[1..])
  }

  /** The byte length adds up over concatenation and is the character
      count exactly for ASCII text. */
  lemma {:induction false} Utf8LenAppend(a: string, b: string)
    ensures Utf8Len(a + b) == Utf8Len(a) + Utf8Len(b)
    ensures (forall i :: 0 <= i < |a| ==> a[i] < 128 as char) ==> Utf8Len(a) == |a|
  {
    if a != [] {
      assert (a + b)[0] == a[0];
      assert (a + b)[1..] == a[1..] + b;
      Utf8LenAppend(a[1..], b);
    } else {
      assert a + b == b;
    }
  }

  function NoSuchFile(path: string): Error {
    FileNotFound("No such file: " + path)
  }

  function NotAFile(path: string): Error {
    IsADirectory("Path is a directory, not a file: " + path)
  }

  /** The template's rendering context: the host under the key `host`. */
  function RenderContext(host: Record): (ctx: Value)
    ensures ctx.Object? && ctx.fields.Keys == {"host"}
    ensures HostFromValue(ctx.fields["host"], ParseString, ParseString) == Ok(host)
  {
    FromToJson(host, s => s, s => s, ParseString, ParseString);
    Object(map["host" := ToJson(host, s => s, s => s)])
  }

  /** `prepare`: a missing local path is `FileNotFound`, then a directory
      is `IsADirectory`; a template is read and rendered for the host
      (`render` stands for the template engine, which may fail) and sized
      by the byte length of the result; a plain file is sized by its
      length. */
  function Prepare(task: Upload, host: Record, local: LocalFile, render: (string, Value) -> Result<string>): (r: Result<Context>)
    ensures !local.exists_ ==> r == Err(NoSuchFile(task.localPath))
    ensures local.exists_ && local.isDir ==> r == Err(NotAFile(task.localPath))
    ensures r.Ok? ==> local.exists_ && !local.isDir && (r.value.Template? <==> task.isTemplate)
    ensures r.Ok? && task.isTemplate ==>
      local.text.Ok? && render(local.text.value, RenderContext(host)) == Ok(r.value.content) &&
      r.value.fileSize == Utf8Len(r.value.content)
    ensures r.Ok? && !task.isTemplate ==> local.length == Ok(r.value.fileSize)
    ensures local.exists_ && !local.isDir && !task.isTemplate ==> (r.Ok? <==> local.length.Ok?)
    ensures local.exists_ && !local.isDir && !task.isTemplate && local.length.Err? ==> r == Err(local.length.error)
    ensures local.exists_ && !local.isDir && task.isTemplate ==>
      (r.Ok? <==> local.text.Ok? && render(local.text.value, RenderContext(host)).Ok?)
    ensures local.exists_ && !local.isDir && task.isTemplate && local.text.Err? ==> r == Err(local.text.error)
    ensures (local.exists_ && !local.isDir && task.isTemplate && local.text.Ok? &&
             render(local.text.value, RenderContext(host)).Err?) ==>
      r == Err(render(local.text.value, RenderContext(host)).error)
  {
    if !local.exists_ then Err(NoSuchFile(task.localPath))
    else if local.isDir then Err(NotAFile(task.localPath))
    else if task.isTemplate then
      var template :- local.text;
      var content :- render(template, RenderContext(host));
      Ok(Template(content, Utf8Len(content)))
    else
      var size :- local.length;
      Ok(File(size))
  }

  /** The size `apply` announces to the transfer. */
  function FileSize(ctx: Context): nat {
    match ctx
    case Template(_, size) => size
    case File(size) => size
  }

  /** `apply`: the transfer (`send`, given the remote path, the mode and
      the announced size) either fails, and so does `apply`, or succeeds,
      and the report is the announced size. */
  function Apply(task: Upload, host: Record, ctx: Context, send: (string, int, nat) -> Result<()>): (r: Result<Value>)
    ensures r.Ok? <==> send(task.remotePath, task.fileMode, FileSize(ctx)).Ok?
    ensures r.Err? ==> r.error == send(task.remotePath, task.fileMode, FileSize(ctx)).error
    ensures r.Ok? ==> r.value == Object(map["file_size" := Number(FileSize(ctx))])
  {
    var _ :- send(task.remotePath, task.fileMode, FileSize(ctx));
    Ok(Object(map["file_size" := Number(FileSize(ctx))]))
  }

  /** An upload of a template reports, for every host, the byte length of
      the text rendered for that host; an upload of a directory or of a
      missing file fails before anything is sent. */
  lemma UploadReport(task: Upload, local: LocalFile, render: (string, Value) -> Result<string>,
                     send: (string, int, nat) -> Result<()>, hosts: seq<Record>, i: nat)
    requires i < |hosts|
    ensures var t := TaskRunner.Task((h: Record) => Prepare(task, h, local, render), (h: Record, c: Context) => Apply(task, h, c, send));
      var r := TaskRunner.RunTaskSeq(t, (h: Record) => h.id, hosts);
      (!local.exists_ ==> r == Err(NoSuchFile(task.localPath))) &&
      (local.exists_ && local.isDir ==> r == Err(NotAFile(task.localPath))) &&
      (r.Ok? && task.isTemplate && r.value.items[i].fields["success"] == Bool(true) ==>
        local.text.Ok? && render(local.text.value, RenderContext(hosts[i])).Ok? &&
        r.value.items[i].fields["info"] ==
          Object(map["file_size" := Number(Utf8Len(render(local.text.value, RenderContext(hosts[i])).value))]))
  {
    var t := TaskRunner.Task((h: Record) => Prepare(task, h, local, render), (h: Record, c: Context) => Apply(task, h, c, send));
    assert t.prepare(hosts[i]) == Prepare(task, hosts[i], local, render);
  }
}
