/** The `module` task of src/tasks/module.rs: the data handed to a module
    is the host's `module_<name>` variable, merged over the defaults read
    from a data file when one is given. */
module ModuleTask {
  import opened Errors
  import opened Json
  import opened HostIds
  import opened HostTags
  import opened HostEntry
  import opened Paths

  type Record = HostRecord<HostId, HostTag>

  /** `merge(a, b)`: two objects merge key by key, each key of `b` merged
      into `a`'s entry for it (`Null` when `a` has none); any other pair
      leaves a copy of `b`. */
  function Merged(a: Value, b: Value): (r: Value)
    ensures !(a.Object? && b.Object?) ==> r == b
    ensures a.Object? && b.Object? ==> r.Object? && r.fields.Keys == a.fields.Keys + b.fields.Keys
    ensures a.Object? && b.Object? ==> forall k :: k in a.fields && k !in b.fields ==> r.fields[k] == a.fields[k]
    ensures a.Object? && b.Object? ==> forall k :: k in b.fields ==>
      r.fields[k] == Merged(if k in a.fields then a.fields[k] else Null, b.fields[k])
    decreases b
  {
    if a.Object? && b.Object? then
      Object(map k | k in a.fields.Keys + b.fields.Keys ::
        if k in b.fields then Merged(if k in a.fields then a.fields[k] else Null, b.fields[k]) else a.fields[k])
    else
      b
  }

  /** `merge` as the source writes it: `a` is updated key by key, in
      whatever order `b`'s entries come. */
  method Merge(a: Value, b: Value) returns (r: Value)
    ensures r == Merged(a, b)
    decreases b
  {
    if a.Object? && b.Object? {
      var fields := a.fields;
      var todo := b.fields.Keys;
      while todo != {}
        invariant todo <= b.fields.Keys
        invariant fields.Keys == a.fields.Keys + (b.fields.Keys - todo)
        invariant forall k :: k in fields && k !in b.fields.Keys - todo ==> k in a.fields && fields[k] == a.fields[k]
        invariant forall k :: k in b.fields.Keys - todo ==>
          fields[k] == Merged(if k in a.fields then a.fields[k] else Null, b.fields[k])
        decreases todo
      {
        var k :| k in todo;
        var entry := if k in fields then fields[k] else Null;
        var merged := Merge(entry, b.fields[k]);
        fields := fields[k := merged];
        todo := todo - {k};
      }
      r := Object(fields);
    } else {
      r := b;
    }
  }

  /** Merging a document into itself changes nothing. */
  lemma {:induction false} MergeSelf(x: Value)
    ensures Merged(x, x) == x
    decreases x
  {
    if x.Object? {
      forall k | k in x.fields
        ensures Merged(x, x).fields[k] == x.fields[k]
      {
        MergeSelf(x.fields[k]);
      }
    }
  }

  /** Merging the same overrides twice is the same as merging them once. */
  lemma {:induction false} MergeIdempotent(a: Value, b: Value)
    ensures Merged(Merged(a, b), b) == Merged(a, b)
    decreases b
  {
    if a.Object? && b.Object? {
      var m := Merged(a, b);
      forall k | k in m.fields
        ensures Merged(m, b).fields[k] == m.fields[k]
      {
        if k in b.fields {
          MergeIdempotent(if k in a.fields then a.fields[k] else Null, b.fields[k]);
        }
      }
    } else {
      MergeSelf(b);
    }
  }

  /** A key that only the overrides have ends up equal to their value, and
      so does every key where the two sides are not both objects: a flat
      override replaces the default outright, and an object override
      replaces a flat default. */
  lemma MergeOverride(a: Value, b: Value, k: string)
    requires a.Object? && b.Object? && k in b.fields
    ensures k !in a.fields ==> Merged(a, b).fields[k] == b.fields[k]
    ensures !(k in a.fields && a.fields[k].Object? && b.fields[k].Object?) ==> Merged(a, b).fields[k] == b.fields[k]
  {
  }

  /** The task's configuration. */
  datatype Task = Task(dataPath: Option<string>, modulePath: string, moduleName: string)

  /** `Task::new`: the module's name is the last segment of its path. */
  function New(dataPath: Option<string>, modulePath: string): (t: Task)
    ensures t.dataPath == dataPath && t.modulePath == modulePath
    ensures '/' !in t.moduleName && |t.moduleName| <= |modulePath|
    ensures t.moduleName == modulePath[|modulePath| - |t.moduleName|..]
    ensures t.moduleName == LastSegment(modulePath)
  {
    Task(dataPath, modulePath, LastSegment(modulePath))
  }

  /** The host variable that overrides the module's data. */
  function HostVarKey(moduleName: string): (key: string)
    ensures |key| == 7 + |moduleName| && key[..7] == "module_" && key[7..] == moduleName
  {
    "module_" + moduleName
  }

  /** That variable's value, `{}` when the host has none. */
  function HostVarData(task: Task, host: Record): (v: Value)
    ensures HostVarKey(task.moduleName) in host.vars ==> v == host.vars[HostVarKey(task.moduleName)]
    ensures HostVarKey(task.moduleName) !in host.vars ==> v == EmptyObject
  {
    var key := HostVarKey(task.moduleName);
    if key in host.vars then host.vars[key] else EmptyObject
  }

  /** `prepare`: the host variable alone, or, with a data file, the file's
      document merged with it. `readData` stands for reading and parsing
      the file; its errors are the task's errors. */
  function Prepare(task: Task, host: Record, readData: string -> Result<Value>): (r: Result<Value>)
    ensures task.dataPath.None? ==> r == Ok(HostVarData(task, host))
    ensures task.dataPath.Some? ==> (r.Err? <==> readData(task.dataPath.value).Err?)
    ensures task.dataPath.Some? && r.Err? ==> r.error == readData(task.dataPath.value).error
    ensures task.dataPath.Some? && r.Ok? ==> r.value == Merged(readData(task.dataPath.value).value, HostVarData(task, host))
  {
    match task.dataPath
    case None => Ok(HostVarData(task, host))
    case Some(path) =>
      var data :- readData(path);
      Ok(Merged(data, HostVarData(task, host)))
  }

  /** With a data file, the host's settings win: every key the host variable
      sets is merged over the file's value for it, every key it does not
      set keeps the file's value, and a host without the variable gets the
      file's document unchanged when that document is an object. */
  lemma PrepareOverridesDefaults(task: Task, host: Record, readData: string -> Result<Value>, k: string)
    requires task.dataPath.Some? && readData(task.dataPath.value).Ok?
    requires readData(task.dataPath.value).value.Object?
    ensures Prepare(task, host, readData).Ok?
    ensures HostVarKey(task.moduleName) !in host.vars ==>
      Prepare(task, host, readData).value == readData(task.dataPath.value).value
    ensures HostVarData(task, host).Object? && k in HostVarData(task, host).fields ==>
      k in Prepare(task, host, readData).value.fields &&
      Prepare(task, host, readData).value.fields[k] ==
        Merged(if k in readData(task.dataPath.value).value.fields then readData(task.dataPath.value).value.fields[k] else Null,
               HostVarData(task, host).fields[k])
    ensures (HostVarData(task, host).Object? && k !in HostVarData(task, host).fields &&
             k in readData(task.dataPath.value).value.fields) ==>
      k in Prepare(task, host, readData).value.fields &&
      Prepare(task, host, readData).value.fields[k] == readData(task.dataPath.value).value.fields[k]
  {
    var data := readData(task.dataPath.value).value;
    var m := Merged(data, EmptyObject);
    assert m.fields.Keys == data.fields.Keys;
    assert m == data;
  }
}
