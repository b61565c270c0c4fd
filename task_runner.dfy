/** The two-phase task runner of src/prelude/tasks/task_runner.rs: every
    host is prepared first, all or nothing; then the task is applied to
    every host, each failure isolated into that host's report entry. */
module TaskRunner {
  import opened Errors
  import opened Json

  /** A task: the `prepare` and `apply` of `GenericTask`, as functions of
      the host (and of the prepared data). */
  datatype Task<!H, !D> = Task(prepare: H -> Result<D>, apply: (H, D) -> Result<Value>)

  /** `prepare_host` over the list, collected into one `Result`: the
      prepared data of every host in order, or the first error. */
  function PrepareAll<H, D>(task: Task<H, D>, hosts: seq<H>): (r: Result<seq<D>>)
    ensures r.Ok? <==> forall i :: 0 <= i < |hosts| ==> task.prepare(hosts[i]).Ok?
    ensures r.Ok? ==> |r.value| == |hosts|
    ensures r.Ok? ==> forall i :: 0 <= i < |hosts| ==> task.prepare(hosts[i]) == Ok(r.value[i])
    ensures r.Err? ==> exists i :: (0 <= i < |hosts| && task.prepare(hosts[i]) == Err(r.error) &&
      forall j :: 0 <= j < i ==> task.prepare(hosts[j]).Ok?)
  {
    if hosts == [] then Ok([])
    else
      match task.prepare(hosts[0])
      case Err(e) => Err(e)
      case Ok(first) =>
        match PrepareAll(task, hosts[1..])
        case Err(e) =>
          Err(e)
        case Ok(rest) => Ok([first] + rest)
  }

  /** `apply_to_host`'s report entry: the host's id and whether `apply`
      succeeded, with its info or its displayed error. */
  function Entry(host: string, result: Result<Value>): (v: Value)
    ensures v.Object? && "host" in v.fields && "success" in v.fields
    ensures v.fields["host"] == Str(host) && v.fields["success"] == Bool(result.Ok?)
    ensures result.Ok? ==> v.fields.Keys == {"host", "success", "info"} && v.fields["info"] == result.value
    ensures result.Err? ==>
      v.fields.Keys == {"host", "success", "error"} && v.fields["error"] == Str(Display(result.error))
  {
    match result
    case Ok(info) => Object(map["host" := Str(host), "success" := Bool(true), "info" := info])
    case Err(e) => Object(map["host" := Str(host), "success" := Bool(false), "error" := Str(Display(e))])
  }

  /** Phase two: one entry per host, the host's own prepared data passed
      to its `apply`. */
  function ApplyAll<H, D>(task: Task<H, D>, hostName: H -> string, hosts: seq<H>, data: seq<D>): (entries: seq<Value>)
    requires |data| == |hosts|
    ensures |entries| == |hosts|
    ensures forall i :: 0 <= i < |hosts| ==> entries[i] == Entry(hostName(hosts[i]), task.apply(hosts[i], data[i]))
  {
    seq(|hosts|, i requires 0 <= i < |hosts| => Entry(hostName(hosts[i]), task.apply(hosts[i], data[i])))
  }

  /** `run_task_seq`: a failed `prepare` is the result of the run; once
      every host is prepared, the run succeeds with an array holding one
      entry per host, in input order, entry `i` made from host `i`, its own
      prepared data and its own `apply` result. */
  function RunTaskSeq<H, D>(task: Task<H, D>, hostName: H -> string, hosts: seq<H>): (r: Result<Value>)
    ensures r.Err? <==> exists i :: 0 <= i < |hosts| && task.prepare(hosts[i]).Err?
    ensures r.Err? ==> exists i :: (0 <= i < |hosts| && task.prepare(hosts[i]) == Err(r.error) &&
      forall j :: 0 <= j < i ==> task.prepare(hosts[j]).Ok?)
    ensures r.Ok? ==> r.value.Array? && |r.value.items| == |hosts|
    ensures r.Ok? ==> forall i :: 0 <= i < |hosts| ==>
      r.value.items[i] == Entry(hostName(hosts[i]), task.apply(hosts[i], task.prepare(hosts[i]).value))
  {
    match PrepareAll(task, hosts)
    case Err(e) => Err(e)
    case Ok(data) => Ok(Array(ApplyAll(task, hostName, hosts, data)))
  }

  /** Indices of the hosts whose `prepare` fails, in order. */
  function FailingIndices<H, D>(task: Task<H, D>, hosts: seq<H>, from: nat): (ix: seq<nat>)
    requires from <= |hosts|
    ensures forall k :: 0 <= k < |ix| ==> from <= ix[k] < |hosts| && task.prepare(hosts[ix[k]]).Err?
    ensures forall i :: from <= i < |hosts| && task.prepare(hosts[i]).Err? ==> i in ix
    decreases |hosts| - from
  {
    if from == |hosts| then []
    else (if task.prepare(hosts[from]).Err? then [from] else []) + FailingIndices(task, hosts, from + 1)
  }

  /** `run_task_parallel`: the same two phases over a parallel iterator.
      Which error wins when several hosts fail to prepare is up to the
      scheduler; `pick` stands for that choice among the failing hosts. */
  function RunTaskParallel<H, D>(task: Task<H, D>, hostName: H -> string, hosts: seq<H>, pick: seq<nat> -> nat): (r: Result<Value>)
    ensures r.Err? <==> exists i :: 0 <= i < |hosts| && task.prepare(hosts[i]).Err?
    ensures r.Err? ==> exists i :: 0 <= i < |hosts| && task.prepare(hosts[i]) == Err(r.error)
    ensures (forall i :: 0 <= i < |hosts| ==> task.prepare(hosts[i]).Ok?) ==> r == RunTaskSeq(task, hostName, hosts)
  {
    var failing := FailingIndices(task, hosts, 0);
    if failing == [] then
      RunTaskSeq(task, hostName, hosts)
    else
      var k := failing[pick(failing) % |failing|];
      Err(task.prepare(hosts[k]).error)
  }

  /** `run_task`: parallel or sequential on request. */
  function RunTask<H, D>(task: Task<H, D>, hostName: H -> string, hosts: seq<H>, parallel: bool, pick: seq<nat> -> nat): (r: Result<Value>)
    ensures parallel ==> r == RunTaskParallel(task, hostName, hosts, pick)
    ensures !parallel ==> r == RunTaskSeq(task, hostName, hosts)
  {
    if parallel then RunTaskParallel(task, hostName, hosts, pick) else RunTaskSeq(task, hostName, hosts)
  }

  /** The parallel run has the sequential run's outcome: the same report,
      in the same order, whenever every host prepares; otherwise both
      fail, and with the same error when only one host fails. */
  lemma ParallelIsSequential<H, D>(task: Task<H, D>, hostName: H -> string, hosts: seq<H>, pick: seq<nat> -> nat)
    ensures RunTaskParallel(task, hostName, hosts, pick).Err? <==> RunTaskSeq(task, hostName, hosts).Err?
    ensures (forall i :: 0 <= i < |hosts| ==> task.prepare(hosts[i]).Ok?) ==>
      RunTaskParallel(task, hostName, hosts, pick) == RunTaskSeq(task, hostName, hosts)
    ensures (exists k :: (0 <= k < |hosts| && task.prepare(hosts[k]).Err? &&
             forall i :: 0 <= i < |hosts| && i != k ==> task.prepare(hosts[i]).Ok?)) ==>
      RunTaskParallel(task, hostName, hosts, pick) == RunTaskSeq(task, hostName, hosts)
  {
  }

  /** Apply failures are isolated: two host lists that differ at one
      position only give reports that differ at that entry only. */
  lemma ReportIsolation<H, D>(task: Task<H, D>, hostName: H -> string, hosts: seq<H>, other: seq<H>, k: nat)
    requires |hosts| == |other| && k < |hosts|
    requires forall i :: 0 <= i < |hosts| && i != k ==> hosts[i] == other[i]
    requires RunTaskSeq(task, hostName, hosts).Ok? && RunTaskSeq(task, hostName, other).Ok?
    ensures forall i :: 0 <= i < |hosts| && i != k ==>
      RunTaskSeq(task, hostName, hosts).value.items[i] == RunTaskSeq(task, hostName, other).value.items[i]
  {
  }

  /** One step the sequential runner takes. */
  datatype Call<H> = PrepareCall(host: H) | ApplyCall(host: H)

  /** The `prepare` calls of the sequential runner: in list order, up to
      and including the first one that fails (`collect` into a `Result`
      stops there). */
  function PrepareCalls<H, D>(task: Task<H, D>, hosts: seq<H>): seq<Call<H>> {
    if hosts == [] then []
    else [PrepareCall(hosts[0])] + (if task.prepare(hosts[0]).Err? then [] else PrepareCalls(task, hosts[1..]))
  }

  /** Every call of a sequential run, in order: the `apply` calls come
      only after every `prepare` succeeded. */
  function SeqCalls<H, D>(task: Task<H, D>, hosts: seq<H>): seq<Call<H>> {
    PrepareCalls(task, hosts) +
      (if PrepareAll(task, hosts).Ok? then seq(|hosts|, i requires 0 <= i < |hosts| => ApplyCall(hosts[i])) else [])
  }

  /** The `prepare` calls stop at the first failing host `k`: hosts
      `0..k` are prepared, in order, no later one, and nothing is
      applied. */
  lemma {:induction false} PrepareCallsStopAtFirstFailure<H, D>(task: Task<H, D>, hosts: seq<H>, k: nat)
    requires k < |hosts| && task.prepare(hosts[k]).Err?
    requires forall j :: 0 <= j < k ==> task.prepare(hosts[j]).Ok?
    ensures PrepareCalls(task, hosts) == seq(k + 1, i requires 0 <= i <= k => PrepareCall(hosts[i]))
    ensures SeqCalls(task, hosts) == PrepareCalls(task, hosts)
  {
    if k > 0 {
      PrepareCallsStopAtFirstFailure(task, hosts[1..], k - 1);
    }
  }

  /** With every host prepared, the run prepares every host, in order,
      then applies every host, in order. */
  lemma {:induction false} PrepareCallsAll<H, D>(task: Task<H, D>, hosts: seq<H>)
    requires forall i :: 0 <= i < |hosts| ==> task.prepare(hosts[i]).Ok?
    ensures PrepareCalls(task, hosts) == seq(|hosts|, i requires 0 <= i < |hosts| => PrepareCall(hosts[i]))
    ensures SeqCalls(task, hosts) ==
      seq(|hosts|, i requires 0 <= i < |hosts| => PrepareCall(hosts[i])) +
      seq(|hosts|, i requires 0 <= i < |hosts| => ApplyCall(hosts[i]))
  {
    if hosts != [] {
      PrepareCallsAll(task, hosts[1..]);
    }
  }

  /** If any host fails to prepare, the run never calls `apply`. */
  lemma NoApplyAfterPrepareFailure<H, D>(task: Task<H, D>, hosts: seq<H>, k: nat)
    requires k < |hosts| && task.prepare(hosts[k]).Err?
    ensures forall c :: c in SeqCalls(task, hosts) ==> c.PrepareCall?
  {
    var prepared := PrepareAll(task, hosts);
    assert prepared.Err?;
    var first :| 0 <= first < |hosts| && task.prepare(hosts[first]).Err? &&
      forall j :: 0 <= j < first ==> task.prepare(hosts[j]).Ok?;
    PrepareCallsStopAtFirstFailure(task, hosts, first);
  }
}
