/** The request handlers of app.py that start work or report on it:
    `start_batch`, `upload_file` and `get_status`, each a step on the
    server state. A handler that starts a run hands the run's items to the
    runner thread; the run itself is `Batch.Run`, executed as a later,
    separate step. */
module Routes {
  import opened Outcomes
  import opened Text
  import opened Json
  import opened Batch
  import opened LogStream

  /** An HTTP reply: its status and the one field of its JSON body. */
  datatype Reply = Reply(status: nat, field: string, text: string)

  /** What a handler did: the server state it left, its reply (or the
      exception it raised, which the framework answers with status 500),
      and the items of the run it started, if any. */
  datatype Handled = Handled(server: Server, reply: Result<Reply>, launch: Option<Json>)

  const Busy := Reply(409, "error", "A process is already running.")

  /** `POST /api/batch/start` with JSON body `body`. */
  function StartBatch(s: Server, body: Json): (r: Handled)
    ensures r.reply == Ok(Busy) <==> s.locked
    ensures s.locked ==> r.server == s
    ensures !s.locked ==> r.server == Server(false, [])
    ensures r.reply.Raised? <==> !s.locked && !body.Obj?
    ensures r.launch.Some? <==> !s.locked && body.Obj? && Truthy(Get(body.fields, "urls", Null))
    ensures r.launch.Some? ==> r.launch.value == Get(body.fields, "urls", Null) && r.reply == Ok(Reply(202, "message", "Batch process started."))
    ensures !s.locked && body.Obj? && !Truthy(Get(body.fields, "urls", Null)) ==> r.reply == Ok(Reply(400, "error", "No URLs provided"))
    ensures r.reply.Ok? && r.reply.value.status == 202 ==> r.launch.Some?
  {
    if s.locked then Handled(s, Ok(Busy), None)
    else
      var drained := Server(false, []);
      match body
      case Obj(fields) =>
        var urls := Get(fields, "urls", Null);
        if !Truthy(urls) then Handled(drained, Ok(Reply(400, "error", "No URLs provided")), None)
        else Handled(drained, Ok(Reply(202, "message", "Batch process started.")), Some(urls))
      case _ => Handled(drained, Raised(AttributeError), None)
  }

  const UploadFolder := "uploads"

  /** `os.path.join(folder, name)` on POSIX: an absolute name replaces the
      folder. */
  function JoinPath(folder: string, name: string): (r: string)
    ensures StartsWith(name, "/") ==> r == name
    ensures !StartsWith(name, "/") ==> EndsWith(r, name) && StartsWith(r, folder)
  {
    if StartsWith(name, "/") then name
    else if folder == [] || folder[|folder| - 1] == '/' then folder + name
    else folder + "/" + name
  }

  /** `POST /api/upload`. `filename` is the name of the `file` part, absent
      when the request has none; `safeName` is what `secure_filename` makes
      of it. */
  function UploadFile(s: Server, filename: Option<string>, safeName: string): (r: Handled)
    ensures r.server == s
    ensures r.reply.Ok?
    ensures r.reply.value == Busy <==> s.locked
    ensures r.launch.Some? <==> !s.locked && filename.Some? && filename.value != ""
    ensures r.launch.Some? ==> r.launch.value == Arr([Str(JoinPath(UploadFolder, safeName))])
    ensures !s.locked && filename.None? ==> r.reply.value == Reply(400, "error", "No file part")
    ensures !s.locked && filename.Some? && filename.value == "" ==> r.reply.value == Reply(400, "error", "No selected file")
    ensures r.launch.Some? <==> r.reply.value.status == 202
  {
    if s.locked then Handled(s, Ok(Busy), None)
    else if filename.None? then Handled(s, Ok(Reply(400, "error", "No file part")), None)
    else if filename.value == "" then Handled(s, Ok(Reply(400, "error", "No selected file")), None)
    else
      Handled(s, Ok(Reply(202, "message", "File upload successful, enrichment started.")),
              Some(Arr([Str(JoinPath(UploadFolder, safeName))])))
  }

  /** `GET /api/status`: whether the lock file is present. */
  function GetStatus(s: Server): bool {
    s.locked
  }

  /* ---------------------------------------------------------------------- */
  /* Properties across handlers and runs                                     */
  /* ---------------------------------------------------------------------- */

  /** The status reports a run as running from its first step to its last,
      and as finished afterwards. */
  lemma StatusFollowsRun(s: Server, items: Json, spawn: nat -> ChildRun, j: nat)
    requires 1 <= j < |Run(items, spawn)|
    ensures GetStatus(Execute(s, Run(items, spawn)[..j]))
    ensures !GetStatus(Execute(s, Run(items, spawn)))
  {
    RunHoldsLock(s, items, spawn, j);
    RunReleasesLock(s, items, spawn);
  }

  /** A run started by `start_batch` begins on an empty queue, so the log
      consumer streams the whole run and stops at its sentinel. */
  lemma StartedBatchStreamsWhole(s: Server, body: Json, spawn: nat -> ChildRun)
    requires StartBatch(s, body).launch.Some?
    requires forall j :: 0 <= j ==> Quiet(spawn(j))
    ensures var r := StartBatch(s, body);
      var after := Execute(r.server, Run(r.launch.value, spawn));
      !after.locked && after.log == Messages(Run(r.launch.value, spawn))
      && Taken(after.log) == after.log
  {
    var r := StartBatch(s, body);
    assert r.server == Server(false, []);
    DrainedRunStreamsWhole(r.launch.value, spawn);
  }

  /** A quiet run on an empty queue leaves every message of the run queued,
      and the consumer takes all of them. */
  lemma DrainedRunStreamsWhole(items: Json, spawn: nat -> ChildRun)
    requires forall j :: 0 <= j ==> Quiet(spawn(j))
    ensures var after := Execute(Server(false, []), Run(items, spawn));
      !after.locked && after.log == Messages(Run(items, spawn))
      && Taken(after.log) == after.log
  {
    var body := Messages(Body(items, spawn));
    RunReleasesLock(Server(false, []), items, spawn);
    RunMessages(items, spawn);
    assert [] + body + [EndOfStream] == body + [EndOfStream];
    WholeRunReachesConsumer(items, spawn);
  }

  /** The status after the runner as written: finished exactly when the
      items have a length; otherwise the lock file stays and the status
      reads running for good. */
  lemma StatusAfterRunAsWritten(s: Server, items: Json, spawn: nat -> ChildRun)
    ensures GetStatus(Execute(s, RunAsWritten(items, spawn))) <==> !Elements(items).Ok?
  {
    if Elements(items).Ok? {
      AsWrittenAgreesWhenSized(items, spawn);
      RunReleasesLock(s, items, spawn);
    } else {
      assert RunAsWritten(items, spawn) == [SetLock];
      assert Execute(s, [SetLock]) == Execute(s.(locked := true), []);
    }
  }

  /** A run that `start_batch` hands to the runner as written: when the
      items have a length, the lock is released and the consumer takes every
      message of the run; otherwise the lock stays and nothing is queued. */
  lemma StartedBatchAsWritten(s: Server, body: Json, spawn: nat -> ChildRun)
    requires StartBatch(s, body).launch.Some?
    requires forall j :: 0 <= j ==> Quiet(spawn(j))
    ensures var r := StartBatch(s, body);
      var items := r.launch.value;
      var after := Execute(r.server, RunAsWritten(items, spawn));
      (Elements(items).Ok? ==>
         !after.locked && after.log == Messages(RunAsWritten(items, spawn)) && Taken(after.log) == after.log)
      && (!Elements(items).Ok? ==> after == Server(true, []))
  {
    var r := StartBatch(s, body);
    assert r.server == Server(false, []);
    var items := r.launch.value;
    if Elements(items).Ok? {
      AsWrittenAgreesWhenSized(items, spawn);
      DrainedRunStreamsWhole(items, spawn);
    } else {
      assert RunAsWritten(items, spawn) == [SetLock];
      assert Execute(Server(false, []), [SetLock]) == Execute(Server(true, []), []);
    }
  }

  /** The lock is checked by the handler but taken by the run: two
      `start_batch` requests served before the first run takes the lock are
      both accepted, and the second drains what the first queued. */
  lemma GuardIsNotAtomic(s: Server, first: Json, second: Json)
    requires !s.locked
    requires first.Obj? && Truthy(Get(first.fields, "urls", Null))
    requires second.Obj? && Truthy(Get(second.fields, "urls", Null))
    ensures StartBatch(s, first).launch.Some?
    ensures StartBatch(StartBatch(s, first).server, second).launch.Some?
  {
  }

  /** Once a run as written dies before its `try`, the lock file stays and
      every later start is turned away. */
  lemma LeakedLockBlocksStarts(q: seq<string>, spawn: nat -> ChildRun, body: Json)
    ensures var s := Execute(Server(false, q), RunAsWritten(Int(5), spawn));
      GetStatus(s) && StartBatch(s, body).reply == Ok(Busy)
  {
    LockLeaksOnUnsizedItems(q, spawn);
  }

  /** An uploaded file is always run with the file flag. */
  lemma UploadRunsAsFile(s: Server, filename: Option<string>, safeName: string)
    requires UploadFile(s, filename, safeName).launch.Some?
    requires !StartsWith(safeName, "/")
    ensures ArgFlag(JoinPath(UploadFolder, safeName)) == "--file"
  {
    var path := JoinPath(UploadFolder, safeName);
    assert path[..4] == "uplo";
  }

  /** A run on a queue that already holds a sentinel: the consumer stops at
      the old sentinel and sees nothing of the run. */
  lemma RunBehindStaleSentinel(s: Server, items: Json, spawn: nat -> ChildRun)
    requires EndOfStream in s.log
    ensures Taken(Execute(s, Run(items, spawn)).log) == Taken(s.log)
  {
    var m := Messages(Body(items, spawn)) + [EndOfStream];
    RunReleasesLock(s, items, spawn);
    assert s.log + Messages(Body(items, spawn)) + [EndOfStream] == s.log + m;
    StaleSentinelEndsStream(s.log, m);
  }

  /** The upload handler leaves the queue as it is: a sentinel left unread
      there by an earlier run ends the new stream before any message of the
      new run. */
  lemma UploadKeepsStaleSentinel(s: Server, filename: Option<string>, safeName: string, spawn: nat -> ChildRun)
    requires UploadFile(s, filename, safeName).launch.Some?
    requires EndOfStream in s.log
    ensures var r := UploadFile(s, filename, safeName);
      Taken(Execute(r.server, Run(r.launch.value, spawn)).log) == Taken(s.log)
  {
    var r := UploadFile(s, filename, safeName);
    RunBehindStaleSentinel(s, r.launch.value, spawn);
  }
}
