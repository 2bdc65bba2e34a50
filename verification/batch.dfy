/** The batch runner of app.py (`run_enrichment_process`) as a sequential
    state machine. The server state is the lock file's presence and the log
    queue; a run is the list of actions the runner thread performs, and the
    child processes it starts are replaced by what each of them printed and
    how it ended. */
module Batch {
  import opened Outcomes
  import opened Text
  import opened Json

  /** The lock file is present, and the messages queued for the log stream. */
  datatype Server = Server(locked: bool, log: seq<string>)

  /** One effect of the runner: writing or removing the lock file, queueing
      a message, or a `Popen` call for an item with an argument flag. A
      `Spawn` is the attempt to start the child; whether the start itself
      succeeded is part of the `ChildRun` that follows it. */
  datatype Action = SetLock | Put(message: string) | Spawn(flag: string, item: string) | ClearLock

  function Apply(s: Server, a: Action): Server {
    match a
    case SetLock => s.(locked := true)
    case Put(m) => s.(log := s.log + [m])
    case Spawn(_, _) => s
    case ClearLock => s.(locked := false)
  }

  function Execute(s: Server, acts: seq<Action>): Server
    decreases |acts|
  {
    if acts == [] then s else Execute(Apply(s, acts[0]), acts[1..])
  }

  /** The messages `acts` queue, in order. */
  function Messages(acts: seq<Action>): seq<string>
    decreases |acts|
  {
    if acts == [] then []
    else (if acts[0].Put? then [acts[0].message] else []) + Messages(acts[1..])
  }

  /** The start attempts (`Popen` calls) among `acts`, in order. */
  function Spawned(acts: seq<Action>): seq<Action>
    decreases |acts|
  {
    if acts == [] then []
    else (if acts[0].Spawn? then [acts[0]] else []) + Spawned(acts[1..])
  }

  /** The `Popen` call for a string item: the enricher with the item's flag
      and the item itself. */
  function StartAttempt(item: string): Action {
    Spawn(ArgFlag(item), item)
  }

  /** `acts` neither writes nor removes the lock file. */
  predicate LockFree(acts: seq<Action>)
    decreases |acts|
  {
    acts == [] || ((acts[0].Put? || acts[0].Spawn?) && LockFree(acts[1..]))
  }

  lemma {:induction false} ExecuteAppend(s: Server, a: seq<Action>, b: seq<Action>)
    ensures Execute(s, a + b) == Execute(Execute(s, a), b)
    decreases |a|
  {
    if a != [] {
      assert (a + b)[1..] == a[1..] + b;
      ExecuteAppend(Apply(s, a[0]), a[1..], b);
    } else {
      assert a + b == b;
    }
  }

  lemma {:induction false} MessagesAppend(a: seq<Action>, b: seq<Action>)
    ensures Messages(a + b) == Messages(a) + Messages(b)
    decreases |a|
  {
    if a != [] {
      assert (a + b)[1..] == a[1..] + b;
      MessagesAppend(a[1..], b);
    } else {
      assert a + b == b;
    }
  }

  lemma {:induction false} SpawnedAppend(a: seq<Action>, b: seq<Action>)
    ensures Spawned(a + b) == Spawned(a) + Spawned(b)
    decreases |a|
  {
    if a != [] {
      assert (a + b)[1..] == a[1..] + b;
      SpawnedAppend(a[1..], b);
    } else {
      assert a + b == b;
    }
  }

  /** Lock-free actions keep the lock as it is and append their messages to
      the log. */
  lemma {:induction false} ExecuteLockFree(s: Server, acts: seq<Action>)
    requires LockFree(acts)
    ensures Execute(s, acts) == Server(s.locked, s.log + Messages(acts))
    decreases |acts|
  {
    if acts != [] {
      ExecuteLockFree(Apply(s, acts[0]), acts[1..]);
    }
  }

  /* ---------------------------------------------------------------------- */
  /* The runner's messages                                                   */
  /* ---------------------------------------------------------------------- */

  const EndOfStream := "__STREAM_END__"

  function StartLine(n: nat): string {
    "Starting batch process for " + NatToString(n) + " item(s)..."
  }

  /** The header queued before item `k` (counted from 0) of `n`; it starts
      with a newline. */
  function Header(k: nat, n: nat, name: string): string {
    "\n" + HeaderLine(k, n, name)
  }

  function HeaderLine(k: nat, n: nat, name: string): string {
    "--- Processing item " + NatToString(k + 1) + " of " + NatToString(n) + ": " + name + " ---"
  }

  const FatalPrefix := "FATAL: A subprocess failed: "

  function Fatal(error: string): string {
    FatalPrefix + error
  }

  /** `str(e)` for the TypeError `os.path.basename` raises on a value that is
      not a path. */
  function NotAPath(v: Json): string {
    "expected str, bytes or os.PathLike object, not " + TypeName(v)
  }

  /** `str(e)` for the TypeError `len` raises on a value without a length. */
  function NoLength(v: Json): string {
    "object of type '" + TypeName(v) + "' has no len()"
  }

  /** The flag the child is started with: a URL flag for items that start
      with "http", a file flag otherwise. */
  function ArgFlag(item: string): (flag: string)
    ensures flag == "--url" <==> StartsWith(item, "http")
    ensures flag == "--file" <==> !StartsWith(item, "http")
  {
    if StartsWith(item, "http") then "--url" else "--file"
  }

  /* ---------------------------------------------------------------------- */
  /* The run                                                                 */
  /* ---------------------------------------------------------------------- */

  /** What one child did: the lines it printed, then either its exit (with a
      status) or an exception while starting it or reading its output. A
      `Popen` call that raises is `Broke` with no lines. */
  datatype ChildRun = Exited(lines: seq<string>, status: int) | Broke(lines: seq<string>, error: string)

  /** Each output line queued after stripping, in arrival order. */
  function Forward(lines: seq<string>): (acts: seq<Action>)
    ensures |acts| == |lines| && LockFree(acts)
    decreases |lines|
  {
    if lines == [] then [] else [Put(Strip(lines[0]))] + Forward(lines[1..])
  }

  lemma {:induction false} LockFreeConcat(a: seq<Action>, b: seq<Action>)
    requires LockFree(a) && LockFree(b)
    ensures LockFree(a + b)
    decreases |a|
  {
    if a == [] {
      assert a + b == b;
    } else {
      assert (a + b)[1..] == a[1..] + b;
      LockFreeConcat(a[1..], b);
    }
  }

  lemma {:induction false} LockFreePrefix(acts: seq<Action>, j: nat)
    requires LockFree(acts) && j <= |acts|
    ensures LockFree(acts[..j])
    decreases j
  {
    if j > 0 {
      assert acts[..j][1..] == acts[1..][..j - 1];
      LockFreePrefix(acts[1..], j - 1);
    }
  }

  /** The item loop goes on past an item only when the item is a string and
      its child exited, whatever the status. */
  predicate Continues(v: Json, child: ChildRun) {
    v.Str? && child.Exited?
  }

  /** Starting the child for a string item after queueing `header`: the
      start, the child's forwarded lines, then a FATAL line if it raised. */
  function Launch(header: string, item: string, child: ChildRun): (acts: seq<Action>)
    ensures LockFree(acts) && acts != []
  {
    var head := [Put(header), StartAttempt(item)];
    var tail := if child.Broke? then [Put(Fatal(child.error))] else [];
    LockFreeConcat(head, Forward(child.lines));
    LockFreeConcat(head + Forward(child.lines), tail);
    head + Forward(child.lines) + tail
  }

  /** The actions for item `k` of `n`: for a string, its header and the
      child's launch; for anything else the FATAL line of the failed
      `basename` call. */
  function ItemStep(v: Json, k: nat, n: nat, child: ChildRun): (acts: seq<Action>)
    ensures LockFree(acts) && acts != []
  {
    match v
    case Str(item) => Launch(Header(k, n, Basename(item)), item, child)
    case _ => [Put(Fatal(NotAPath(v)))]
  }

  /** The loop over `elems[k..]`, `n` items in all; `spawn(k)` is what the
      child for item `k` does. */
  function ItemActions(elems: seq<Json>, n: nat, k: nat, spawn: nat -> ChildRun): (acts: seq<Action>)
    requires k <= |elems|
    ensures LockFree(acts)
    decreases |elems| - k
  {
    if k == |elems| then []
    else
      var step := ItemStep(elems[k], k, n, spawn(k));
      var rest := if Continues(elems[k], spawn(k)) then ItemActions(elems, n, k + 1, spawn) else [];
      LockFreeConcat(step, rest);
      step + rest
  }

  /** The part of a run between taking the lock and the `finally` clause. */
  function Body(items: Json, spawn: nat -> ChildRun): (acts: seq<Action>)
    ensures LockFree(acts)
  {
    match Elements(items)
    case Ok(elems) => [Put(StartLine(|elems|))] + ItemActions(elems, |elems|, 0, spawn)
    case Raised(_) => [Put(Fatal(NoLength(items)))]
  }

  /** `run_enrichment_process(items)` with the start line inside the `try`:
      take the lock, run the body, and in `finally` queue the end-of-stream
      sentinel and remove the lock. */
  function Run(items: Json, spawn: nat -> ChildRun): seq<Action> {
    [SetLock] + Body(items, spawn) + [Put(EndOfStream), ClearLock]
  }

  /** The runner as written: the start line, and the `len` call in it, come
      before the `try`, so a value without a length raises there and the
      thread ends with the lock file in place and no sentinel queued. */
  function RunAsWritten(items: Json, spawn: nat -> ChildRun): seq<Action> {
    match Elements(items)
    case Ok(_) => Run(items, spawn)
    case Raised(_) => [SetLock]
  }

  /* ---------------------------------------------------------------------- */
  /* Properties of a run                                                     */
  /* ---------------------------------------------------------------------- */

  /** A run leaves the lock released and its messages, ending with the
      sentinel, appended to the log. */
  lemma RunReleasesLock(s: Server, items: Json, spawn: nat -> ChildRun)
    ensures Execute(s, Run(items, spawn))
         == Server(false, s.log + Messages(Body(items, spawn)) + [EndOfStream])
  {
    var body := Body(items, spawn);
    var s1 := Apply(s, SetLock);
    ExecuteAppend(s, [SetLock] + body, [Put(EndOfStream), ClearLock]);
    ExecuteAppend(s, [SetLock], body);
    assert Execute(s, [SetLock]) == s1;
    ExecuteLockFree(s1, body);
    var s2 := Server(true, s.log + Messages(body));
    assert Execute(s2, [Put(EndOfStream), ClearLock]) == Execute(Apply(s2, Put(EndOfStream)), [ClearLock]);
  }

  /** Any lock-free body wrapped in taking and releasing the lock holds it
      after every step but the last. */
  lemma HeldWithin(s: Server, body: seq<Action>, j: nat)
    requires LockFree(body)
    requires 1 <= j < |body| + 3
    ensures Execute(s, ([SetLock] + body + [Put(EndOfStream), ClearLock])[..j]).locked
  {
    var tail := body + [Put(EndOfStream)];
    assert ([SetLock] + body + [Put(EndOfStream), ClearLock])[..j] == [SetLock] + tail[..j - 1];
    ExecuteAppend(s, [SetLock], tail[..j - 1]);
    LockFreeConcat(body, [Put(EndOfStream)]);
    LockFreePrefix(tail, j - 1);
    ExecuteLockFree(Apply(s, SetLock), tail[..j - 1]);
  }

  /** The lock is held after every step of a run but the last. */
  lemma RunHoldsLock(s: Server, items: Json, spawn: nat -> ChildRun, j: nat)
    requires 1 <= j < |Run(items, spawn)|
    ensures Execute(s, Run(items, spawn)[..j]).locked
  {
    HeldWithin(s, Body(items, spawn), j);
  }

  /** Taking and releasing the lock queue nothing; the `finally` clause
      queues the sentinel after the body's messages. */
  lemma WrappedMessages(body: seq<Action>)
    ensures Messages([SetLock] + body + [Put(EndOfStream), ClearLock]) == Messages(body) + [EndOfStream]
  {
    MessagesAppend([SetLock] + body, [Put(EndOfStream), ClearLock]);
    MessagesAppend([SetLock], body);
    assert Messages([SetLock]) == [] + Messages([]);
    assert Messages([Put(EndOfStream), ClearLock]) == [EndOfStream] + Messages([ClearLock]);
    assert Messages([ClearLock]) == [] + Messages([]);
  }

  lemma RunMessages(items: Json, spawn: nat -> ChildRun)
    ensures Messages(Run(items, spawn)) == Messages(Body(items, spawn)) + [EndOfStream]
  {
    WrappedMessages(Body(items, spawn));
  }

  /** The body queues at least one message, and the start line first when
      the items have a length. */
  lemma BodyMessages(items: Json, spawn: nat -> ChildRun)
    ensures var m := Messages(Body(items, spawn));
      |m| >= 1 && (Elements(items).Ok? ==> m[0] == StartLine(|Elements(items).value|))
  {
    match Elements(items)
    case Ok(elems) =>
      MessagesAppend([Put(StartLine(|elems|))], ItemActions(elems, |elems|, 0, spawn));
      assert Messages([Put(StartLine(|elems|))]) == [StartLine(|elems|)] + Messages([]);
    case Raised(_) =>
      assert Messages(Body(items, spawn)) == [Fatal(NoLength(items))] + Messages([]);
  }

  /** The messages of a run: the start line first when the items have a
      length, the sentinel last. */
  lemma RunMessageOrder(items: Json, spawn: nat -> ChildRun)
    ensures var m := Messages(Run(items, spawn));
      && |m| >= 2 && m[|m| - 1] == EndOfStream
      && (Elements(items).Ok? ==> m[0] == StartLine(|Elements(items).value|))
  {
    RunMessages(items, spawn);
    BodyMessages(items, spawn);
  }

  /** No output line of `child` strips to the sentinel. */
  predicate Quiet(child: ChildRun) {
    forall j :: 0 <= j < |child.lines| ==> Strip(child.lines[j]) != EndOfStream
  }

  /** The runner's own messages differ from the sentinel in their first
      character. */
  lemma HeaderIsNotSentinel(k: nat, n: nat, name: string)
    ensures Header(k, n, name) != EndOfStream
  {
    assert Header(k, n, name)[0] == '\n';
  }

  lemma FatalIsNotSentinel(error: string)
    ensures Fatal(error) != EndOfStream
  {
    assert Fatal(error)[0] == 'F';
  }

  lemma StartLineIsNotSentinel(n: nat)
    ensures StartLine(n) != EndOfStream
  {
    assert StartLine(n)[0] == 'S';
  }

  lemma {:induction false} ForwardHasNoSentinel(lines: seq<string>)
    requires forall j :: 0 <= j < |lines| ==> Strip(lines[j]) != EndOfStream
    ensures EndOfStream !in Messages(Forward(lines))
    decreases |lines|
  {
    if lines != [] {
      ForwardHasNoSentinel(lines[1..]);
      assert Forward(lines)[1..] == Forward(lines[1..]);
    }
  }

  /** Forwarding queues each output line stripped, one message per line,
      in arrival order. */
  lemma {:induction false} ForwardQueuesStrippedLines(lines: seq<string>)
    ensures Messages(Forward(lines)) == seq(|lines|, k requires 0 <= k < |lines| => Strip(lines[k]))
    decreases |lines|
  {
    if lines != [] {
      ForwardQueuesStrippedLines(lines[1..]);
      assert Forward(lines)[1..] == Forward(lines[1..]);
      assert Forward(lines)[0] == Put(Strip(lines[0]));
    }
  }

  /** Forwarding output starts no child. */
  lemma {:induction false} ForwardSpawnsNothing(lines: seq<string>)
    ensures Spawned(Forward(lines)) == []
    decreases |lines|
  {
    if lines != [] {
      ForwardSpawnsNothing(lines[1..]);
      assert Forward(lines)[1..] == Forward(lines[1..]);
    }
  }

  lemma StartMessages(header: string, item: string)
    ensures Messages([Put(header), StartAttempt(item)]) == [header]
  {
    assert Messages([StartAttempt(item)]) == [] + Messages([]);
  }

  lemma TailMessages(child: ChildRun)
    ensures Messages(if child.Broke? then [Put(Fatal(child.error))] else [])
         == if child.Broke? then [Fatal(child.error)] else []
  {
    if child.Broke? {
      assert Messages([Put(Fatal(child.error))]) == [Fatal(child.error)] + Messages([]);
    }
  }

  /** The messages of a launch: the header, the forwarded lines, and the
      FATAL line when the child raised. */
  lemma {:induction false} LaunchMessages(header: string, item: string, child: ChildRun)
    ensures Messages(Launch(header, item, child))
         == [header] + Messages(Forward(child.lines))
            + (if child.Broke? then [Fatal(child.error)] else [])
  {
    var head := [Put(header), StartAttempt(item)];
    var tail := if child.Broke? then [Put(Fatal(child.error))] else [];
    var fwd := Forward(child.lines);
    MessagesAppend(head + fwd, tail);
    MessagesAppend(head, fwd);
    StartMessages(header, item);
    TailMessages(child);
  }

  /** The one child a launch starts is the item's. */
  lemma {:induction false} LaunchSpawns(header: string, item: string, child: ChildRun)
    ensures Spawned(Launch(header, item, child)) == [StartAttempt(item)]
  {
    var head := [Put(header), StartAttempt(item)];
    var tail := if child.Broke? then [Put(Fatal(child.error))] else [];
    var fwd := Forward(child.lines);
    SpawnedAppend(head + fwd, tail);
    SpawnedAppend(head, fwd);
    ForwardSpawnsNothing(child.lines);
    assert Spawned(tail) == [] by {
      if child.Broke? {
        assert Spawned(tail) == [] + Spawned([]);
      }
    }
    assert Spawned(head) == [] + Spawned([StartAttempt(item)]);
    assert Spawned([StartAttempt(item)]) == [StartAttempt(item)] + Spawned([]);
  }

  lemma {:induction false} StepHasNoSentinel(v: Json, k: nat, n: nat, child: ChildRun)
    requires Quiet(child)
    ensures EndOfStream !in Messages(ItemStep(v, k, n, child))
  {
    match v
    case Str(item) =>
      LaunchMessages(Header(k, n, Basename(item)), item, child);
      ForwardHasNoSentinel(child.lines);
      HeaderIsNotSentinel(k, n, Basename(item));
      if child.Broke? {
        FatalIsNotSentinel(child.error);
      }
    case _ =>
      FatalIsNotSentinel(NotAPath(v));
      assert Messages(ItemStep(v, k, n, child)) == [Fatal(NotAPath(v))] + Messages([]);
  }

  lemma {:induction false} ItemsHaveNoSentinel(elems: seq<Json>, n: nat, k: nat, spawn: nat -> ChildRun)
    requires k <= |elems|
    requires forall j :: k <= j < |elems| ==> Quiet(spawn(j))
    ensures EndOfStream !in Messages(ItemActions(elems, n, k, spawn))
    decreases |elems| - k
  {
    if k < |elems| {
      var step := ItemStep(elems[k], k, n, spawn(k));
      var rest := if Continues(elems[k], spawn(k)) then ItemActions(elems, n, k + 1, spawn) else [];
      StepHasNoSentinel(elems[k], k, n, spawn(k));
      if Continues(elems[k], spawn(k)) {
        ItemsHaveNoSentinel(elems, n, k + 1, spawn);
      }
      MessagesAppend(step, rest);
    }
  }

  /** When no child prints the sentinel, neither does the body. */
  lemma BodyHasNoSentinel(items: Json, spawn: nat -> ChildRun)
    requires forall j :: 0 <= j ==> Quiet(spawn(j))
    ensures EndOfStream !in Messages(Body(items, spawn))
  {
    match Elements(items)
    case Ok(elems) =>
      ItemsHaveNoSentinel(elems, |elems|, 0, spawn);
      MessagesAppend([Put(StartLine(|elems|))], ItemActions(elems, |elems|, 0, spawn));
      StartLineIsNotSentinel(|elems|);
      assert Messages([Put(StartLine(|elems|))]) == [StartLine(|elems|)] + Messages([]);
    case Raised(_) =>
      FatalIsNotSentinel(NoLength(items));
      assert Messages(Body(items, spawn)) == [Fatal(NoLength(items))] + Messages([]);
  }

  /** When no child prints the sentinel, a run queues it exactly once, as
      its last message. */
  lemma SentinelExactlyOnce(items: Json, spawn: nat -> ChildRun)
    requires forall j :: 0 <= j ==> Quiet(spawn(j))
    ensures var m := Messages(Run(items, spawn));
      |m| >= 2 && m[|m| - 1] == EndOfStream && forall j :: 0 <= j < |m| - 1 ==> m[j] != EndOfStream
  {
    var mb := Messages(Body(items, spawn));
    RunMessages(items, spawn);
    BodyMessages(items, spawn);
    BodyHasNoSentinel(items, spawn);
    assert forall j :: 0 <= j < |mb| ==> mb[j] != EndOfStream;
  }

  /** `sp` is the start attempts for the items of `elems` from `k` on, each
      a string. */
  predicate ListsFrom(elems: seq<Json>, k: nat, sp: seq<Action>)
    decreases |sp|
  {
    if sp == [] then k <= |elems|
    else k < |elems| && elems[k].Str? && sp[0] == StartAttempt(elems[k].s) && ListsFrom(elems, k + 1, sp[1..])
  }

  lemma ListsFromCons(elems: seq<Json>, k: nat, tail: seq<Action>)
    requires k < |elems| && elems[k].Str? && ListsFrom(elems, k + 1, tail)
    ensures ListsFrom(elems, k, [StartAttempt(elems[k].s)] + tail)
  {
    assert ([StartAttempt(elems[k].s)] + tail)[1..] == tail;
  }

  /** What `ListsFrom` means item by item: the `i`-th attempt is the one for
      item `k + i`, which is a string. */
  lemma {:induction false} ListsFromAt(elems: seq<Json>, k: nat, sp: seq<Action>, i: nat)
    requires ListsFrom(elems, k, sp) && i < |sp|
    ensures k + i < |elems| && elems[k + i].Str? && sp[i] == StartAttempt(elems[k + i].s)
    decreases i
  {
    if i > 0 {
      ListsFromAt(elems, k + 1, sp[1..], i - 1);
    }
  }

  /** Start attempts are made for the items in submission order, never for
      an item past the first one that stops the loop. */
  lemma {:induction false} SpawnedInOrder(elems: seq<Json>, n: nat, k: nat, spawn: nat -> ChildRun)
    requires k <= |elems|
    ensures ListsFrom(elems, k, Spawned(ItemActions(elems, n, k, spawn)))
    decreases |elems| - k
  {
    if k < |elems| {
      var step := ItemStep(elems[k], k, n, spawn(k));
      var rest := if Continues(elems[k], spawn(k)) then ItemActions(elems, n, k + 1, spawn) else [];
      assert ItemActions(elems, n, k, spawn) == step + rest;
      SpawnedAppend(step, rest);
      StepSpawns(elems[k], k, n, spawn(k));
      if Continues(elems[k], spawn(k)) {
        SpawnedInOrder(elems, n, k + 1, spawn);
        ListsFromCons(elems, k, Spawned(rest));
        assert Spawned(step) == [StartAttempt(elems[k].s)];
      } else {
        assert Spawned(rest) == [];
        assert Spawned(step) + [] == Spawned(step);
        if elems[k].Str? {
          ListsFromCons(elems, k, []);
          assert Spawned(step) == [StartAttempt(elems[k].s)] + [];
        } else {
          assert Spawned(step) == [];
        }
      }
    }
  }

  /** A string item makes one start attempt, for itself; any other item
      makes none. */
  lemma {:induction false} StepSpawns(v: Json, k: nat, n: nat, child: ChildRun)
    ensures Spawned(ItemStep(v, k, n, child)) == if v.Str? then [StartAttempt(v.s)] else []
  {
    match v
    case Str(item) =>
      LaunchSpawns(Header(k, n, Basename(item)), item, child);
    case _ =>
      assert Spawned(ItemStep(v, k, n, child)) == [] + Spawned([]);
  }

  /** When every item is a string and every child exits, each item gets its
      start attempt, in order. */
  lemma {:induction false} AllItemsSpawned(elems: seq<Json>, n: nat, k: nat, spawn: nat -> ChildRun)
    requires k <= |elems|
    requires forall j :: k <= j < |elems| ==> Continues(elems[j], spawn(j))
    ensures |Spawned(ItemActions(elems, n, k, spawn))| == |elems| - k
    ensures ListsFrom(elems, k, Spawned(ItemActions(elems, n, k, spawn)))
    decreases |elems| - k
  {
    SpawnedInOrder(elems, n, k, spawn);
    if k < |elems| {
      var step := ItemStep(elems[k], k, n, spawn(k));
      SpawnedAppend(step, ItemActions(elems, n, k + 1, spawn));
      StepSpawns(elems[k], k, n, spawn(k));
      AllItemsSpawned(elems, n, k + 1, spawn);
    }
  }

  /** The loop stops at item `j`: every earlier item went on and this one did
      not. */
  ghost predicate StopsAt(elems: seq<Json>, spawn: nat -> ChildRun, j: nat) {
    j < |elems| && !Continues(elems[j], spawn(j))
    && forall i :: 0 <= i < j ==> Continues(elems[i], spawn(i))
  }

  /** A loop that stops at item `j` makes start attempts for the items from
      `k` up to `j`, and for `j` itself only when it is a string: nothing
      after the stopping item is attempted. */
  lemma {:induction false} SpawnedStopsAt(elems: seq<Json>, n: nat, k: nat, spawn: nat -> ChildRun, j: nat)
    requires k <= j && StopsAt(elems, spawn, j)
    ensures |Spawned(ItemActions(elems, n, k, spawn))| == j - k + (if elems[j].Str? then 1 else 0)
    decreases j - k
  {
    var step := ItemStep(elems[k], k, n, spawn(k));
    StepSpawns(elems[k], k, n, spawn(k));
    if k < j {
      var rest := ItemActions(elems, n, k + 1, spawn);
      assert ItemActions(elems, n, k, spawn) == step + rest;
      SpawnedAppend(step, rest);
      SpawnedStopsAt(elems, n, k + 1, spawn, j);
    } else {
      assert ItemActions(elems, n, k, spawn) == step + [];
      assert step + [] == step;
    }
  }

  /** A loop that stops at item `j` does the same whatever follows `j`: the
      remaining items are abandoned. */
  lemma {:induction false} LaterItemsAbandoned(elems: seq<Json>, more: seq<Json>, n: nat, k: nat, spawn: nat -> ChildRun, j: nat)
    requires k <= j && StopsAt(elems, spawn, j)
    ensures ItemActions(elems[..j + 1] + more, n, k, spawn) == ItemActions(elems, n, k, spawn)
    decreases j - k
  {
    var other := elems[..j + 1] + more;
    assert k < |other| && other[k] == elems[k];
    var step := ItemStep(elems[k], k, n, spawn(k));
    if k < j {
      assert Continues(elems[k], spawn(k));
      assert ItemActions(other, n, k, spawn) == step + ItemActions(other, n, k + 1, spawn);
      assert ItemActions(elems, n, k, spawn) == step + ItemActions(elems, n, k + 1, spawn);
      LaterItemsAbandoned(elems, more, n, k + 1, spawn, j);
    } else {
      assert !Continues(elems[k], spawn(k));
      assert ItemActions(other, n, k, spawn) == step + [];
      assert ItemActions(elems, n, k, spawn) == step + [];
    }
  }

  /** The last of `m` is a FATAL line. */
  predicate EndsWithFatal(m: seq<string>) {
    |m| >= 1 && StartsWith(m[|m| - 1], FatalPrefix)
  }

  lemma EndsWithFatalAppend(a: seq<string>, b: seq<string>)
    requires EndsWithFatal(b)
    ensures EndsWithFatal(a + b)
  {
    assert (a + b)[|a + b| - 1] == b[|b| - 1];
  }

  lemma FatalEndsWithFatal(error: string)
    ensures EndsWithFatal(Messages([Put(Fatal(error))]))
  {
    assert Messages([Put(Fatal(error))]) == [Fatal(error)] + Messages([]);
    PrefixStartsWith(FatalPrefix, error);
  }

  /** An item that stops the loop leaves a FATAL line as the last message of
      the loop. */
  lemma {:induction false} StopEndsWithFatal(elems: seq<Json>, n: nat, k: nat, spawn: nat -> ChildRun, j: nat)
    requires k <= j && StopsAt(elems, spawn, j)
    ensures EndsWithFatal(Messages(ItemActions(elems, n, k, spawn)))
    decreases |elems| - k
  {
    var step := ItemStep(elems[k], k, n, spawn(k));
    if k < j {
      var rest := ItemActions(elems, n, k + 1, spawn);
      assert ItemActions(elems, n, k, spawn) == step + rest;
      StopEndsWithFatal(elems, n, k + 1, spawn, j);
      MessagesAppend(step, rest);
      EndsWithFatalAppend(Messages(step), Messages(rest));
    } else {
      assert ItemActions(elems, n, k, spawn) == step + [];
      assert step + [] == step;
      StepEndsWithFatal(elems[k], k, n, spawn(k));
    }
  }

  lemma {:induction false} StepEndsWithFatal(v: Json, k: nat, n: nat, child: ChildRun)
    requires !Continues(v, child)
    ensures EndsWithFatal(Messages(ItemStep(v, k, n, child)))
  {
    match v
    case Str(item) =>
      var header := Header(k, n, Basename(item));
      LaunchMessages(header, item, child);
      FatalEndsWithFatal(child.error);
      assert Messages([Put(Fatal(child.error))]) == [Fatal(child.error)];
      EndsWithFatalAppend([header] + Messages(Forward(child.lines)), [Fatal(child.error)]);
    case _ =>
      FatalEndsWithFatal(NotAPath(v));
  }

  /** A body whose items have no length, or whose loop stops early, ends
      with a FATAL line. */
  lemma BodyEndsWithFatal(items: Json, spawn: nat -> ChildRun)
    requires Elements(items).Raised? || exists j :: StopsAt(Elements(items).value, spawn, j)
    ensures EndsWithFatal(Messages(Body(items, spawn)))
  {
    match Elements(items)
    case Ok(elems) =>
      var j :| StopsAt(elems, spawn, j);
      var acts := ItemActions(elems, |elems|, 0, spawn);
      StopEndsWithFatal(elems, |elems|, 0, spawn, j);
      MessagesAppend([Put(StartLine(|elems|))], acts);
      EndsWithFatalAppend(Messages([Put(StartLine(|elems|))]), Messages(acts));
    case Raised(_) =>
      FatalEndsWithFatal(NoLength(items));
  }

  /** A run whose items have no length, or whose loop stops early, queues a
      FATAL line right before the sentinel. */
  lemma FatalBeforeSentinel(items: Json, spawn: nat -> ChildRun)
    requires Elements(items).Raised? || exists j :: StopsAt(Elements(items).value, spawn, j)
    ensures var m := Messages(Run(items, spawn));
      |m| >= 2 && m[|m| - 1] == EndOfStream && StartsWith(m[|m| - 2], FatalPrefix)
  {
    RunMessages(items, spawn);
    BodyEndsWithFatal(items, spawn);
  }

  /** Only whether a child exited matters, not its status. */
  function Normalized(child: ChildRun): ChildRun {
    match child
    case Exited(lines, _) => Exited(lines, 0)
    case Broke(_, _) => child
  }

  lemma LaunchIgnoresStatus(header: string, item: string, child: ChildRun, child': ChildRun)
    requires Normalized(child) == Normalized(child')
    ensures Launch(header, item, child) == Launch(header, item, child')
  {
    assert child.lines == child'.lines;
    var tail := if child.Broke? then [Put(Fatal(child.error))] else [];
    var tail' := if child'.Broke? then [Put(Fatal(child'.error))] else [];
    assert tail == tail';
  }

  lemma StepIgnoresStatus(v: Json, k: nat, n: nat, child: ChildRun, child': ChildRun)
    requires Normalized(child) == Normalized(child')
    ensures ItemStep(v, k, n, child) == ItemStep(v, k, n, child')
  {
    if v.Str? {
      LaunchIgnoresStatus(Header(k, n, Basename(v.s)), v.s, child, child');
    }
  }

  lemma {:induction false} ItemActionsIgnoreStatus(elems: seq<Json>, n: nat, k: nat, spawn: nat -> ChildRun, spawn': nat -> ChildRun)
    requires k <= |elems|
    requires forall j :: k <= j < |elems| ==> Normalized(spawn(j)) == Normalized(spawn'(j))
    ensures ItemActions(elems, n, k, spawn) == ItemActions(elems, n, k, spawn')
    decreases |elems| - k
  {
    if k < |elems| {
      StepIgnoresStatus(elems[k], k, n, spawn(k), spawn'(k));
      assert Continues(elems[k], spawn(k)) == Continues(elems[k], spawn'(k));
      ItemActionsIgnoreStatus(elems, n, k + 1, spawn, spawn');
    }
  }

  /** The exit status of a child is never looked at: a run is the same when
      every child that exited is taken to have exited with status 0. */
  lemma ExitStatusIgnored(items: Json, spawn: nat -> ChildRun)
    ensures Run(items, spawn) == Run(items, (j: nat) => Normalized(spawn(j)))
  {
    if Elements(items).Ok? {
      var elems := Elements(items).value;
      ItemActionsIgnoreStatus(elems, |elems|, 0, spawn, (j: nat) => Normalized(spawn(j)));
    }
  }

  /** The runner as written behaves like the corrected one whenever the
      items have a length. */
  lemma AsWrittenAgreesWhenSized(items: Json, spawn: nat -> ChildRun)
    requires Elements(items).Ok?
    ensures RunAsWritten(items, spawn) == Run(items, spawn)
  {
  }

  /** An integer list of URLs: as written the lock file stays in place and
      no sentinel is queued, so every later request is turned away and the
      stream never ends; the corrected run releases the lock after its FATAL
      line and the sentinel. */
  lemma LockLeaksOnUnsizedItems(q: seq<string>, spawn: nat -> ChildRun)
    ensures Execute(Server(false, q), RunAsWritten(Int(5), spawn)) == Server(true, q)
    ensures Execute(Server(false, q), Run(Int(5), spawn))
         == Server(false, q + [Fatal(NoLength(Int(5))), EndOfStream])
  {
    assert Execute(Server(false, q), [SetLock]) == Execute(Server(true, q), []);
    RunReleasesLock(Server(false, q), Int(5), spawn);
    assert Messages(Body(Int(5), spawn)) == [Fatal(NoLength(Int(5)))] + Messages([]);
  }
}
