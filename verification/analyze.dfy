/** `kubconfig analyze` (cmd/analyze.go): collect the outputs of twelve
    `kubectl` commands and turn them into cluster metrics by counting and
    classifying their lines.

    The commands run concurrently in the program; here their answers arrive
    as a sequence, in the order they were received before the deadline. The
    capacity query, the floating-point totals and percentages and the table
    rendering are not part of this model. */
module Analyze {
  import opened Wrappers
  import opened Strs

  /** The metric names of the command table, one per `kubectl` call. */
  const Commands: seq<string> :=
    ["context", "namespaces", "pods", "nodes", "deployments", "services",
     "ingress", "pvc", "secrets", "configmaps", "top-nodes", "top-pods"]

  /** One command's answer: its metric name and its output or error. */
  datatype Answer = Answer(metric: string, output: Result<string, string>)

  /** Why the analysis produced no metrics. */
  datatype Failure =
    | TimedOut(seconds: int)   // "operation timed out after %d seconds"
    | IndexOutOfRange(line: string) // a run-time panic on a `top nodes` line; only the
                                    // guard as written raises it, never GetClusterMetrics

  // ---------------------------------------------------------------------------
  // Collecting the answers
  // ---------------------------------------------------------------------------

  /** The outputs of the successful commands by metric name, and the names
      of the failed ones in the order they were received. */
  datatype Collected = Collected(results: map<string, string>, failed: seq<string>)

  /** The collection loop over the received answers: a later answer for the
      same metric overwrites an earlier one. */
  function Collect(answers: seq<Answer>): (c: Collected)
    ensures |c.failed| <= |answers|
  {
    if |answers| == 0 then Collected(map[], [])
    else
      var c := Collect(answers[..|answers| - 1]);
      var a := answers[|answers| - 1];
      match a.output
      case Ok(out) => Collected(c.results[a.metric := out], c.failed)
      case Err(_) => Collected(c.results, c.failed + [a.metric])
  }

  /** A metric has an output exactly when one of its commands succeeded. */
  lemma {:induction false} CollectKeys(answers: seq<Answer>, m: string)
    ensures m in Collect(answers).results <==>
            exists i :: 0 <= i < |answers| && answers[i].metric == m && answers[i].output.Ok?
    decreases |answers|
  {
    if |answers| > 0 {
      var n := |answers| - 1;
      var p := answers[..n];
      CollectKeys(p, m);
      assert forall i :: 0 <= i < n ==> p[i] == answers[i];
    }
  }

  /** A metric is listed as failed exactly when one of its commands failed. */
  lemma {:induction false} CollectFailed(answers: seq<Answer>, m: string)
    ensures m in Collect(answers).failed <==>
            exists i :: 0 <= i < |answers| && answers[i].metric == m && answers[i].output.Err?
    decreases |answers|
  {
    if |answers| > 0 {
      var n := |answers| - 1;
      var p := answers[..n];
      CollectFailed(p, m);
      assert forall i :: 0 <= i < n ==> p[i] == answers[i];
    }
  }

  /** The output kept for a metric is that of its last successful answer. */
  lemma {:induction false} CollectLatest(answers: seq<Answer>, i: nat)
    requires i < |answers| && answers[i].output.Ok?
    requires forall j :: i < j < |answers| ==> answers[j].metric != answers[i].metric
    ensures answers[i].metric in Collect(answers).results
    ensures Collect(answers).results[answers[i].metric] == answers[i].output.value
    decreases |answers|
  {
    var n := |answers| - 1;
    if i < n {
      var p := answers[..n];
      assert p[i] == answers[i];
      CollectLatest(p, i);
    }
  }

  /** A metric whose every command failed has no output and is reported. */
  lemma FailedMetricAbsent(answers: seq<Answer>, i: nat)
    requires i < |answers| && answers[i].output.Err?
    requires forall j :: 0 <= j < |answers| && answers[j].metric == answers[i].metric ==> answers[j].output.Err?
    ensures answers[i].metric !in Collect(answers).results
    ensures answers[i].metric in Collect(answers).failed
  {
    CollectKeys(answers, answers[i].metric);
    CollectFailed(answers, answers[i].metric);
  }

  // ---------------------------------------------------------------------------
  // Line counts
  // ---------------------------------------------------------------------------

  /** The lines of a command's output after trimming surrounding white space. */
  function Lines(out: string): (lines: seq<string>)
    ensures |lines| >= 1
  {
    Split(TrimSpace(out), '\n')
  }

  /** The count used for namespaces and the six resource kinds: the number
      of lines of the trimmed output, so an empty output counts one. */
  function LineCount(out: string): (n: nat)
    ensures n >= 1
    ensures n == Count(TrimSpace(out), '\n') + 1
    ensures AllSpace(out) ==> n == 1
  {
    SplitLength(TrimSpace(out), '\n');
    TrimSpaceEmpty(out);
    |Lines(out)|
  }

  // ---------------------------------------------------------------------------
  // Pods
  // ---------------------------------------------------------------------------

  datatype PodState = Running | Crashed | Pending | Other

  /** The class of one `kubectl get pods` line: "Running" wins over "Error"
      and "CrashLoopBackOff", which win over "Pending". */
  function ClassifyPod(line: string): (st: PodState)
    ensures st == Running <==> Contains(line, "Running")
    ensures st == Crashed <==>
              !Contains(line, "Running") && (Contains(line, "Error") || Contains(line, "CrashLoopBackOff"))
    ensures st == Pending <==>
              !Contains(line, "Running") && !Contains(line, "Error") && !Contains(line, "CrashLoopBackOff")
              && Contains(line, "Pending")
  {
    if Contains(line, "Running") then Running
    else if Contains(line, "Error") || Contains(line, "CrashLoopBackOff") then Crashed
    else if Contains(line, "Pending") then Pending
    else Other
  }

  /** The number of lines in class `st`. */
  function CountState(pods: seq<string>, st: PodState): (n: nat)
    ensures n <= |pods|
  {
    if |pods| == 0 then 0
    else CountState(pods[..|pods| - 1], st) + (if ClassifyPod(pods[|pods| - 1]) == st then 1 else 0)
  }

  /** Every line is in exactly one class. */
  lemma {:induction false} PodStatesPartition(pods: seq<string>)
    ensures CountState(pods, Running) + CountState(pods, Crashed) + CountState(pods, Pending)
            + CountState(pods, Other) == |pods|
    decreases |pods|
  {
    if |pods| > 0 {
      PodStatesPartition(pods[..|pods| - 1]);
    }
  }

  /** The pod loop: each line bumps at most one counter. */
  method TallyPods(pods: seq<string>) returns (running: nat, crashed: nat, pending: nat)
    ensures running == CountState(pods, Running)
    ensures crashed == CountState(pods, Crashed)
    ensures pending == CountState(pods, Pending)
    ensures running + crashed + pending == |pods| - CountState(pods, Other)
  {
    running, crashed, pending := 0, 0, 0;
    var i := 0;
    while i < |pods|
      invariant 0 <= i <= |pods|
      invariant running == CountState(pods[..i], Running)
      invariant crashed == CountState(pods[..i], Crashed)
      invariant pending == CountState(pods[..i], Pending)
    {
      assert pods[..i + 1][..i] == pods[..i];
      var pod := pods[i];
      if Contains(pod, "Running") {
        running := running + 1;
      } else if Contains(pod, "Error") || Contains(pod, "CrashLoopBackOff") {
        crashed := crashed + 1;
      } else if Contains(pod, "Pending") {
        pending := pending + 1;
      }
      i := i + 1;
    }
    assert pods[..i] == pods;
    PodStatesPartition(pods);
  }

  // ---------------------------------------------------------------------------
  // Nodes
  // ---------------------------------------------------------------------------

  /** A node line's name and status: its first two fields, when it has two. */
  function NodeEntry(line: string): (e: Option<(string, string)>)
    ensures e.Some? <==> |Fields(line)| >= 2
    ensures e.Some? ==> e.value.0 == Fields(line)[0] && e.value.1 == Fields(line)[1]
  {
    var f := Fields(line);
    if |f| >= 2 then Some((f[0], f[1])) else None
  }

  /** The (name, status) pairs of the lines that have them, in line order. */
  function NodeEntries(lines: seq<string>): (es: seq<(string, string)>)
    ensures |es| <= |lines|
  {
    if |lines| == 0 then []
    else
      var es := NodeEntries(lines[..|lines| - 1]);
      match NodeEntry(lines[|lines| - 1])
      case Some(e) => es + [e]
      case None => es
  }

  /** `NodeHealth`, filled in line order. */
  function HealthMap(es: seq<(string, string)>): map<string, string>
  {
    if |es| == 0 then map[]
    else HealthMap(es[..|es| - 1])[es[|es| - 1].0 := es[|es| - 1].1]
  }

  /** The number of entries whose status is exactly "Ready". */
  function ReadyCount(es: seq<(string, string)>): (n: nat)
    ensures n <= |es|
  {
    if |es| == 0 then 0
    else ReadyCount(es[..|es| - 1]) + (if es[|es| - 1].1 == "Ready" then 1 else 0)
  }

  /** Every node name of the output is a key of the health map, and nothing
      else is. */
  lemma {:induction false} HealthKeys(es: seq<(string, string)>, name: string)
    ensures name in HealthMap(es) <==> exists i :: 0 <= i < |es| && es[i].0 == name
    decreases |es|
  {
    if |es| > 0 {
      var n := |es| - 1;
      var p := es[..n];
      HealthKeys(p, name);
      assert forall i :: 0 <= i < n ==> p[i] == es[i];
    }
  }

  /** A name listed twice keeps the status of its last line. */
  lemma {:induction false} HealthLatest(es: seq<(string, string)>, i: nat)
    requires i < |es|
    requires forall j :: i < j < |es| ==> es[j].0 != es[i].0
    ensures es[i].0 in HealthMap(es) && HealthMap(es)[es[i].0] == es[i].1
    decreases |es|
  {
    var n := |es| - 1;
    if i < n {
      var p := es[..n];
      assert p[i] == es[i];
      HealthLatest(p, i);
    }
  }

  /** The node loop: lines with fewer than two fields are skipped; each
      other line records its status and counts as ready or not ready. */
  method TallyNodes(nodes: seq<string>) returns (health: map<string, string>, ready: nat, notReady: nat)
    ensures health == HealthMap(NodeEntries(nodes))
    ensures ready == ReadyCount(NodeEntries(nodes))
    ensures ready + notReady == |NodeEntries(nodes)| <= |nodes|
  {
    health, ready, notReady := map[], 0, 0;
    var i := 0;
    while i < |nodes|
      invariant 0 <= i <= |nodes|
      invariant health == HealthMap(NodeEntries(nodes[..i]))
      invariant ready == ReadyCount(NodeEntries(nodes[..i]))
      invariant ready + notReady == |NodeEntries(nodes[..i])|
    {
      var fields := Fields(nodes[i]);
      NodeStep(nodes, i);
      if |fields| >= 2 {
        var name, status := fields[0], fields[1];
        health := health[name := status];
        if status == "Ready" {
          ready := ready + 1;
        } else {
          notReady := notReady + 1;
        }
      }
      i := i + 1;
    }
    assert nodes[..i] == nodes;
  }

  /** One more line of the node loop adds its entry, if it has one. */
  lemma NodeStep(nodes: seq<string>, i: nat)
    requires i < |nodes|
    ensures var es := NodeEntries(nodes[..i]);
            var f := Fields(nodes[i]);
            if |f| >= 2 then
              var es' := es + [(f[0], f[1])];
              && NodeEntries(nodes[..i + 1]) == es'
              && HealthMap(es') == HealthMap(es)[f[0] := f[1]]
              && ReadyCount(es') == ReadyCount(es) + (if f[1] == "Ready" then 1 else 0)
            else NodeEntries(nodes[..i + 1]) == es
  {
    assert nodes[..i + 1][..i] == nodes[..i];
    var es := NodeEntries(nodes[..i]);
    var f := Fields(nodes[i]);
    if |f| >= 2 {
      var es' := es + [(f[0], f[1])];
      assert es'[..|es|] == es;
    }
  }

  // ---------------------------------------------------------------------------
  // Top pods and top nodes
  // ---------------------------------------------------------------------------

  /** The top-pods loop: the first three lines (fewer when there are fewer),
      appended to both lists. */
  method TakeTop(pods: seq<string>) returns (byCpu: seq<string>, byMemory: seq<string>)
    ensures |byCpu| == (if |pods| < 3 then |pods| else 3)
    ensures byCpu == pods[..|byCpu|]
    ensures byMemory == byCpu
  {
    byCpu, byMemory := [], [];
    var i := 0;
    while i < 3 && i < |pods|
      invariant 0 <= i <= 3 && i <= |pods|
      invariant byCpu == pods[..i] && byMemory == pods[..i]
    {
      byCpu := byCpu + [pods[i]];
      byMemory := byMemory + [pods[i]];
      assert pods[..i + 1] == pods[..i] + [pods[i]];
      i := i + 1;
    }
  }

  /** A `kubectl top nodes` line's CPU and memory percentages: its third and
      fifth fields without the "%". */
  function UsageOf(fields: seq<string>): (u: (string, string))
    requires |fields| >= 5
    ensures u.0 + "%" == fields[2] || u.0 == fields[2]
    ensures u.1 + "%" == fields[4] || u.1 == fields[4]
  {
    (TrimSuffix(fields[2], "%"), TrimSuffix(fields[4], "%"))
  }

  /** The usage loop over the `top nodes` lines, taking the lines with at
      least `guard` fields. A line that passes the guard with fewer than five
      fields makes the read of the fifth one panic: the result is then that
      line. */
  function TopNodeUsage(lines: seq<string>, guard: nat): (r: Result<seq<(string, string)>, string>)
    ensures r.Ok? ==> |r.value| <= |lines|
    ensures r.Err? ==> r.error in lines
    decreases |lines|
  {
    if |lines| == 0 then Ok([])
    else
      var f := Fields(lines[0]);
      if guard <= |f| < 5 then Err(lines[0])
      else
        match TopNodeUsage(lines[1..], guard)
        case Err(line) => Err(line)
        case Ok(rest) => Ok((if |f| >= guard then [UsageOf(f)] else []) + rest)
  }

  /** The number of lines with at least five fields. */
  function WideLines(lines: seq<string>): nat
  {
    if |lines| == 0 then 0 else (if |Fields(lines[0])| >= 5 then 1 else 0) + WideLines(lines[1..])
  }

  /** With the guard at four, as written, the loop panics exactly when some
      line has exactly four fields, and it panics on the first one. */
  lemma {:induction false} AsWrittenPanics(lines: seq<string>)
    ensures TopNodeUsage(lines, 4).Err? <==> exists i :: 0 <= i < |lines| && |Fields(lines[i])| == 4
    ensures TopNodeUsage(lines, 4).Err? ==>
              exists i :: 0 <= i < |lines| && lines[i] == TopNodeUsage(lines, 4).error
                          && |Fields(lines[i])| == 4
                          && forall j :: 0 <= j < i ==> |Fields(lines[j])| != 4
    decreases |lines|
  {
    if |lines| > 0 {
      AsWrittenPanics(lines[1..]);
      assert forall i :: 1 <= i < |lines| ==> lines[1..][i - 1] == lines[i];
      if |Fields(lines[0])| != 4 && TopNodeUsage(lines, 4).Err? {
        var k :| 0 <= k < |lines[1..]| && lines[1..][k] == TopNodeUsage(lines, 4).error
                 && |Fields(lines[1..][k])| == 4
                 && forall j :: 0 <= j < k ==> |Fields(lines[1..][j])| != 4;
        assert lines[k + 1] == lines[1..][k];
        assert forall j :: 1 <= j < k + 1 ==> lines[j] == lines[1..][j - 1];
      }
    }
  }

  /** A four-field line, such as a node line without its memory percentage,
      as the words of a line. */
  lemma FourFieldLinePanics(w0: string, w1: string, w2: string, w3: string)
    requires |w0| > 0 && |w1| > 0 && |w2| > 0 && |w3| > 0
    requires NoSpace(w0) && NoSpace(w1) && NoSpace(w2) && NoSpace(w3)
    ensures TopNodeUsage([Join([w0, w1, w2, w3], ' ')], 4) == Err(Join([w0, w1, w2, w3], ' '))
  {
    FieldsJoin([w0, w1, w2, w3]);
  }

  /** A concrete such line: a node line that lacks its memory percentage. */
  lemma NodeLineWithoutMemoryPercent()
    ensures TopNodeUsage(["node1 250m 12% 1024Mi"], 4) == Err("node1 250m 12% 1024Mi")
  {
    var ws := ["node1", "250m", "12%", "1024Mi"];
    assert Join(ws, ' ') == "node1 250m 12% 1024Mi";
    FourFieldLinePanics(ws[0], ws[1], ws[2], ws[3]);
  }

  /** With the guard at five the loop never panics and reads every line
      with at least five fields. */
  lemma {:induction false} UsageNeverFails(lines: seq<string>)
    ensures TopNodeUsage(lines, 5).Ok?
    ensures |TopNodeUsage(lines, 5).value| == WideLines(lines)
    decreases |lines|
  {
    if |lines| > 0 {
      UsageNeverFails(lines[1..]);
    }
  }

  // ---------------------------------------------------------------------------
  // The metrics
  // ---------------------------------------------------------------------------

  /** `ClusterMetrics` without its floating-point parts; `usage` holds the
      per-node CPU and memory percentages that the program sums as floats. */
  datatype Metrics = Metrics(
    context: string,
    namespaces: nat,
    pods: nat, running: nat, crashed: nat, pending: nat,
    nodes: nat, ready: nat, notReady: nat,
    health: map<string, string>,
    deployments: nat, services: nat, ingress: nat, pvc: nat, secrets: nat, configMaps: nat,
    usage: seq<(string, string)>,
    topByCpu: seq<string>, topByMemory: seq<string>)

  /** The count of one resource kind: zero when its command gave no output. */
  function ResourceCount(results: map<string, string>, kind: string): (n: nat)
    ensures kind !in results ==> n == 0
    ensures kind in results ==> n >= 1 && n == Count(TrimSpace(results[kind]), '\n') + 1
  {
    if kind in results then LineCount(results[kind]) else 0
  }

  /** What the processing makes of the collected outputs, with the
      top-nodes guard at five fields. A metric whose command produced no
      output keeps its zero value; every node line with a name and a status
      counts as ready or not ready. */
  predicate Summarises(results: map<string, string>, m: Metrics) {
    && m.context == (if "context" in results then TrimSpace(results["context"]) else "")
    && m.namespaces == ResourceCount(results, "namespaces")
    && ("pods" !in results ==> m.pods == m.running == m.crashed == m.pending == 0)
    && ("pods" in results ==>
          && m.pods == |Lines(results["pods"])|
          && m.running == CountState(Lines(results["pods"]), Running)
          && m.crashed == CountState(Lines(results["pods"]), Crashed)
          && m.pending == CountState(Lines(results["pods"]), Pending))
    && m.running + m.crashed + m.pending <= m.pods
    && ("nodes" !in results ==> m.nodes == m.ready == m.notReady == 0 && m.health == map[])
    && ("nodes" in results ==>
          && m.nodes == |Lines(results["nodes"])|
          && m.health == HealthMap(NodeEntries(Lines(results["nodes"])))
          && m.ready == ReadyCount(NodeEntries(Lines(results["nodes"])))
          && m.ready + m.notReady == |NodeEntries(Lines(results["nodes"]))|)
    && m.ready + m.notReady <= m.nodes
    && m.deployments == ResourceCount(results, "deployments")
    && m.services == ResourceCount(results, "services")
    && m.ingress == ResourceCount(results, "ingress")
    && m.pvc == ResourceCount(results, "pvc")
    && m.secrets == ResourceCount(results, "secrets")
    && m.configMaps == ResourceCount(results, "configmaps")
    && ("top-nodes" !in results ==> m.usage == [])
    && ("top-nodes" in results ==> |m.usage| == WideLines(Lines(results["top-nodes"])))
    && ("top-pods" !in results ==> m.topByCpu == m.topByMemory == [])
    && ("top-pods" in results ==>
          && m.topByCpu == m.topByMemory
          && |m.topByCpu| == (if |Lines(results["top-pods"])| < 3 then |Lines(results["top-pods"])| else 3)
          && m.topByCpu == Lines(results["top-pods"])[..|m.topByCpu|])
  }

  /** The processing of the collected outputs. */
  method Process(results: map<string, string>) returns (m: Metrics)
    ensures Summarises(results, m)
  {
    var context := if "context" in results then TrimSpace(results["context"]) else "";
    var pods, running, crashed, pending := PodMetrics(results);
    var nodes, ready, notReady, health := NodeMetrics(results);
    var usage, byCpu, byMemory := TopMetrics(results);
    m := Metrics(context, ResourceCount(results, "namespaces"),
                 pods, running, crashed, pending, nodes, ready, notReady, health,
                 ResourceCount(results, "deployments"), ResourceCount(results, "services"),
                 ResourceCount(results, "ingress"), ResourceCount(results, "pvc"),
                 ResourceCount(results, "secrets"), ResourceCount(results, "configmaps"),
                 usage, byCpu, byMemory);
  }

  /** The `top` outputs: the node percentages read with the guard at five
      fields, and the first three pod lines; empty without the outputs. */
  method TopMetrics(results: map<string, string>)
    returns (usage: seq<(string, string)>, byCpu: seq<string>, byMemory: seq<string>)
    ensures "top-nodes" !in results ==> usage == []
    ensures "top-nodes" in results ==> |usage| == WideLines(Lines(results["top-nodes"]))
    ensures "top-pods" !in results ==> byCpu == byMemory == []
    ensures "top-pods" in results ==>
              && byCpu == byMemory
              && |byCpu| == (if |Lines(results["top-pods"])| < 3 then |Lines(results["top-pods"])| else 3)
              && byCpu == Lines(results["top-pods"])[..|byCpu|]
  {
    usage, byCpu, byMemory := [], [], [];
    if "top-nodes" in results {
      var lines := Lines(results["top-nodes"]);
      UsageNeverFails(lines);
      usage := TopNodeUsage(lines, 5).value;
    }
    if "top-pods" in results {
      byCpu, byMemory := TakeTop(Lines(results["top-pods"]));
    }
  }

  /** The pod counts: all zero without a `get pods` output. */
  method PodMetrics(results: map<string, string>) returns (pods: nat, running: nat, crashed: nat, pending: nat)
    ensures "pods" !in results ==> pods == running == crashed == pending == 0
    ensures "pods" in results ==>
              && pods == |Lines(results["pods"])|
              && running == CountState(Lines(results["pods"]), Running)
              && crashed == CountState(Lines(results["pods"]), Crashed)
              && pending == CountState(Lines(results["pods"]), Pending)
    ensures running + crashed + pending <= pods
  {
    pods, running, crashed, pending := 0, 0, 0, 0;
    if "pods" in results {
      var lines := Lines(results["pods"]);
      pods := |lines|;
      running, crashed, pending := TallyPods(lines);
    }
  }

  /** The node counts and health map: empty without a `get nodes` output. */
  method NodeMetrics(results: map<string, string>)
    returns (nodes: nat, ready: nat, notReady: nat, health: map<string, string>)
    ensures "nodes" !in results ==> nodes == ready == notReady == 0 && health == map[]
    ensures "nodes" in results ==>
              && nodes == |Lines(results["nodes"])|
              && health == HealthMap(NodeEntries(Lines(results["nodes"])))
              && ready == ReadyCount(NodeEntries(Lines(results["nodes"])))
              && ready + notReady == |NodeEntries(Lines(results["nodes"]))|
    ensures ready + notReady <= nodes
  {
    nodes, ready, notReady, health := 0, 0, 0, map[];
    if "nodes" in results {
      var lines := Lines(results["nodes"]);
      nodes := |lines|;
      health, ready, notReady := TallyNodes(lines);
    }
  }

  /** The report: the metrics and the names of the commands that failed. */
  datatype Report = Report(metrics: Metrics, failed: seq<string>)

  /** `getClusterMetrics`: `answers` are the answers received before the
      deadline of `timeout` seconds, in arrival order. Twelve receives are
      needed; fewer means the deadline fired first. */
  method GetClusterMetrics(answers: seq<Answer>, timeout: int) returns (r: Result<Report, Failure>)
    ensures r == Err(TimedOut(timeout)) <==> |answers| < |Commands|
    ensures r.Ok? ==> r.value.failed == Collect(answers[..|Commands|]).failed
    ensures r.Ok? ==> forall m :: m in r.value.failed <==>
              exists i :: 0 <= i < |Commands| && answers[i].metric == m && answers[i].output.Err?
    ensures r.Ok? ==> Summarises(Collect(answers[..|Commands|]).results, r.value.metrics)
  {
    if |answers| < |Commands| {
      return Err(TimedOut(timeout));
    }
    var received := answers[..|Commands|];
    var c := Collect(received);
    var m := Process(c.results);
    forall name ensures name in c.failed <==>
        exists i :: 0 <= i < |Commands| && answers[i].metric == name && answers[i].output.Err? {
      CollectFailed(received, name);
      assert forall i :: 0 <= i < |Commands| ==> received[i] == answers[i];
    }
    r := Ok(Report(m, c.failed));
  }
}
