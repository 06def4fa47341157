/** The temporary-access lifecycle of config/serviceaccount.go: creating a
    service account and its cluster-admin binding for the current user, the
    in-memory registry of sessions, the guarded teardown and the periodic sweep
    of expired sessions.

    The cluster is a set of resources; every `kubectl` call is replaced by an
    oracle input (the error it returns, or the outcome of each probe). Locking
    is left out: the model runs every operation to completion, one at a time. */
module Grants {
  import opened Wrappers
  import opened Strs
  import opened Clock

  /** `ServiceAccountConfig`. Instants are nanoseconds since the epoch. */
  datatype ServiceAccountConfig = ServiceAccountConfig(
    name: string,
    namespace: string,
    serverURL: string,
    clusterName: string,
    user: string,
    expiresAt: int,
    createdAt: string)

  const SystemNamespace: string := "kube-system"

  /** How many times `waitForServiceAccount` asks for the account. */
  const MaxAttempts: nat := 10

  datatype Kind = ServiceAccount | ClusterRoleBinding

  /** A cluster object; cluster-scoped objects have the namespace "". */
  datatype Resource = Resource(kind: Kind, namespace: string, name: string)

  type ControlPlane = set<Resource>

  /** The service-account name derived from the user name. */
  function NameFor(user: string): string {
    user + "-user"
  }

  function AccountOf(c: ServiceAccountConfig): Resource {
    Resource(ServiceAccount, c.namespace, c.name)
  }

  function BindingOf(c: ServiceAccountConfig): Resource {
    Resource(ClusterRoleBinding, "", c.name + "-admin")
  }

  /** The two objects the manifest template creates. */
  function Manifests(c: ServiceAccountConfig): set<Resource> {
    {AccountOf(c), BindingOf(c)}
  }

  // ---------------------------------------------------------------------------
  // Session registry
  // ---------------------------------------------------------------------------

  /** `activeSessions`: sessions keyed by their name. */
  type Registry = map<string, ServiceAccountConfig>

  /** `RegisterSession`: insert, or overwrite the entry of the same name. */
  function RegisterSession(reg: Registry, c: ServiceAccountConfig): (r: Registry)
    ensures r.Keys == reg.Keys + {c.name}
    ensures r[c.name] == c
    ensures forall k :: k in reg && k != c.name ==> r[k] == reg[k]
  {
    reg[c.name := c]
  }

  /** A session is live while the clock has not passed its expiry
      (`!time.Now().After(session.ExpiresAt)`). */
  predicate Live(s: ServiceAccountConfig, now: int) {
    !After(now, s.expiresAt)
  }

  /** The sweep's test (`now.After(session.ExpiresAt)`). */
  predicate Expired(s: ServiceAccountConfig, now: int) {
    After(now, s.expiresAt)
  }

  /** The guard of `CleanupTemporaryAccess`: some registered session of the
      same user is still live. */
  predicate HasActiveSession(reg: Registry, user: string, now: int) {
    exists k :: k in reg && reg[k].user == user && Live(reg[k], now)
  }

  /** The sweep's test is the exact complement of the guard's: at every
      instant a session is either live or expired, never both. */
  lemma ExpiredIsNotLive(s: ServiceAccountConfig, now: int)
    ensures Expired(s, now) <==> !Live(s, now)
    ensures Live(s, now) <==> now <= s.expiresAt
  {
  }

  /** Registries whose every key is the entry's name, and every name the one
      derived from the entry's user: the only registries the code can build. */
  predicate WellKeyed(reg: Registry) {
    forall k :: k in reg ==> k == reg[k].name && reg[k].name == NameFor(reg[k].user)
  }

  lemma {:induction false} NameForInjective(u: string, v: string)
    requires NameFor(u) == NameFor(v)
    ensures u == v
  {
    assert |u| == |v|;
    assert u == NameFor(u)[..|u|];
    assert v == NameFor(v)[..|v|];
  }

  /** With names derived from users, at most one entry can belong to a user:
      the one filed under that user's name. */
  lemma GuardMatchesOnlyOwnEntry(reg: Registry, user: string, k: string)
    requires WellKeyed(reg)
    requires k in reg && reg[k].user == user
    ensures k == NameFor(user)
  {
  }

  /** Hence when the sweep cleans an expired entry of a well-keyed registry,
      the guard never holds and the resources are always deleted. */
  lemma ExpiredEntryNeverGuarded(reg: Registry, k: string, now: int)
    requires WellKeyed(reg)
    requires k in reg && Expired(reg[k], now)
    ensures !HasActiveSession(reg, reg[k].user, now)
  {
    forall k' | k' in reg && reg[k'].user == reg[k].user
      ensures k' == k
    {
    }
  }

  /** Registering a session built by CreateTemporaryAccess keeps the registry
      well keyed. */
  lemma RegisterKeepsWellKeyed(reg: Registry, c: ServiceAccountConfig)
    requires WellKeyed(reg)
    requires c.name == NameFor(c.user)
    ensures WellKeyed(RegisterSession(reg, c))
  {
  }

  // ---------------------------------------------------------------------------
  // Teardown
  // ---------------------------------------------------------------------------

  /** What a teardown did: the cluster afterwards, the deletions it attempted
      in order, and the error it returned. */
  datatype Teardown = Teardown(plane: ControlPlane, attempted: seq<Resource>, err: Option<string>)

  /** The objects a teardown removes: each deletion that succeeded (both use
      `--ignore-not-found`, so an absent object is no failure). */
  function Deleted(c: ServiceAccountConfig, bindingErr: Option<string>, accountErr: Option<string>): set<Resource> {
    (if bindingErr.None? then {BindingOf(c)} else {}) + (if accountErr.None? then {AccountOf(c)} else {})
  }

  /** `strings.Join(errs, "; ")`. */
  function JoinErrors(errs: seq<string>): string {
    if |errs| == 0 then ""
    else if |errs| == 1 then errs[0]
    else errs[0] + "; " + JoinErrors(errs[1..])
  }

  function BindingFailure(e: string): string {
    "failed to delete clusterrolebinding: " + e
  }

  function AccountFailure(e: string): string {
    "failed to delete serviceaccount: " + e
  }

  /** `CleanupTemporaryAccess`: nothing while a session of the same user is
      live; otherwise delete the binding, then the account, attempting both
      and reporting every failure. `bindingErr` and `accountErr` are the
      errors of the two `kubectl delete` calls. */
  function CleanupTemporaryAccess(reg: Registry, plane: ControlPlane, c: ServiceAccountConfig, now: int,
                                  bindingErr: Option<string>, accountErr: Option<string>): (t: Teardown)
    ensures HasActiveSession(reg, c.user, now) ==> t == Teardown(plane, [], None)
    ensures !HasActiveSession(reg, c.user, now) ==>
              && t.attempted == [BindingOf(c), AccountOf(c)]
              && t.plane == plane - Deleted(c, bindingErr, accountErr)
              && (t.err.None? <==> bindingErr.None? && accountErr.None?)
    ensures t.err.Some? ==> HasPrefix(t.err.value, "cleanup errors: ")
    ensures t.err.Some? && bindingErr.Some? ==> Contains(t.err.value, BindingFailure(bindingErr.value))
    ensures t.err.Some? && accountErr.Some? ==> Contains(t.err.value, AccountFailure(accountErr.value))
  {
    if HasActiveSession(reg, c.user, now) then Teardown(plane, [], None)
    else
      var errs := (if bindingErr.Some? then [BindingFailure(bindingErr.value)] else [])
                + (if accountErr.Some? then [AccountFailure(accountErr.value)] else []);
      var plane' := plane - Deleted(c, bindingErr, accountErr);
      if |errs| == 0 then Teardown(plane', [BindingOf(c), AccountOf(c)], None)
      else
        var msg := "cleanup errors: " + JoinErrors(errs);
        CleanupMessageNames(bindingErr, accountErr, errs, msg);
        Teardown(plane', [BindingOf(c), AccountOf(c)], Some(msg))
  }

  lemma CleanupMessageNames(bindingErr: Option<string>, accountErr: Option<string>, errs: seq<string>, msg: string)
    requires errs == (if bindingErr.Some? then [BindingFailure(bindingErr.value)] else [])
                   + (if accountErr.Some? then [AccountFailure(accountErr.value)] else [])
    requires msg == "cleanup errors: " + JoinErrors(errs)
    ensures HasPrefix(msg, "cleanup errors: ")
    ensures bindingErr.Some? ==> Contains(msg, BindingFailure(bindingErr.value))
    ensures accountErr.Some? ==> Contains(msg, AccountFailure(accountErr.value))
  {
    var head := "cleanup errors: ";
    assert msg[..|head|] == head;
    if bindingErr.Some? && accountErr.Some? {
      var b, a := BindingFailure(bindingErr.value), AccountFailure(accountErr.value);
      assert errs == [b, a];
      assert JoinErrors(errs) == b + "; " + a by {
        assert errs[1..] == [a];
      }
      assert msg == head + b + ("; " + a);
      ContainsFactor(head, b, "; " + a);
      assert msg == (head + b + "; ") + a + "";
      ContainsFactor(head + b + "; ", a, "");
    } else if bindingErr.Some? {
      var b := BindingFailure(bindingErr.value);
      assert msg == head + b + "";
      ContainsFactor(head, b, "");
    } else if accountErr.Some? {
      var a := AccountFailure(accountErr.value);
      assert msg == head + a + "";
      ContainsFactor(head, a, "");
    }
  }

  /** With an empty registry (nothing in the repository ever calls
      RegisterSession) the guard never holds: teardown always deletes. */
  lemma EmptyRegistryAlwaysDeletes(plane: ControlPlane, c: ServiceAccountConfig, now: int,
                                   bindingErr: Option<string>, accountErr: Option<string>)
    ensures CleanupTemporaryAccess(map[], plane, c, now, bindingErr, accountErr).attempted
            == [BindingOf(c), AccountOf(c)]
  {
  }

  // ---------------------------------------------------------------------------
  // The sweep of expired sessions
  // ---------------------------------------------------------------------------

  /** The entries the sweep keeps: exactly the live ones. */
  function Survivors(reg: Registry, now: int): (r: Registry)
    ensures forall k :: k in r <==> k in reg && Live(reg[k], now)
    ensures forall k :: k in r ==> r[k] == reg[k]
  {
    map k | k in reg && Live(reg[k], now) :: reg[k]
  }

  /** Deletion outcomes per registry key: the errors of the binding and of the
      account deletion that a teardown of that session would see. */
  type Outcomes = string -> (Option<string>, Option<string>)

  /** The objects the sweep removes, counting only the sessions among `keys`:
      for every expired session whose user has no live session, each deletion
      that succeeded. */
  function ReclaimedAmong(reg: Registry, now: int, outcome: Outcomes, keys: set<string>): set<Resource> {
    set k, r | k in keys && k in reg && Expired(reg[k], now) && !HasActiveSession(reg, reg[k].user, now)
                 && r in Deleted(reg[k], outcome(k).0, outcome(k).1) :: r
  }

  /** Removing expired entries never changes the answer of the guard: it only
      looks at live entries, and those all stay. */
  lemma GuardIgnoresExpired(reg: Registry, sub: Registry, user: string, now: int)
    requires forall k :: k in sub ==> k in reg && sub[k] == reg[k]
    requires forall k :: k in reg && Live(reg[k], now) ==> k in sub
    ensures HasActiveSession(sub, user, now) <==> HasActiveSession(reg, user, now)
  {
    if HasActiveSession(reg, user, now) {
      var k :| k in reg && reg[k].user == user && Live(reg[k], now);
      assert k in sub;
    }
  }

  /** `k` names an expired session of `reg`. */
  predicate ExpiredKey(reg: Registry, now: int, k: string) {
    k in reg && Expired(reg[k], now)
  }

  /** Every reported key names an expired session. */
  predicate ReportsExpired(reg: Registry, now: int, report: seq<(string, string)>) {
    forall i :: 0 <= i < |report| ==> ExpiredKey(reg, now, report[i].0)
  }

  lemma ReportsAppend(reg: Registry, now: int, report: seq<(string, string)>, k: string, err: string)
    requires ReportsExpired(reg, now, report) && ExpiredKey(reg, now, k)
    ensures ReportsExpired(reg, now, report + [(k, err)])
  {
  }

  /** `cleanupExpiredSessions`, visiting the keys in the order `order` (Go
      gives no order). Every expired entry is torn down and removed whatever
      the teardown returns; live entries are kept untouched. Failed teardowns
      are reported as (key, error) pairs. */
  method CleanupExpiredSessions(reg: Registry, plane: ControlPlane, now: int, order: seq<string>, outcome: Outcomes)
    returns (reg': Registry, plane': ControlPlane, report: seq<(string, string)>)
    requires forall k :: k in reg <==> k in order
    requires forall i, j :: 0 <= i < j < |order| ==> order[i] != order[j]
    ensures reg' == Survivors(reg, now)
    ensures plane' == plane - ReclaimedAmong(reg, now, outcome, reg.Keys)
    ensures ReportsExpired(reg, now, report)
  {
    reg', plane', report := reg, plane, [];
    ghost var visited: set<string> := {};
    var i := 0;
    while i < |order|
      invariant 0 <= i <= |order|
      invariant forall x :: x in visited <==> x in order[..i]
      invariant Progress(reg, plane, now, outcome, visited, reg', plane')
      invariant ReportsExpired(reg, now, report)
    {
      var k := order[i];
      assert k !in visited;
      assert order[..i + 1] == order[..i] + [k];
      SweptEntry(reg, reg', now, visited, k);
      if Expired(reg'[k], now) {
        var (bErr, aErr) := outcome(k);
        var t := CleanupTemporaryAccess(reg', plane', reg'[k], now, bErr, aErr);
        if t.err.Some? {
          ReportsAppend(reg, now, report, k, t.err.value);
          report := report + [(k, t.err.value)];
        }
        ProgressExpired(reg, plane, now, outcome, visited, reg', plane', k, t);
        plane' := t.plane;
        reg' := reg' - {k};
      } else {
        ProgressLive(reg, plane, now, outcome, visited, reg', plane', k);
      }
      visited := visited + {k};
      i := i + 1;
    }
    assert order[..i] == order;
    assert visited == reg.Keys;
    ProgressDone(reg, plane, now, outcome, reg', plane');
  }

  /** The sweep after visiting the keys in `visited`: `sub` is what is left
      of the registry and `rest` of the cluster's objects. */
  ghost predicate Progress(reg: Registry, plane: ControlPlane, now: int, outcome: Outcomes,
                           visited: set<string>, sub: Registry, rest: ControlPlane) {
    Swept(reg, sub, now, visited) && rest == plane - ReclaimedAmong(reg, now, outcome, visited)
  }

  lemma ProgressExpired(reg: Registry, plane: ControlPlane, now: int, outcome: Outcomes,
                        visited: set<string>, sub: Registry, rest: ControlPlane, k: string, t: Teardown)
    requires Progress(reg, plane, now, outcome, visited, sub, rest)
    requires k in reg && k !in visited && Expired(reg[k], now)
    requires t == CleanupTemporaryAccess(sub, rest, reg[k], now, outcome(k).0, outcome(k).1)
    ensures Progress(reg, plane, now, outcome, visited + {k}, sub - {k}, t.plane)
  {
    SweptGuard(reg, sub, now, visited, reg[k].user);
    ReclaimedStep(reg, now, outcome, visited, k);
    SweptRemove(reg, sub, now, visited, k);
  }

  lemma ProgressLive(reg: Registry, plane: ControlPlane, now: int, outcome: Outcomes,
                     visited: set<string>, sub: Registry, rest: ControlPlane, k: string)
    requires Progress(reg, plane, now, outcome, visited, sub, rest)
    requires k in reg && !Expired(reg[k], now)
    ensures Progress(reg, plane, now, outcome, visited + {k}, sub, rest)
  {
    ReclaimedSkip(reg, now, outcome, visited, k);
    SweptKeep(reg, sub, now, visited, k);
  }

  lemma ProgressDone(reg: Registry, plane: ControlPlane, now: int, outcome: Outcomes, sub: Registry, rest: ControlPlane)
    requires Progress(reg, plane, now, outcome, reg.Keys, sub, rest)
    ensures sub == Survivors(reg, now)
    ensures rest == plane - ReclaimedAmong(reg, now, outcome, reg.Keys)
  {
    SweptAll(reg, sub, now);
  }

  /** `sub` is what is left of `reg` once the keys in `visited` were swept:
      the expired entries among them are gone, everything else is unchanged. */
  ghost predicate Swept(reg: Registry, sub: Registry, now: int, visited: set<string>) {
    && (forall k :: k in sub <==> k in reg && !(k in visited && Expired(reg[k], now)))
    && (forall k :: k in sub ==> sub[k] == reg[k])
  }

  lemma SweptEntry(reg: Registry, sub: Registry, now: int, visited: set<string>, k: string)
    requires Swept(reg, sub, now, visited) && k in reg && k !in visited
    ensures k in sub && sub[k] == reg[k]
  {
  }

  lemma SweptGuard(reg: Registry, sub: Registry, now: int, visited: set<string>, user: string)
    requires Swept(reg, sub, now, visited)
    ensures HasActiveSession(sub, user, now) <==> HasActiveSession(reg, user, now)
  {
    GuardIgnoresExpired(reg, sub, user, now);
  }

  lemma SweptRemove(reg: Registry, sub: Registry, now: int, visited: set<string>, k: string)
    requires Swept(reg, sub, now, visited) && k in reg && Expired(reg[k], now)
    ensures Swept(reg, sub - {k}, now, visited + {k})
  {
  }

  lemma SweptKeep(reg: Registry, sub: Registry, now: int, visited: set<string>, k: string)
    requires Swept(reg, sub, now, visited) && k in reg && !Expired(reg[k], now)
    ensures Swept(reg, sub, now, visited + {k})
  {
  }

  lemma SweptAll(reg: Registry, sub: Registry, now: int)
    requires Swept(reg, sub, now, reg.Keys)
    ensures sub == Survivors(reg, now)
  {
  }

  lemma ReclaimedStep(reg: Registry, now: int, outcome: Outcomes, keys: set<string>, k: string)
    requires k in reg && Expired(reg[k], now)
    ensures ReclaimedAmong(reg, now, outcome, keys + {k})
         == ReclaimedAmong(reg, now, outcome, keys)
            + (if HasActiveSession(reg, reg[k].user, now) then {}
               else Deleted(reg[k], outcome(k).0, outcome(k).1))
  {
  }

  lemma ReclaimedSkip(reg: Registry, now: int, outcome: Outcomes, keys: set<string>, k: string)
    requires k in reg && !Expired(reg[k], now)
    ensures ReclaimedAmong(reg, now, outcome, keys + {k}) == ReclaimedAmong(reg, now, outcome, keys)
  {
  }

  // ---------------------------------------------------------------------------
  // Creation
  // ---------------------------------------------------------------------------

  /** The result of a kubectl probe at attempt `i`; attempts past the end of
      the supplied outcomes fail. */
  predicate Probe(polls: seq<bool>, i: nat) {
    i < |polls| && polls[i]
  }

  /** `waitForServiceAccount` from attempt `i` on: whether the account showed
      up, and how many probes were made in all. */
  function AwaitFrom(polls: seq<bool>, i: nat): (r: (bool, nat))
    requires i <= MaxAttempts
    ensures i <= r.1 <= MaxAttempts
    ensures r.0 <==> exists j :: i <= j < MaxAttempts && Probe(polls, j)
    ensures r.0 ==> r.1 > i && Probe(polls, r.1 - 1) && forall j :: i <= j < r.1 - 1 ==> !Probe(polls, j)
    ensures !r.0 ==> r.1 == MaxAttempts
    decreases MaxAttempts - i
  {
    if i == MaxAttempts then (false, i)
    else if Probe(polls, i) then (true, i + 1)
    else AwaitFrom(polls, i + 1)
  }

  /** `waitForServiceAccount`: ready exactly when one of the first ten probes
      succeeds; polling stops at the first success and never exceeds ten. */
  function WaitForServiceAccount(polls: seq<bool>): (r: (bool, nat))
    ensures r.1 <= MaxAttempts
    ensures r.0 <==> exists j :: 0 <= j < MaxAttempts && Probe(polls, j)
    ensures r.0 ==> r.1 >= 1 && Probe(polls, r.1 - 1) && forall j :: 0 <= j < r.1 - 1 ==> !Probe(polls, j)
    ensures !r.0 ==> r.1 == MaxAttempts
  {
    AwaitFrom(polls, 0)
  }

  datatype CreateError =
    | AccessCheckFailed(msg: string)   // "cluster access check failed: ..."
    | UserLookupFailed(msg: string)    // the error of `whoami`
    | ClusterInfoFailed(msg: string)   // the error of getClusterInfo
    | ApplyFailed(msg: string)         // "error creating resources: ..."
    | NotReady                         // "service account not ready: timeout ..."

  /** What the outside world answers during one CreateTemporaryAccess call. */
  datatype CreateEnv = CreateEnv(
    accessCheck: Option<string>,                       // `kubectl auth can-i create serviceaccount`
    whoami: Result<string, string>,                    // getCurrentUser
    clusterInfo: Result<(string, string), string>,     // getClusterInfo: (cluster name, server URL)
    createdAt: string,                                 // time.Now() in RFC 3339
    existsProbeFailed: bool,                           // `kubectl get serviceaccount` failed
    applyErr: Option<string>,                          // `kubectl apply`
    appliedOnErr: set<Resource>,                       // objects a failing apply still created
    polls: seq<bool>)                                  // waitForServiceAccount probes

  datatype Creation = Creation(
    result: Result<ServiceAccountConfig, CreateError>,
    plane: ControlPlane,
    applied: bool,
    probes: nat)

  /** `serviceAccountExists`: the account is seen when the lookup prints its
      name. The lookup's error is discarded, so a failed lookup prints
      nothing and reads as "absent" even when the account exists. */
  predicate AccountExists(c: ServiceAccountConfig, plane: ControlPlane, env: CreateEnv) {
    !env.existsProbeFailed && AccountOf(c) in plane
  }

  /** `CreateTemporaryAccess(duration)` at instant `now`. */
  function CreateTemporaryAccess(plane: ControlPlane, now: int, duration: int, env: CreateEnv): (r: Creation)
    ensures r.result.Ok? ==>
              var c := r.result.value;
              && env.accessCheck.None? && env.whoami.Ok? && env.clusterInfo.Ok?
              && c.user == env.whoami.value && c.name == NameFor(c.user)
              && c.namespace == SystemNamespace && c.expiresAt == now + duration
              && c.clusterName == env.clusterInfo.value.0 && c.serverURL == env.clusterInfo.value.1
              && c.createdAt == env.createdAt
              && AccountOf(c) in r.plane
    ensures r.result.Err? && r.result.error.AccessCheckFailed? <==> env.accessCheck.Some?
    ensures env.accessCheck.Some? ==> r == Creation(Err(AccessCheckFailed(env.accessCheck.value)), plane, false, 0)
    ensures env.accessCheck.None? && env.whoami.Err? ==>
              r == Creation(Err(UserLookupFailed(env.whoami.error)), plane, false, 0)
    ensures env.accessCheck.None? && env.whoami.Ok? && env.clusterInfo.Err? ==>
              r == Creation(Err(ClusterInfoFailed(env.clusterInfo.error)), plane, false, 0)
    ensures plane <= r.plane
    ensures !r.applied ==> r.plane == plane && r.probes == 0
    ensures r.applied ==> r.result.Ok? || r.result.error.ApplyFailed? || r.result.error.NotReady?
    ensures r.probes <= MaxAttempts
  {
    if env.accessCheck.Some? then Creation(Err(AccessCheckFailed(env.accessCheck.value)), plane, false, 0)
    else if env.whoami.Err? then Creation(Err(UserLookupFailed(env.whoami.error)), plane, false, 0)
    else if env.clusterInfo.Err? then Creation(Err(ClusterInfoFailed(env.clusterInfo.error)), plane, false, 0)
    else
      var user := env.whoami.value;
      var (clusterName, serverURL) := env.clusterInfo.value;
      var c := ServiceAccountConfig(NameFor(user), SystemNamespace, serverURL, clusterName,
                                    user, now + duration, env.createdAt);
      if AccountExists(c, plane, env) then Creation(Ok(c), plane, false, 0)
      else if env.applyErr.Some? then
        Creation(Err(ApplyFailed(env.applyErr.value)), plane + (env.appliedOnErr * Manifests(c)), true, 0)
      else
        var plane' := plane + Manifests(c);
        var (ready, probes) := WaitForServiceAccount(env.polls);
        if ready then Creation(Ok(c), plane', true, probes)
        else Creation(Err(NotReady), plane', true, probes)
  }

  /** When the lookup sees the account, nothing is applied and nothing
      polled. When it does not, because the account is absent or because the
      lookup failed, the manifests are applied: a failed apply polls nothing
      and leaves behind whichever of the two objects it did create (`kubectl
      apply` goes on past a rejected object, so the binding may be left
      without the account); a successful apply adds both objects and the
      call succeeds exactly when one of the first ten probes sees the
      account. */
  lemma CreateBranches(plane: ControlPlane, now: int, duration: int, env: CreateEnv)
    requires env.accessCheck.None? && env.whoami.Ok? && env.clusterInfo.Ok?
    ensures var user := env.whoami.value;
            var acct := Resource(ServiceAccount, SystemNamespace, NameFor(user));
            var binding := Resource(ClusterRoleBinding, "", NameFor(user) + "-admin");
            var seen := acct in plane && !env.existsProbeFailed;
            var r := CreateTemporaryAccess(plane, now, duration, env);
            && (seen ==> r.result.Ok? && !r.applied && r.probes == 0 && r.plane == plane)
            && (!seen && env.applyErr.Some? ==>
                  && r.result == Err(ApplyFailed(env.applyErr.value)) && r.applied && r.probes == 0
                  && r.plane == plane + (env.appliedOnErr * {acct, binding}))
            && (!seen && env.applyErr.None? ==>
                  && r.applied && 1 <= r.probes <= MaxAttempts
                  && r.plane == plane + {acct, binding}
                  && (r.result.Ok? <==> exists j :: 0 <= j < MaxAttempts && Probe(env.polls, j)))
  {
  }

  /** Creating access twice for the same user: when the second lookup
      works, it finds the account, so the manifests are not applied again;
      when it fails, they are applied again, and nothing is taken away. */
  lemma CreateIsIdempotent(plane: ControlPlane, now1: int, d1: int, env1: CreateEnv,
                           now2: int, d2: int, env2: CreateEnv)
    requires CreateTemporaryAccess(plane, now1, d1, env1).result.Ok?
    requires env2.accessCheck.None? && env2.clusterInfo.Ok? && env2.whoami == env1.whoami
    ensures var first := CreateTemporaryAccess(plane, now1, d1, env1);
            var second := CreateTemporaryAccess(first.plane, now2, d2, env2);
            && (!env2.existsProbeFailed ==>
                  && second.result.Ok? && !second.applied && second.probes == 0
                  && second.plane == first.plane)
            && (env2.existsProbeFailed ==> second.applied && first.plane <= second.plane)
  {
  }
}
