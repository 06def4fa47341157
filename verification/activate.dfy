/** `kubconfig activate NAME --session D` (cmd/activate.go): validate the
    session duration, then run the activation steps in order, stopping at
    the first that fails, and report when the session expires.

    The configuration file, the S3 download, the temporary file and the
    final write are outcomes given as inputs; the cluster steps are the
    models of `CreateTemporaryAccess`, `GetTemporaryToken` and
    `ModifyKubeconfigWithToken`. */
module Activation {
  import opened Wrappers
  import opened Clock
  import opened KubeDoc
  import opened Settings
  import opened Grants
  import opened TokenExpiry
  import opened TokenIssue
  import opened Kubeconfig

  const MaxSession: int := 24 * Hour
  const MinSession: int := 10 * Minute

  datatype DurationError =
    | InvalidDuration  // "Valid session duration is required"
    | TooLong          // "Maximum session duration is 24 hours"

  /** The `--session` flag check: `flag` is the result of reading the flag.
      A duration below ten minutes is raised to ten minutes. */
  function ValidateSessionDuration(flag: Result<int, string>): (r: Result<int, DurationError>)
    ensures r == Err(InvalidDuration) <==> flag.Err? || flag.value <= 0
    ensures r == Err(TooLong) <==> flag.Ok? && flag.value > MaxSession
    ensures r.Ok? ==> flag.Ok? && MinSession <= r.value <= MaxSession
    ensures r.Ok? ==> (r.value == flag.value <==> flag.value >= MinSession)
    ensures r.Ok? && flag.value < MinSession ==> r.value == MinSession
  {
    if flag.Err? || flag.value <= 0 then Err(InvalidDuration)
    else if flag.value > MaxSession then Err(TooLong)
    else if flag.value < MinSession then Ok(MinSession)
    else Ok(flag.value)
  }

  /** The steps of an activation, in the order they run. */
  datatype Stage =
    | CheckDuration | LoadConfig | ValidateName | Download | WriteTemp
    | CreateAccess | GetToken | Modify | Save

  const Stages: seq<Stage> :=
    [CheckDuration, LoadConfig, ValidateName, Download, WriteTemp, CreateAccess, GetToken, Modify, Save]

  /** What the outside world answers during one activation. */
  datatype World = World(
    flag: Result<int, string>,                  // reading `--session`
    loadConfig: Option<string>,                 // config.LoadConfig's error
    download: Result<Result<Node, string>, string>, // the fetched kubeconfig as decoded, or the fetch error
    writeTemp: Option<string>,                  // writing the temporary kubeconfig
    plane: ControlPlane,                        // the cluster's resources
    now: int,                                   // the instant CreateTemporaryAccess runs
    create: CreateEnv,                          // its answers from the cluster
    later: int,                                 // the instant GetTemporaryToken runs
    polls: seq<bool>,                           // its readiness probes
    tokenOutput: Result<string, (string, string)>, // `kubectl create token`
    readClaims: ClaimsReader,                   // JSON decoding of the token's claims
    save: Option<string>)                       // writing the session kubeconfig

  /** The steps that ran, the session after the token step (when it ran),
      and either the reported expiry or the step that failed. */
  datatype Activation = Activation(ran: seq<Stage>, session: Option<ServiceAccountConfig>, result: Result<int, Stage>)

  function Stop(k: nat, session: Option<ServiceAccountConfig>): (a: Activation)
    requires k < |Stages|
    ensures a.ran == Stages[..k + 1] && a.result == Err(Stages[k])
    ensures |a.ran| == k + 1 && a.ran[k] == Stages[k]
  {
    Activation(Stages[..k + 1], session, Err(Stages[k]))
  }

  /** The cluster steps, once the local ones succeeded with duration `d`:
      create the temporary access, get its token, put the token into the
      downloaded kubeconfig and save it. */
  function ClusterSteps(d: int, file: Result<Node, string>, w: World): (a: Activation)
    ensures 6 <= |a.ran| <= |Stages| && a.ran == Stages[..|a.ran|]
    ensures a.result.Ok? <==> a.ran == Stages && a.result != Err(Save)
    ensures a.result.Err? ==> a.ran[|a.ran| - 1] == a.result.error
    ensures a.result.Ok? ==> a.session.Some? && a.result.value == a.session.value.expiresAt
    ensures a.result.Ok? ==> a.result.value >= w.now + d && a.result.value >= w.later + MinSession
    ensures a.result.Ok? && w.later == w.now && d >= MinSession ==> a.result.value == w.now + d
    ensures a.result.Ok? ==> a.result.value == FlooredExpiry(w.now + d, w.later)
    ensures a.result.Ok? <==> ClusterStepsSucceed(d, file, w)
  {
    var created := CreateTemporaryAccess(w.plane, w.now, d, w.create);
    if created.result.Err? then Stop(5, None)
    else
      var c := created.result.value;
      var issue := GetTemporaryToken(c, w.later, w.polls, w.tokenOutput, w.readClaims);
      SessionExpiry(c, w.now, w.later, d);
      if issue.result.Err? then Stop(6, Some(issue.config))
      else
        assert issue.config == Clamp(c, w.later).1;
        SaveSteps(issue.config, issue.result.value.0, file, w.save)
  }

  /** The session expiry `expiresAt` once the token step, run at `later`,
      has applied its ten-minute floor. */
  function FlooredExpiry(expiresAt: int, later: int): int {
    if TruncSeconds(expiresAt - later) < MinSeconds then later + 10 * Minute else expiresAt
  }

  /** Every cluster step answers success: the access is created, its token
      issued, the token put into the downloaded kubeconfig, and the result
      saved. */
  predicate ClusterStepsSucceed(d: int, file: Result<Node, string>, w: World) {
    var created := CreateTemporaryAccess(w.plane, w.now, d, w.create);
    && created.result.Ok?
    && var issue := GetTemporaryToken(created.result.value, w.later, w.polls, w.tokenOutput, w.readClaims);
       && issue.result.Ok?
       && ModifyKubeconfigWithToken(file, issue.result.value.0).Ok?
       && w.save.None?
  }

  /** Every step of an activation answers success, in the order they run. */
  predicate StepsSucceed(name: string, w: World) {
    && ValidateSessionDuration(w.flag).Ok?
    && w.loadConfig.None?
    && ValidateKubeconfigName(name).None?
    && w.download.Ok?
    && w.writeTemp.None?
    && ClusterStepsSucceed(ValidateSessionDuration(w.flag).value, w.download.value, w)
  }

  /** The last two steps, once the token is issued for `session`. */
  function SaveSteps(session: ServiceAccountConfig, token: string, file: Result<Node, string>,
                     save: Option<string>): (a: Activation)
    ensures 8 <= |a.ran| <= |Stages| && a.ran == Stages[..|a.ran|]
    ensures a.result.Ok? <==> a.ran == Stages && a.result != Err(Save)
    ensures a.result.Err? ==> a.ran[|a.ran| - 1] == a.result.error
    ensures a.session == Some(session)
    ensures a.result.Ok? <==> ModifyKubeconfigWithToken(file, token).Ok? && save.None?
    ensures a.result.Ok? ==> a.result.value == session.expiresAt
  {
    if ModifyKubeconfigWithToken(file, token).Err? then Stop(7, Some(session))
    else if save.Some? then Stop(8, Some(session))
    else Activation(Stages, Some(session), Ok(session.expiresAt))
  }

  /** The expiry after the token step's floor, for a session created at
      `now` for `d` and whose token is requested at `later`. */
  lemma SessionExpiry(c: ServiceAccountConfig, now: int, later: int, d: int)
    requires c.expiresAt == now + d
    ensures Clamp(c, later).1.expiresAt >= now + d
    ensures Clamp(c, later).1.expiresAt >= later + MinSession
    ensures later == now && d >= MinSession ==> Clamp(c, later).1.expiresAt == now + d
    ensures Clamp(c, later).1.expiresAt == FlooredExpiry(now + d, later)
  {
    ClampNeverShortens(c, later);
    if later == now && d >= MinSession {
      assert TruncSeconds(d) >= MinSeconds;
    }
  }

  /** `ActivateCmd.Run` for kubeconfig `name`. */
  function Activate(name: string, w: World): (a: Activation)
    ensures 0 < |a.ran| <= |Stages| && a.ran == Stages[..|a.ran|]
    ensures a.result.Ok? <==> a.ran == Stages && a.result != Err(Save)
    ensures a.result.Err? ==> a.ran[|a.ran| - 1] == a.result.error
    ensures a.result == Err(CheckDuration) <==> ValidateSessionDuration(w.flag).Err?
    ensures a.result == Err(ValidateName) <==>
              ValidateSessionDuration(w.flag).Ok? && w.loadConfig.None? && ValidateKubeconfigName(name).Some?
    ensures a.result.Ok? ==> a.session.Some? && a.result.value == a.session.value.expiresAt
    ensures a.result.Ok? ==>
              && a.result.value >= w.now + ValidateSessionDuration(w.flag).value
              && a.result.value >= w.later + MinSession
    ensures a.result.Ok? && w.later == w.now ==> a.result.value == w.now + ValidateSessionDuration(w.flag).value
    ensures a.result.Ok? ==> a.result.value == FlooredExpiry(w.now + ValidateSessionDuration(w.flag).value, w.later)
    ensures a.result.Ok? <==> StepsSucceed(name, w)
  {
    if ValidateSessionDuration(w.flag).Err? then Stop(0, None)
    else LocalSteps(ValidateSessionDuration(w.flag).value, name, w)
  }

  /** The steps after the duration check, with the duration `d` it gave. */
  function LocalSteps(d: int, name: string, w: World): (a: Activation)
    ensures 1 < |a.ran| <= |Stages| && a.ran == Stages[..|a.ran|]
    ensures a.result.Ok? <==> a.ran == Stages && a.result != Err(Save)
    ensures a.result.Err? ==> a.ran[|a.ran| - 1] == a.result.error
    ensures a.result == Err(ValidateName) <==> w.loadConfig.None? && ValidateKubeconfigName(name).Some?
    ensures a.result.Ok? ==> a.session.Some? && a.result.value == a.session.value.expiresAt
    ensures a.result.Ok? ==> a.result.value >= w.now + d && a.result.value >= w.later + MinSession
    ensures a.result.Ok? && w.later == w.now && d >= MinSession ==> a.result.value == w.now + d
    ensures a.result.Ok? ==> a.result.value == FlooredExpiry(w.now + d, w.later)
    ensures a.result.Ok? <==>
              && w.loadConfig.None? && ValidateKubeconfigName(name).None? && w.download.Ok? && w.writeTemp.None?
              && ClusterStepsSucceed(d, w.download.value, w)
  {
    if w.loadConfig.Some? then Stop(1, None)
    else if ValidateKubeconfigName(name).Some? then Stop(2, None)
    else if w.download.Err? then Stop(3, None)
    else if w.writeTemp.Some? then Stop(4, None)
    else
      var a := ClusterSteps(d, w.download.value, w);
      assert a.result != Err(ValidateName) by {
        assert a.result.Err? ==> a.result.error == Stages[|a.ran| - 1];
      }
      a
  }

  /** A step runs only when every step before it succeeded: a failed step
      is the last to run, and any step after it never runs. */
  lemma FailFast(name: string, w: World, k: nat)
    requires k < |Stages| && Activate(name, w).result == Err(Stages[k])
    ensures Activate(name, w).ran == Stages[..k + 1]
    ensures forall m :: k < m < |Stages| ==> Stages[m] !in Activate(name, w).ran
  {
    var a := Activate(name, w);
    assert a.ran[|a.ran| - 1] == Stages[k];
    assert |a.ran| == k + 1 by {
      var n := |a.ran|;
      assert a.ran[n - 1] == Stages[n - 1];
      StagesDistinct(n - 1, k);
    }
    forall m | k < m < |Stages| ensures Stages[m] !in a.ran {
      if Stages[m] in a.ran {
        var i :| 0 <= i < |a.ran| && a.ran[i] == Stages[m];
        assert a.ran[i] == Stages[i];
        StagesDistinct(i, m);
      }
    }
  }

  /** No step is listed twice. */
  lemma StagesDistinct(i: nat, j: nat)
    requires i < |Stages| && j < |Stages| && Stages[i] == Stages[j]
    ensures i == j
  {
  }
}
