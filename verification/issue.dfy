/** Issuing the bearer token for a temporary service account
    (`GetTemporaryToken`, config/serviceaccount.go): wait for the account,
    derive the token lifetime from the remaining time with a ten-minute floor,
    ask the cluster for the token, check the expiry it carries, and describe
    the lifetime to the user. */
module TokenIssue {
  import opened Wrappers
  import opened Strs
  import opened Clock
  import opened Grants
  import opened TokenExpiry

  /** The shortest lifetime, in seconds, a token is requested for. */
  const MinSeconds: int := 600

  /** `pluralize(n)`. */
  function Pluralize(n: int): (s: string)
    ensures s == "" <==> n == 1
    ensures s != "" ==> s == "s"
  {
    if n == 1 then "" else "s"
  }

  /** The lifetime in the largest unit the message uses. */
  datatype Span =
    | HoursMinutes(hours: int, minutes: int)
    | Minutes(minutes: int)
    | Seconds(seconds: int)

  /** How `GetTemporaryToken` splits a lifetime of `ds` seconds for its
      message: whole hours and the leftover whole minutes from one hour up,
      whole minutes from one minute up, seconds below that. */
  function SpanOf(ds: int): (sp: Span)
    ensures sp.HoursMinutes? <==> ds >= 3600
    ensures sp.HoursMinutes? ==>
              sp.hours >= 1 && 0 <= sp.minutes < 60
              && (sp.hours * 60 + sp.minutes) * 60 <= ds < (sp.hours * 60 + sp.minutes + 1) * 60
    ensures sp.Minutes? ==> 1 <= sp.minutes < 60 && sp.minutes * 60 <= ds < (sp.minutes + 1) * 60
    ensures sp.Seconds? ==> sp.seconds == ds && ds < 60
  {
    if ds >= 3600 then HoursMinutes(ds / 3600, (ds / 60) % 60)
    else if ds >= 60 then Minutes(ds / 60)
    else Seconds(ds)
  }

  /** The text of a span: "2 hours 5 minutes", "1 hour", "10 minutes", ... */
  /** The number the message starts with. */
  function Lead(sp: Span): int {
    match sp
    case HoursMinutes(h, _) => h
    case Minutes(m) => m
    case Seconds(n) => n
  }

  /** The message after its leading number and blank. */
  function Units(sp: Span): string {
    match sp
    case HoursMinutes(h, m) =>
      if m > 0 then "hour" + Pluralize(h) + " " + Itoa(m) + " minute" + Pluralize(m)
      else "hour" + Pluralize(h)
    case Minutes(m) => "minute" + Pluralize(m)
    case Seconds(n) => "second" + Pluralize(n)
  }

  function Render(sp: Span): string {
    Itoa(Lead(sp)) + " " + Units(sp)
  }

  /** The "expires in ..." part of the success message. */
  function ExpiryMessage(ds: int): string {
    Render(SpanOf(ds))
  }

  /** The number in front of the first unit reads back as the whole hours
      (or minutes, or seconds) of the lifetime. */
  lemma ExpiryMessageLeadingNumber(ds: int)
    ensures var sp := SpanOf(ds);
            var lead := if sp.HoursMinutes? then sp.hours else if sp.Minutes? then sp.minutes else sp.seconds;
            var msg := ExpiryMessage(ds);
            && HasPrefix(msg, Itoa(lead) + " ")
            && Atoi(msg[..|Itoa(lead)|]) == Some(lead)
  {
    var sp := SpanOf(ds);
    LeadingNumber(Lead(sp), Units(sp));
  }

  lemma LeadingNumber(n: int, rest: string)
    ensures HasPrefix(Itoa(n) + " " + rest, Itoa(n) + " ")
    ensures Atoi((Itoa(n) + " " + rest)[..|Itoa(n)|]) == Some(n)
  {
    var msg := Itoa(n) + " " + rest;
    assert msg[..|Itoa(n)|] == Itoa(n);
    assert msg[..|Itoa(n) + " "|] == Itoa(n) + " ";
    ItoaRoundTrip(n);
  }

  datatype IssueError =
    | AccountNotReady                            // "service account not ready: ..."
    | CreateFailed(err: string, stderr: string)  // "error creating token: ...\nOutput: ..."
    | VerificationFailed(cause: ExpiryError)     // "token verification failed: ..."

  /** What a call did: the session after it (the call updates the expiry in
      place, even when it later fails), the lifetime in seconds it asked the
      cluster for (None when it never asked), and the token with the message
      describing its lifetime. */
  datatype Issue = Issue(
    config: ServiceAccountConfig,
    requested: Option<int>,
    result: Result<(string, string), IssueError>)

  /** The remaining lifetime in whole seconds, and the session with the
      ten-minute floor applied. */
  function Clamp(c: ServiceAccountConfig, now: int): (r: (int, ServiceAccountConfig))
    ensures r.0 >= MinSeconds
    ensures TruncSeconds(c.expiresAt - now) >= MinSeconds ==> r == (TruncSeconds(c.expiresAt - now), c)
    ensures TruncSeconds(c.expiresAt - now) < MinSeconds ==>
              r == (MinSeconds, c.(expiresAt := now + 10 * Minute))
  {
    var ds := TruncSeconds(c.expiresAt - now);
    if ds < MinSeconds then (MinSeconds, c.(expiresAt := now + 10 * Minute))
    else (ds, c)
  }

  /** The floor never shortens a session, and afterwards at least ten
      minutes remain; the requested lifetime is the remaining time within a
      second. */
  lemma ClampNeverShortens(c: ServiceAccountConfig, now: int)
    ensures var (ds, c') := Clamp(c, now);
            && c'.expiresAt >= c.expiresAt
            && c'.expiresAt >= now + 10 * Minute
            && ds * Second <= c'.expiresAt - now < (ds + 1) * Second
            && c' == c.(expiresAt := c'.expiresAt)
  {
  }

  /** `GetTemporaryToken(config)` at instant `now`. `polls` are the probes of
      the readiness wait, `tokenOutput` the standard output of
      `kubectl create token` or its error with the standard error text. */
  function GetTemporaryToken(c: ServiceAccountConfig, now: int, polls: seq<bool>,
                             tokenOutput: Result<string, (string, string)>,
                             readClaims: ClaimsReader): (r: Issue)
    ensures !WaitForServiceAccount(polls).0 ==> r == Issue(c, None, Err(AccountNotReady))
    ensures WaitForServiceAccount(polls).0 ==>
              && r.requested.Some? && r.requested.value >= MinSeconds
              && (r.requested.value, r.config) == Clamp(c, now)
    ensures tokenOutput.Err? && r.requested.Some? ==>
              r.result == Err(CreateFailed(tokenOutput.error.0, tokenOutput.error.1))
    ensures r.result.Ok? ==>
              && tokenOutput.Ok?
              && r.result.value.0 == TrimSpace(tokenOutput.value)
              && VerifyTokenExpiry(r.result.value.0, r.config.expiresAt, readClaims).Ok?
              && r.result.value.1 == ExpiryMessage(r.requested.value)
    ensures WaitForServiceAccount(polls).0 && tokenOutput.Ok?
            && VerifyTokenExpiry(TrimSpace(tokenOutput.value), Clamp(c, now).1.expiresAt, readClaims).Ok? ==>
              r.result == Ok((TrimSpace(tokenOutput.value), ExpiryMessage(Clamp(c, now).0)))
    ensures r.result.Err? && r.result.error.VerificationFailed? ==>
              tokenOutput.Ok?
              && VerifyTokenExpiry(TrimSpace(tokenOutput.value), r.config.expiresAt, readClaims)
                 == Err(r.result.error.cause)
  {
    if !WaitForServiceAccount(polls).0 then Issue(c, None, Err(AccountNotReady))
    else
      var (ds, c') := Clamp(c, now);
      match tokenOutput
      case Err((e, stderr)) => Issue(c', Some(ds), Err(CreateFailed(e, stderr)))
      case Ok(out) =>
        var token := TrimSpace(out);
        match VerifyTokenExpiry(token, c'.expiresAt, readClaims)
        case Err(cause) => Issue(c', Some(ds), Err(VerificationFailed(cause)))
        case Ok(_) => Issue(c', Some(ds), Ok((token, ExpiryMessage(ds))))
  }

  /** The lifetime message never falls back to seconds: the floor keeps it at
      ten minutes or more. */
  lemma MessageNeverInSeconds(c: ServiceAccountConfig, now: int)
    ensures !SpanOf(Clamp(c, now).0).Seconds?
    ensures SpanOf(Clamp(c, now).0).Minutes? ==> SpanOf(Clamp(c, now).0).minutes >= 10
  {
  }

  /** A cluster that honours the requested lifetime, counting from the
      current second, issues a token whose `exp` lies within the verifier's
      one-minute tolerance of the (possibly raised) session expiry: the floor
      and the truncation to whole seconds never cause a mismatch. */
  lemma HonouredLifetimePasses(c: ServiceAccountConfig, now: int)
    ensures var (ds, c') := Clamp(c, now);
            WithinTolerance(FromUnix(UnixSeconds(now) + ds), c'.expiresAt)
  {
    var (ds, c') := Clamp(c, now);
    var u := UnixSeconds(now);
    assert u * Second <= now < (u + 1) * Second;
    assert FromUnix(u + ds) == u * Second + ds * Second;
    ClampNeverShortens(c, now);
  }
}
