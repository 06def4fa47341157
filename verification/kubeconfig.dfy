/** The kubeconfig documents of config/serviceaccount.go: the one written for
    a temporary service account, reading the account back from it, and
    replacing the token of its first user. Reading and writing files, and YAML
    parsing and rendering, are left to the caller: the operations take and
    give decoded documents. */
module Kubeconfig {
  import opened Wrappers
  import opened Strs
  import opened Clock
  import opened Grants
  import opened KubeDoc

  /** The zero `time.Time` (January 1 of year 1, UTC) as nanoseconds since
      the Unix epoch. */
  const ZeroTime: int := -62_135_596_800 * Second

  /** The context name `<name>@<cluster>`. */
  function ContextName(c: ServiceAccountConfig): string {
    c.name + "@" + c.clusterName
  }

  /** `GenerateKubeconfig(config, token, caCert)`: the document its text
      template describes, with one cluster, one context and one user. */
  function GenerateKubeconfig(c: ServiceAccountConfig, token: string, caCert: string): (d: Node)
    ensures d.Map? && UniqueKeys(d.entries)
  {
    Map([
      ("apiVersion", Scalar("v1")),
      ("kind", Scalar("Config")),
      ("clusters", List([Map([
        ("name", Scalar(c.clusterName)),
        ("cluster", Map([("certificate-authority-data", Scalar(caCert)), ("server", Scalar(c.serverURL))]))])])),
      ("contexts", List([Map([
        ("name", Scalar(ContextName(c))),
        ("context", Map([("cluster", Scalar(c.clusterName)), ("namespace", Scalar("default")), ("user", Scalar(c.name))]))])])),
      ("current-context", Scalar(ContextName(c))),
      ("users", List([Map([
        ("name", Scalar(c.name)),
        ("user", Map([("token", Scalar(token))]))])]))])
  }

  // ---------------------------------------------------------------------------
  // Reading the account back
  // ---------------------------------------------------------------------------

  datatype ReadError =
    | Unreadable(msg: string)   // the file could not be read or decoded into a mapping
    | NoContexts                // "no contexts found"
    | Panic                     // a type assertion on the first context failed
    | InvalidContextName        // "invalid context name format"

  /** The first context of a document, as `contexts[0]` reads it: None when
      `contexts` is missing, not a sequence or empty. */
  function FirstContext(es: Entries): Option<Node> {
    match Lookup(es, "contexts")
    case Some(List(items)) => if |items| > 0 then Some(items[0]) else None
    case _ => None
  }

  /** `contexts[0].name`, when the document has it as text. */
  function ContextNameOf(d: Node): Option<string> {
    if !d.Map? then None
    else match FirstContext(d.entries)
      case Some(Map(ctx)) =>
        (match Lookup(ctx, "name")
         case Some(Scalar(n)) => Some(n)
         case _ => None)
      case _ => None
  }

  /** `GetServiceAccountFromConfig`, given the decoded file. The returned
      session carries only the name before the context name's single '@' and
      the system namespace; every other field is Go's zero value. */
  function GetServiceAccountFromConfig(file: Result<Node, string>): (r: Result<ServiceAccountConfig, ReadError>)
    ensures file.Err? ==> r == Err(Unreadable(file.error))
    ensures r.Ok? ==>
              && file.Ok? && ContextNameOf(file.value).Some?
              && '@' !in r.value.name
              && HasPrefix(ContextNameOf(file.value).value, r.value.name + "@")
    ensures file.Ok? && ContextNameOf(file.value).Some? ==>
              (r.Ok? <==> Count(ContextNameOf(file.value).value, '@') == 1)
    ensures r.Ok? ==> r.value.namespace == SystemNamespace && r.value.user == "" && r.value.expiresAt == ZeroTime
    ensures r == Err(NoContexts) <==> file.Ok? && file.value.Map? && FirstContext(file.value.entries).None?
  {
    match file
    case Err(e) => Err(Unreadable(e))
    case Ok(doc) =>
      if !doc.Map? then Err(Unreadable("cannot unmarshal into a mapping"))
      else match FirstContext(doc.entries)
        case None => Err(NoContexts)
        case Some(ctx) =>
          if !ctx.Map? then Err(Panic)
          else match Lookup(ctx.entries, "name")
            case Some(Scalar(n)) =>
              var parts := Split(n, '@');
              SplitLength(n, '@');
              if |parts| != 2 then Err(InvalidContextName)
              else
                SplitJoinPair(n, parts);
                Ok(ServiceAccountConfig(parts[0], SystemNamespace, "", "", "", ZeroTime, ""))
            case _ => Err(Panic)
  }

  lemma SplitJoinPair(n: string, parts: seq<string>)
    requires parts == Split(n, '@') && |parts| == 2
    ensures '@' !in parts[0] && HasPrefix(n, parts[0] + "@")
  {
    assert parts[1..] == [parts[1]];
    assert Join(parts, '@') == parts[0] + ['@'] + Join(parts[1..], '@');
    assert n == parts[0] + "@" + parts[1];
    assert n[..|parts[0] + "@"|] == parts[0] + "@";
  }

  /** A context name has the accepted form exactly when it holds one '@'. */
  lemma ContextNameForm(n: string)
    ensures |Split(n, '@')| == 2 <==> Count(n, '@') == 1
  {
    SplitLength(n, '@');
  }

  /** The document written for a session reads back as that session's name
      exactly when neither the name nor the cluster name holds an '@'. */
  lemma GeneratedConfigReadsBack(c: ServiceAccountConfig, token: string, caCert: string)
    ensures var r := GetServiceAccountFromConfig(Ok(GenerateKubeconfig(c, token, caCert)));
            && (r.Ok? <==> '@' !in c.name && '@' !in c.clusterName)
            && (r.Ok? ==> r.value.name == c.name && r.value.namespace == SystemNamespace)
            && (r.Err? ==> r.error == InvalidContextName)
  {
    var n := ContextName(c);
    var d := GenerateKubeconfig(c, token, caCert);
    LookupUnique(d.entries, 3);
    var ctx := d.entries[3].1.items[0].entries;
    assert UniqueKeys(ctx);
    LookupUnique(ctx, 0);
    assert ContextNameOf(d) == Some(n);
    SplitLength(n, '@');
    assert n == c.name + ['@'] + c.clusterName;
    CountAppend(c.name + ['@'], c.clusterName, '@');
    CountAppend(c.name, ['@'], '@');
    CountZero(c.name, '@');
    CountZero(c.clusterName, '@');
    if '@' !in c.name && '@' !in c.clusterName {
      SplitConcat(c.name, c.clusterName, '@');
      NoSepSplit(c.name, '@');
      NoSepSplit(c.clusterName, '@');
    }
  }

  // The file imports gopkg.in/yaml.v3 (config/serviceaccount.go:16), which
  // decodes a mapping whose keys are all text as a `map[string]interface{}`
  // when the target asks for nothing more specific. `contexts[0]` is such a
  // mapping in every kubeconfig, so the assertion to `map[interface{}]interface{}`
  // at :349 panics. `GetServiceAccountFromConfig` above reads the context as
  // intended; the member below is the read as written. Every key in this
  // model is text, so every mapping falls under it.

  /** `GetServiceAccountFromConfig` as written: once a first context exists,
      the type assertion on it fails. */
  function GetServiceAccountFromConfigAsWritten(file: Result<Node, string>): (r: Result<ServiceAccountConfig, ReadError>)
    ensures r.Err?
    ensures file.Ok? && file.value.Map? && FirstContext(file.value.entries).Some? ==> r == Err(Panic)
  {
    match file
    case Err(e) => Err(Unreadable(e))
    case Ok(doc) =>
      if !doc.Map? then Err(Unreadable("cannot unmarshal into a mapping"))
      else match FirstContext(doc.entries)
        case None => Err(NoContexts)
        case Some(_) => Err(Panic)
  }

  /** The document written for a session, whose name and cluster name hold
      no '@', reads back as intended but panics as written. */
  lemma GeneratedConfigPanicsAsWritten(c: ServiceAccountConfig, token: string, caCert: string)
    requires '@' !in c.name && '@' !in c.clusterName
    ensures var file := Ok(GenerateKubeconfig(c, token, caCert));
            && GetServiceAccountFromConfigAsWritten(file) == Err(Panic)
            && GetServiceAccountFromConfig(file).Ok?
            && GetServiceAccountFromConfig(file).value.name == c.name
  {
    GeneratedConfigReadsBack(c, token, caCert);
  }

  // ---------------------------------------------------------------------------
  // Replacing the token of the first user
  // ---------------------------------------------------------------------------

  datatype ModifyError =
    | ParseFailed(msg: string)  // "error parsing kubeconfig: ..."
    | NoUsers                   // "no users found in kubeconfig"
    | AssertionPanic            // `users[0]` or its `user` field is not a mapping

  /** `users[0].user.token`, when the document has it. */
  function UserToken(d: Node): Option<Node> {
    if !d.Map? then None
    else match Lookup(d.entries, "users")
      case Some(List(us)) =>
        if |us| == 0 || !us[0].Map? then None
        else (match Lookup(us[0].entries, "user")
          case Some(Map(auth)) => Lookup(auth, "token")
          case _ => None)
      case _ => None
  }

  /** `ModifyKubeconfigWithToken(originalConfig, token)`, given the decoded
      document: assign `token` to `users[0].user.token`. */
  function ModifyKubeconfigWithToken(parsed: Result<Node, string>, token: string): (r: Result<Node, ModifyError>)
    ensures parsed.Err? ==> r == Err(ParseFailed(parsed.error))
    ensures r == Err(NoUsers) <==>
              parsed.Ok? && parsed.value.Map?
              && !(Lookup(parsed.value.entries, "users").Some? && Lookup(parsed.value.entries, "users").value.List?
                   && |Lookup(parsed.value.entries, "users").value.items| > 0)
    ensures r.Ok? ==> UserToken(r.value) == Some(Scalar(token))
    ensures r.Ok? <==> parsed.Ok? && parsed.value.Map? && HasUserMapping(parsed.value.entries)
  {
    match parsed
    case Err(e) => Err(ParseFailed(e))
    case Ok(doc) =>
      if !doc.Map? then Err(ParseFailed("cannot unmarshal into a mapping"))
      else match Lookup(doc.entries, "users")
        case Some(List(us)) =>
          if |us| == 0 then Err(NoUsers)
          else if !us[0].Map? then Err(AssertionPanic)
          else (match Lookup(us[0].entries, "user")
            case Some(Map(auth)) =>
              var user' := Set(us[0].entries, "user", Map(Set(auth, "token", Scalar(token))));
              var doc' := Map(Set(doc.entries, "users", List(us[0 := Map(user')])));
              assert Lookup(user', "user") == Some(Map(Set(auth, "token", Scalar(token))));
              Ok(doc')
            case _ => Err(AssertionPanic))
        case _ => Err(NoUsers)
  }

  /** The document has a mapping at `users[0].user`. */
  predicate HasUserMapping(es: Entries) {
    match Lookup(es, "users")
    case Some(List(us)) =>
      |us| > 0 && us[0].Map? && Lookup(us[0].entries, "user").Some? && Lookup(us[0].entries, "user").value.Map?
    case _ => false
  }

  /** The two documents differ at most in `users[0].user.token`: every other
      top-level key, every other user, every other field of the first user and
      every other field of its `user` mapping look up the same. */
  ghost predicate OnlyFirstTokenDiffers(d: Node, d': Node) {
    && d.Map? && d'.Map?
    && (forall k :: k != "users" ==> Lookup(d'.entries, k) == Lookup(d.entries, k))
    && match (Lookup(d.entries, "users"), Lookup(d'.entries, "users"))
       case (Some(List(us)), Some(List(us'))) =>
         && |us| == |us'| && |us| > 0
         && (forall i :: 0 < i < |us| ==> us'[i] == us[i])
         && us[0].Map? && us'[0].Map?
         && (forall k :: k != "user" ==> Lookup(us'[0].entries, k) == Lookup(us[0].entries, k))
         && (match (Lookup(us[0].entries, "user"), Lookup(us'[0].entries, "user"))
             case (Some(Map(a)), Some(Map(a'))) => forall k :: k != "token" ==> Lookup(a', k) == Lookup(a, k)
             case _ => false)
       case _ => false
  }

  /** A successful rewrite changes only the first user's token. */
  lemma ModifyChangesOnlyToken(parsed: Result<Node, string>, token: string)
    requires ModifyKubeconfigWithToken(parsed, token).Ok?
    ensures OnlyFirstTokenDiffers(parsed.value, ModifyKubeconfigWithToken(parsed, token).value)
  {
    var doc := parsed.value;
    var us := Lookup(doc.entries, "users").value.items;
    var auth := Lookup(us[0].entries, "user").value.entries;
    var auth' := Set(auth, "token", Scalar(token));
    var user' := Set(us[0].entries, "user", Map(auth'));
    var us' := us[0 := Map(user')];
    var es' := Set(doc.entries, "users", List(us'));
    assert ModifyKubeconfigWithToken(parsed, token).value == Map(es');
    forall k | k != "users" ensures Lookup(es', k) == Lookup(doc.entries, k) {
      SetOthers(doc.entries, "users", List(us'), k);
    }
    forall k | k != "user" ensures Lookup(user', k) == Lookup(us[0].entries, k) {
      SetOthers(us[0].entries, "user", Map(auth'), k);
    }
    forall k | k != "token" ensures Lookup(auth', k) == Lookup(auth, k) {
      SetOthers(auth, "token", Scalar(token), k);
    }
  }

  /** Rewriting the token twice is rewriting it once with the second token. */
  lemma ModifyTwice(parsed: Result<Node, string>, t1: string, t2: string)
    requires ModifyKubeconfigWithToken(parsed, t1).Ok?
    ensures ModifyKubeconfigWithToken(Ok(ModifyKubeconfigWithToken(parsed, t1).value), t2)
            == ModifyKubeconfigWithToken(parsed, t2)
  {
    var doc := parsed.value;
    var us := Lookup(doc.entries, "users").value.items;
    var u := us[0].entries;
    var auth := Lookup(u, "user").value.entries;
    var a1 := Set(auth, "token", Scalar(t1));
    var u1 := Set(u, "user", Map(a1));
    var us1 := us[0 := Map(u1)];
    var es1 := Set(doc.entries, "users", List(us1));
    assert Lookup(es1, "users") == Some(List(us1));
    assert Lookup(u1, "user") == Some(Map(a1));
    SetSet(auth, "token", Scalar(t1), Scalar(t2));
    SetSet(u, "user", Map(a1), Map(Set(auth, "token", Scalar(t2))));
    SetSet(doc.entries, "users", List(us1), List(us[0 := Map(Set(u, "user", Map(Set(auth, "token", Scalar(t2)))))]));
    assert us1[0 := Map(Set(u1, "user", Map(Set(a1, "token", Scalar(t2)))))]
        == us[0 := Map(Set(u, "user", Map(Set(auth, "token", Scalar(t2)))))];
  }

  /** Putting a new token into a generated kubeconfig gives the kubeconfig
      generated with that token. */
  lemma ModifyGenerated(c: ServiceAccountConfig, t1: string, t2: string, caCert: string)
    ensures ModifyKubeconfigWithToken(Ok(GenerateKubeconfig(c, t1, caCert)), t2)
            == Ok(GenerateKubeconfig(c, t2, caCert))
  {
    var d := GenerateKubeconfig(c, t1, caCert);
    var d2 := GenerateKubeconfig(c, t2, caCert);
    LookupUnique(d.entries, 5);
    var u := d.entries[5].1.items[0].entries;
    assert UniqueKeys(u);
    LookupUnique(u, 1);
    var auth := u[1].1.entries;
    SetExisting(auth, 0, Scalar(t2));
    SetExisting(u, 1, Map(auth[0 := ("token", Scalar(t2))]));
    var auth' := Set(auth, "token", Scalar(t2));
    assert auth' == d2.entries[5].1.items[0].entries[1].1.entries;
    var u' := Set(u, "user", Map(auth'));
    assert u' == d2.entries[5].1.items[0].entries;
    var us' := d.entries[5].1.items[0 := Map(u')];
    assert us' == d2.entries[5].1.items;
    SetExisting(d.entries, 5, List(us'));
    assert Set(d.entries, "users", List(us')) == d2.entries;
  }
}
