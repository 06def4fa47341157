/** The string validators of config/config.go: the kubeconfig name check
    and the two normalisations of the S3 endpoint URL. */
module Settings {
  import opened Wrappers
  import opened Strs

  datatype NameError =
    | EmptyName        // "kubeconfig name cannot be empty"
    | MissingExtension // "kubeconfig name must end with .cfg"

  const Extension: string := ".cfg"

  /** `ValidateKubeconfigName(name)`: None when the name is accepted. */
  function ValidateKubeconfigName(name: string): (r: Option<NameError>)
    ensures r == Some(EmptyName) <==> name == ""
    ensures r == Some(MissingExtension) <==> name != "" && !HasSuffix(name, Extension)
    ensures r.None? <==> name != "" && HasSuffix(name, Extension)
    ensures name == Extension ==> r.None?
  {
    if name == "" then Some(EmptyName)
    else if !HasSuffix(name, Extension) then Some(MissingExtension)
    else None
  }

  const Http: string := "http://"
  const Https: string := "https://"

  /** The endpoint names its scheme. */
  predicate HasScheme(s: string) {
    HasPrefix(s, Http) || HasPrefix(s, Https)
  }

  /** Drop one trailing "/" and add "http://" when no scheme is given. */
  function WithScheme(s: string): (r: string)
    ensures HasScheme(r)
    ensures HasScheme(TrimSuffix(s, "/")) ==> r == TrimSuffix(s, "/")
    ensures !HasScheme(TrimSuffix(s, "/")) ==> r == Http + TrimSuffix(s, "/")
  {
    var t := TrimSuffix(s, "/");
    if HasScheme(t) then t
    else
      assert (Http + t)[..|Http|] == Http;
      Http + t
  }

  /** `FormatEndpointURL(endpoint)`. */
  function FormatEndpointURL(endpoint: string): (r: string)
    ensures endpoint == "" ==> r == ""
    ensures endpoint != "" ==> HasScheme(r) && r == WithScheme(TrimSpace(endpoint))
    ensures endpoint != "" && AllSpace(endpoint) ==> r == Http
  {
    if endpoint == "" then ""
    else
      TrimSpaceEmpty(endpoint);
      assert AllSpace(endpoint) ==> TrimSuffix(TrimSpace(endpoint), "/") == "";
      WithScheme(TrimSpace(endpoint))
  }

  /** The endpoint as `CreateS3Session` sets it: unset for an empty one, and
      otherwise without the white-space trim of `FormatEndpointURL`. */
  function S3Endpoint(endpoint: string): (r: Option<string>)
    ensures r.None? <==> endpoint == ""
    ensures r.Some? ==> HasScheme(r.value) && r.value == WithScheme(endpoint)
  {
    if endpoint == "" then None else Some(WithScheme(endpoint))
  }

  /** An endpoint that already has its final form comes back unchanged. */
  lemma FormatKeepsNormalForm(endpoint: string)
    requires endpoint != "" && HasScheme(endpoint) && !HasSuffix(endpoint, "/")
    requires !IsSpace(endpoint[|endpoint| - 1])
    ensures FormatEndpointURL(endpoint) == endpoint
    ensures S3Endpoint(endpoint) == Some(endpoint)
  {
    assert !IsSpace(endpoint[0]) by {
      assert endpoint[0] == endpoint[..|Http|][0];
    }
    TrimSpaceNoop(endpoint);
  }

  /** Only one trailing "/" goes: an endpoint ending in "//" keeps a "/". */
  lemma FormatDropsOneSlash(endpoint: string)
    requires HasSuffix(TrimSpace(endpoint), "//")
    ensures HasSuffix(FormatEndpointURL(endpoint), "/")
  {
    var t := TrimSpace(endpoint);
    assert |t| <= |endpoint|;
    assert FormatEndpointURL(endpoint) == WithScheme(t);
    SchemeKeepsSlash(t);
  }

  lemma SchemeKeepsSlash(t: string)
    requires HasSuffix(t, "//")
    ensures HasSuffix(WithScheme(t), "/")
  {
    var u := TrimSuffix(t, "/");
    assert u == t[..|t| - 1];
    assert u[|u| - 1] == t[|t| - 2] == '/';
    var r := WithScheme(t);
    assert r[|r| - 1] == u[|u| - 1];
  }

  /** The two normalisations agree on endpoints without surrounding white
      space, and disagree on one with a leading blank. */
  lemma EndpointNormalisationsAgree(endpoint: string)
    requires endpoint != "" && !IsSpace(endpoint[0]) && !IsSpace(endpoint[|endpoint| - 1])
    ensures S3Endpoint(endpoint) == Some(FormatEndpointURL(endpoint))
  {
    TrimSpaceNoop(endpoint);
  }

  lemma PrefixHead(s: string, p: string)
    requires |p| > 0
    ensures HasPrefix(s, p) ==> |s| > 0 && s[0] == p[0]
  {
    if HasPrefix(s, p) {
      assert s[..|p|][0] == s[0];
    }
  }

  /** A leading blank is trimmed by one normalisation and kept by the other. */
  lemma LeadingBlankChangesEndpoint(c: char, rest: string)
    requires IsSpace(c) && rest != [] && !IsSpace(rest[0]) && !IsSpace(rest[|rest| - 1])
    requires rest[|rest| - 1] != '/'
    ensures S3Endpoint([c] + rest) != Some(FormatEndpointURL([c] + rest))
  {
    var e := [c] + rest;
    LeadingBlankTrimmed(c, rest);
    assert |FormatEndpointURL(e)| <= |rest| + |Http|;
    LeadingBlankKept(c, rest);
  }

  /** The trim removes exactly the leading blank. */
  lemma LeadingBlankTrimmed(c: char, rest: string)
    requires IsSpace(c) && rest != [] && !IsSpace(rest[0]) && !IsSpace(rest[|rest| - 1])
    ensures TrimSpace([c] + rest) == rest
  {
    var e := [c] + rest;
    assert AllSpace(e[..1]) && e[1..] == rest;
    TrimLeftAt(e, 1);
    assert TrimRight(rest) == rest;
  }

  /** Without the trim the blank stays, so "http://" is put in front of it. */
  lemma LeadingBlankKept(c: char, rest: string)
    requires IsSpace(c) && rest != [] && rest[|rest| - 1] != '/'
    ensures S3Endpoint([c] + rest).Some? && |S3Endpoint([c] + rest).value| == |rest| + 1 + |Http|
  {
    var e := [c] + rest;
    PrefixHead(e, Http);
    PrefixHead(e, Https);
    assert !IsSpace(Http[0]) && Http[0] == Https[0];
    assert !HasSuffix(e, "/") by {
      assert e[|e| - 1] == rest[|rest| - 1];
    }
  }

  lemma EndpointNormalisationsDiffer()
    ensures S3Endpoint(" minio:9000") != Some(FormatEndpointURL(" minio:9000"))
  {
    var rest := "minio:9000";
    assert [' '] + rest == " minio:9000";
    LeadingBlankChangesEndpoint(' ', rest);
  }
}
