/** Cross-checking the expiry a bearer token carries against the expiry that
    was asked for (`verifyTokenExpiry`, config/serviceaccount.go). The token is
    a JWS Compact Serialization (section 7.1 of RFC 7515): three segments
    joined by '.', the middle one the base64url-encoded claims set. The `exp`
    claim (section 4.1.4 of RFC 7519) is whole seconds since the epoch. */
module TokenExpiry {
  import opened Wrappers
  import opened Strs
  import opened Clock
  import Base64Url

  /** The allowed disagreement between the requested and the embedded expiry. */
  const Tolerance: int := Minute

  /** Unmarshalling the claims JSON into a struct with one `exp int64` field:
      None when the payload is not such a JSON document, Some(None) when it is
      an object without `exp`, Some(Some(e)) when `exp` is e. JSON itself is not
      modelled; the reader is a parameter. */
  type ClaimsReader = seq<Base64Url.byte> -> Option<Option<int>>

  datatype ExpiryError =
    | InvalidFormat                              // "invalid token format"
    | DecodeFailed                               // "error decoding token: ..."
    | ClaimsUnparsable                           // "error parsing token claims: ..."
    | ExpiryMismatch(expected: int, got: int)    // "token expiry mismatch: expected ..., got ..."

  /** The `exp` value a decoded payload yields; a missing claim leaves the
      struct field at its zero value. */
  function ExpClaim(claims: Option<int>): int {
    claims.GetOr(0)
  }

  /** Whether an embedded expiry lies within the tolerance of the expected
      one; both are nanosecond instants. */
  predicate WithinTolerance(tokenExpiry: int, expected: int) {
    Abs(tokenExpiry - expected) <= Tolerance
  }

  /** `verifyTokenExpiry(token, expectedExpiry)`; on success the result is the
      instant the token expires. */
  function VerifyTokenExpiry(token: string, expected: int, readClaims: ClaimsReader): (r: Result<int, ExpiryError>)
    ensures |Split(token, '.')| != 3 ==> r == Err(InvalidFormat)
    ensures r.Ok? ==> |Split(token, '.')| == 3 && Base64Url.Decode(Split(token, '.')[1]).Some?
    ensures r.Ok? ==> WithinTolerance(r.value, expected) && r.value % Second == 0
    ensures r.Err? && r.error.ExpiryMismatch? ==>
              r.error.expected == expected && !WithinTolerance(r.error.got, expected)
    ensures |Split(token, '.')| == 3 ==>
              var payload := Base64Url.Decode(Split(token, '.')[1]);
              && (payload.None? <==> r == Err(DecodeFailed))
              && (payload.Some? ==> (readClaims(payload.value).None? <==> r == Err(ClaimsUnparsable)))
              && (payload.Some? && readClaims(payload.value).Some? ==>
                    var exp := FromUnix(ExpClaim(readClaims(payload.value).value));
                    && (r.Ok? <==> WithinTolerance(exp, expected))
                    && (r.Ok? ==> r.value == exp))
  {
    var parts := Split(token, '.');
    if |parts| != 3 then Err(InvalidFormat)
    else match Base64Url.Decode(parts[1])
      case None => Err(DecodeFailed)
      case Some(payload) =>
        match readClaims(payload)
        case None => Err(ClaimsUnparsable)
        case Some(claims) =>
          var tokenExpiry := FromUnix(ExpClaim(claims));
          if !WithinTolerance(tokenExpiry, expected) then Err(ExpiryMismatch(expected, tokenExpiry))
          else Ok(tokenExpiry)
  }

  /** A token assembled from a header, a base64url payload and a signature,
      none of which contains '.', is judged only by the `exp` its payload
      carries: accepted exactly when exp seconds lie within one minute of the
      expected instant, otherwise rejected with both instants named. */
  lemma MintedTokenVerdict(header: string, payload: seq<Base64Url.byte>, signature: string,
                           expected: int, readClaims: ClaimsReader)
    requires '.' !in header && '.' !in signature
    requires readClaims(payload).Some?
    ensures var exp := ExpClaim(readClaims(payload).value);
            var r := VerifyTokenExpiry(header + "." + Base64Url.Encode(payload) + "." + signature,
                                       expected, readClaims);
            && (r.Ok? <==> Abs(exp * Second - expected) <= 60 * Second)
            && (r.Ok? ==> r.value == exp * Second)
            && (r.Err? ==> r.error == ExpiryMismatch(expected, exp * Second))
  {
    var body := Base64Url.Encode(payload);
    var token := header + "." + body + "." + signature;
    assert '.' !in body by {
      Base64Url.EncodeAlphabet(payload);
    }
    var parts := [header, body, signature];
    assert Join([body, signature], '.') == body + "." + signature by {
      assert [body, signature][1..] == [signature];
    }
    assert Join(parts, '.') == token by {
      assert parts[1..] == [body, signature];
    }
    SplitJoin(parts, '.');
    Base64Url.DecodeEncode(payload);
  }

  /** The tolerance is inclusive: exactly one minute of drift either way is
      accepted, one second more is not. */
  lemma ToleranceBoundary(exp: int)
    ensures WithinTolerance(exp * Second, exp * Second + 60 * Second)
    ensures WithinTolerance(exp * Second, exp * Second - 60 * Second)
    ensures !WithinTolerance(exp * Second, exp * Second + 61 * Second)
    ensures !WithinTolerance(exp * Second, exp * Second - 61 * Second)
  {
  }

  /** A decodable claims set without `exp` is read as expiring at the epoch,
      so it passes only when the expected instant is within a minute of it. */
  lemma MissingExpReadsAsEpoch(header: string, payload: seq<Base64Url.byte>, signature: string,
                               expected: int, readClaims: ClaimsReader)
    requires '.' !in header && '.' !in signature
    requires readClaims(payload) == Some(None)
    ensures var r := VerifyTokenExpiry(header + "." + Base64Url.Encode(payload) + "." + signature,
                                       expected, readClaims);
            r.Ok? <==> Abs(expected) <= 60 * Second
  {
    MintedTokenVerdict(header, payload, signature, expected, readClaims);
  }
}
