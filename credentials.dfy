/**
 * The stored Claude OAuth credentials: saving a pasted JSON document after
 * checking it carries an access token, reading the token back, and deciding
 * whether the token is still usable at a given time.
 */
module Credentials {
  import opened Wrappers
  import opened Json

  const MissingTokenMessage := "Missing claudeAiOauth.accessToken"
  /** The TypeError that reading a property of a parsed `null` raises. */
  const NullReadMessage := "Cannot read properties of null (reading 'claudeAiOauth')"
  /** Tokens that expire within this many milliseconds already count as expired. */
  const ExpiryBufferMs := 300000

  datatype SaveResult = SaveResult(success: bool, error: Option<string>)

  /** `v?.k` on a possibly missing value: missing and null give undefined. */
  function Chain(v: Option<Json>, k: string): Option<Json> {
    if v.Some? && v.value != JNull then Get(v.value, k) else None
  }

  /** `creds?.claudeAiOauth?.accessToken`. */
  function TokenOf(creds: Option<Json>): Option<Json> {
    Chain(Chain(creds, "claudeAiOauth"), "accessToken")
  }

  /** `creds.claudeAiOauth.expiresAt`. */
  function ExpiresAtOf(creds: Option<Json>): Option<Json> {
    Chain(Chain(creds, "claudeAiOauth"), "expiresAt")
  }

  /** `?? null`: a null token reads as no token. */
  function NonNull(v: Option<Json>): (r: Option<Json>)
    ensures r.Some? <==> v.Some? && v.value != JNull
    ensures r.Some? ==> r == v
  {
    if v.Some? && v.value != JNull then v else None
  }

  /**
   * `expiresAt && expiresAt < now + 300000`: only a non-zero number can
   * expire the token (other values are not compared, see the README).
   */
  function ExpiresSoon(expiresAt: Option<Json>, now: int): (b: bool)
    ensures b ==> expiresAt.Some? && expiresAt.value.JNumber? && expiresAt.value.n != 0.0
    ensures expiresAt.Some? && expiresAt.value.JNumber? && expiresAt.value.n != 0.0 ==>
      (b <==> expiresAt.value.n < (now + ExpiryBufferMs) as real)
  {
    TruthyOpt(expiresAt) && expiresAt.value.JNumber? && expiresAt.value.n < (now + ExpiryBufferMs) as real
  }

  /** The credentials file; None when it is missing or does not parse as JSON. */
  class CredentialStore {
    var file: Option<Json>

    constructor (file: Option<Json>)
      ensures this.file == file
    {
      this.file := file;
    }

    /** Parses the pasted text and stores it only when it carries a truthy access token. */
    method SaveCredentials(json: string, parse: string -> Result<Json, string>) returns (r: SaveResult)
      modifies this
      ensures r.success <==> parse(json).Success? && parse(json).value != JNull && TruthyOpt(TokenOf(Some(parse(json).value)))
      ensures r.success ==> r.error.None? && file == Some(parse(json).value)
      ensures !r.success ==> file == old(file)
      ensures parse(json).Failure? ==> r.error == Some(parse(json).error)
      ensures parse(json) == Success(JNull) ==> r.error == Some(NullReadMessage)
      ensures parse(json).Success? && parse(json).value != JNull && !TruthyOpt(TokenOf(Some(parse(json).value))) ==>
        r.error == Some(MissingTokenMessage)
    {
      match parse(json)
      case Failure(e) =>
        r := SaveResult(false, Some(e));
      case Success(parsed) =>
        if parsed == JNull {
          r := SaveResult(false, Some(NullReadMessage));
        } else if !TruthyOpt(TokenOf(Some(parsed))) {
          r := SaveResult(false, Some(MissingTokenMessage));
        } else {
          file := Some(parsed);
          r := SaveResult(true, None);
        }
    }

    /** The stored access token, or None. */
    function GetAccessToken(): (t: Option<Json>)
      reads this
      ensures t.Some? <==> TokenOf(file).Some? && TokenOf(file).value != JNull
      ensures t.Some? ==> t == TokenOf(file)
    {
      NonNull(TokenOf(file))
    }

    /** A truthy token that does not expire within the buffer. */
    function IsAuthenticated(now: int): (b: bool)
      reads this
      ensures b <==> TruthyOpt(TokenOf(file)) && !ExpiresSoon(ExpiresAtOf(file), now)
      ensures b ==> GetAccessToken().Some? && Truthy(GetAccessToken().value)
    {
      if !TruthyOpt(TokenOf(file)) then false
      else if ExpiresSoon(ExpiresAtOf(file), now) then false
      else true
    }

    /** A token without an expiry time (absent or 0) stays valid at every time. */
    lemma NoExpiryAlwaysValid(now: int)
      requires TruthyOpt(TokenOf(file))
      requires ExpiresAtOf(file).None? || ExpiresAtOf(file) == Some(JNumber(0.0))
      ensures IsAuthenticated(now)
    {
    }

    /** A token valid at some time was valid at every earlier time. */
    lemma AuthenticatedEarlier(earlier: int, later: int)
      requires earlier <= later && IsAuthenticated(later)
      ensures IsAuthenticated(earlier)
    {
    }

    /** Right after a successful save, the saved token is what is read back. */
    lemma SavedTokenReadBack(parsed: Json)
      requires file == Some(parsed) && parsed != JNull && TruthyOpt(TokenOf(Some(parsed)))
      ensures GetAccessToken() == TokenOf(Some(parsed)) && Truthy(GetAccessToken().value)
    {
    }
  }
}
