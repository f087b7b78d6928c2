/** The Twitter credential check and the lazily built, cached API client.
    The five credentials are read once from the configuration; building the
    client is a foreign call whose outcome is a parameter. */
module TwitterClient {
  import opened Text

  datatype Credentials = Credentials(
    apiKey: Option<string>,
    apiSecret: Option<string>,
    accessToken: Option<string>,
    accessTokenSecret: Option<string>,
    bearerToken: Option<string>)

  const CredentialNames: seq<string> :=
    ["api_key", "api_secret", "access_token", "access_token_secret", "bearer_token"]

  /** The credential values in the order of `CredentialNames`. */
  function Values(c: Credentials): (r: seq<Option<string>>)
    ensures |r| == |CredentialNames|
  {
    [c.apiKey, c.apiSecret, c.accessToken, c.accessTokenSecret, c.bearerToken]
  }

  /** A value is missing when it is unset, empty, or still the `YOUR_...` placeholder. */
  predicate IsMissing(v: Option<string>) {
    v.None? || v.value == "" || StartsWith(v.value, "YOUR_")
  }

  /** The names whose values are missing, in order. */
  function MissingNames(names: seq<string>, values: seq<Option<string>>): (r: seq<string>)
    requires |names| == |values|
    ensures |r| <= |names|
    ensures forall n :: n in r ==> n in names
    ensures forall i :: 0 <= i < |names| && IsMissing(values[i]) ==> names[i] in r
    ensures r == [] <==> forall i :: 0 <= i < |values| ==> !IsMissing(values[i])
  {
    if names == [] then []
    else
      var rest := MissingNames(names[1..], values[1..]);
      assert forall i :: 1 <= i < |values| ==> values[i] == values[1..][i - 1];
      if IsMissing(values[0]) then [names[0]] + rest else rest
  }

  /** The module-level list of missing credential names. */
  function MissingCredentials(c: Credentials): seq<string> {
    MissingNames(CredentialNames, Values(c))
  }

  /** `validate_credentials`: nothing missing, an API key of at least ten
      characters and a bearer token that starts with `AAAA`. */
  function ValidateCredentials(c: Credentials): (ok: bool)
    ensures ok <==>
      (forall i :: 0 <= i < |Values(c)| ==> !IsMissing(Values(c)[i]))
      && c.apiKey.Some? && |c.apiKey.value| >= 10
      && c.bearerToken.Some? && StartsWith(c.bearerToken.value, "AAAA")
    ensures ok ==> MissingCredentials(c) == []
  {
    assert Values(c)[0] == c.apiKey && Values(c)[4] == c.bearerToken;
    if MissingCredentials(c) != [] then false
    else if c.apiKey.Some? && c.apiKey.value != "" && |c.apiKey.value| < 10 then false
    else if c.bearerToken.Some? && c.bearerToken.value != "" && !StartsWith(c.bearerToken.value, "AAAA") then false
    else true
  }

  /** A placeholder in any position is reported by name and fails validation. */
  lemma PlaceholderRejected(c: Credentials, i: nat, rest: string)
    requires i < |CredentialNames|
    requires Values(c)[i] == Some("YOUR_" + rest)
    ensures CredentialNames[i] in MissingCredentials(c)
    ensures !ValidateCredentials(c)
  {
    assert StartsWith(Values(c)[i].value, "YOUR_");
  }

  /** What constructing the client did. */
  datatype BuildOutcome = Built | Unauthorized | Forbidden | NotFound | TooManyRequests | OtherError

  /** A client remembers the credentials it was built from. */
  datatype Client = Client(credentials: Credentials)

  class ClientCache {
    var client: Option<Client>

    /** The cache only ever holds a client built from valid credentials. */
    predicate Valid()
      reads this
    {
      client.Some? ==> ValidateCredentials(client.value.credentials)
    }

    constructor ()
      ensures client == None && Valid()
    {
      client := None;
    }

    /** `get_client`: the cached client if there is one; otherwise validate,
        build, and cache the client when construction succeeds. The outcome
        of the follow-up `get_me` probe only changes the log and is not a
        parameter. */
    method GetClient(creds: Credentials, build: BuildOutcome) returns (r: Option<Client>)
      requires Valid()
      modifies this
      ensures Valid()
      ensures old(client).Some? ==> r == old(client) && client == old(client)
      ensures old(client).None? && !ValidateCredentials(creds) ==> r == None && client == None
      ensures old(client).None? && ValidateCredentials(creds) ==>
        (r == if build.Built? then Some(Client(creds)) else None) && client == r
      ensures r.Some? ==> ValidateCredentials(r.value.credentials)
    {
      if client.Some? {
        return client;
      }
      if !ValidateCredentials(creds) {
        return None;
      }
      if build.Built? {
        client := Some(Client(creds));
        r := client;
      } else {
        r := None;
      }
    }
  }
}
