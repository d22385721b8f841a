/**
 * ETAPI tokens: creating them, reading the `Authorization` header back into
 * a token (optionally wrapped in HTTP Basic authentication), checking it
 * against the stored token hashes, renaming and deleting tokens.
 *
 * The SHA-256/base64 hash, the base64 decoder and the random token are
 * parameters: the hash and decoder as functions fixed for a store, the
 * random token and the new token's id as arguments of `CreateToken`.
 */
module EtapiTokens {
  import opened Common

  /** The stored fields of a token: its id, its name and the hash of its secret. */
  datatype EtapiToken = EtapiToken(etapiTokenId: string, name: string, tokenHash: string)

  /** `parseAuthToken`'s result: the token id when the header has one, and the secret. */
  datatype ParsedToken = ParsedToken(etapiTokenId: Option<string>, token: string)

  const BASIC_PREFIX := "Basic "

  /**
   * The credential a present, non-empty header carries: the header itself,
   * or for a `Basic` header the password of the decoded `etapi:password`
   * pair; None when the decoded pair is not exactly two parts or the user is
   * not `etapi`.
   */
  function Credential(auth: string, fromBase64: string -> string): (r: Option<string>)
    ensures !StartsWith(auth, BASIC_PREFIX) ==> r == Some(auth)
    ensures StartsWith(auth, BASIC_PREFIX) ==>
              var chunks := Split(fromBase64(auth[6..]), ':');
              (r.Some? <==> |chunks| == 2 && chunks[0] == "etapi")
              && (r.Some? ==> r.value == chunks[1] && fromBase64(auth[6..]) == "etapi:" + r.value)
  {
    if StartsWith(auth, BASIC_PREFIX) then
      var basicAuthStr := fromBase64(auth[6..]);
      var chunks := Split(basicAuthStr, ':');
      if |chunks| != 2 then None
      else if chunks[0] != "etapi" then None
      else
        JoinSplit(basicAuthStr, ':');
        Some(chunks[1])
    else Some(auth)
  }

  /** `parseAuthToken`: split the credential at `_` into an id and a secret. */
  function ParseAuthToken(auth: Option<string>, fromBase64: string -> string): (r: Option<ParsedToken>)
    ensures !Truthy(auth) ==> r.None?
    ensures Truthy(auth) && Credential(auth.value, fromBase64).None? ==> r.None?
    ensures Truthy(auth) && Credential(auth.value, fromBase64).Some? ==>
              var c := Credential(auth.value, fromBase64).value;
              (CountChar(c, '_') == 0 ==> r == Some(ParsedToken(None, c)))
              && (CountChar(c, '_') == 1 ==> r.Some? && r.value.etapiTokenId.Some?
                                             && r.value.etapiTokenId.value + "_" + r.value.token == c)
              && (CountChar(c, '_') > 1 ==> r.None?)
    ensures r.Some? ==> '_' !in r.value.token && (r.value.etapiTokenId.Some? ==> '_' !in r.value.etapiTokenId.value)
  {
    if !Truthy(auth) then None
    else
      var credential := Credential(auth.value, fromBase64);
      if credential.None? then None
      else
        var c := credential.value;
        var chunks := Split(c, '_');
        SplitLength(c, '_');
        JoinSplit(c, '_');
        if |chunks| == 1 then
          Some(ParsedToken(None, c))
        else if |chunks| == 2 then
          Some(ParsedToken(Some(chunks[0]), chunks[1]))
        else None
  }

  /**
   * A token `createToken` hands out, `<etapiTokenId>_<token>`, parses back
   * to its id and secret when neither contains `_` (ids are alphanumeric,
   * secrets base64) and the header is not mistaken for a `Basic` one.
   */
  lemma {:induction false} CreatedTokenParses(etapiTokenId: string, token: string, fromBase64: string -> string)
    requires '_' !in etapiTokenId && '_' !in token
    requires !StartsWith(etapiTokenId + "_" + token, BASIC_PREFIX)
    ensures ParseAuthToken(Some(etapiTokenId + "_" + token), fromBase64) == Some(ParsedToken(Some(etapiTokenId), token))
  {
    var c := etapiTokenId + "_" + token;
    assert c == etapiTokenId + ['_'] + token;
    SplitAtFirstSeparator(etapiTokenId, '_', token);
    SplitWithoutSeparator(token, '_');
  }

  /** A legacy header without `_` (and not `Basic`) is the secret itself. */
  lemma LegacyTokenParses(token: string, fromBase64: string -> string)
    requires token != "" && '_' !in token && !StartsWith(token, BASIC_PREFIX)
    ensures ParseAuthToken(Some(token), fromBase64) == Some(ParsedToken(None, token))
  {
    SplitWithoutSeparator(token, '_');
    SplitLength(token, '_');
  }

  /**
   * Whether a parsed header authenticates against `tokens`: with a
   * (non-empty) id, that token exists and its hash is the secret's hash;
   * without one, some stored token has the secret's hash.
   */
  predicate Authenticates(tokens: map<string, EtapiToken>, hash: string -> string, parsed: Option<ParsedToken>)
  {
    parsed.Some? &&
    if Truthy(parsed.value.etapiTokenId) then
      parsed.value.etapiTokenId.value in tokens && tokens[parsed.value.etapiTokenId.value].tokenHash == hash(parsed.value.token)
    else
      exists id | id in tokens :: tokens[id].tokenHash == hash(parsed.value.token)
  }

  class EtapiTokenStore {
    /** The live tokens by id. */
    var tokens: map<string, EtapiToken>
    const hash: string -> string
    const fromBase64: string -> string

    constructor(tokens: map<string, EtapiToken>, hash: string -> string, fromBase64: string -> string)
      ensures this.tokens == tokens && this.hash == hash && this.fromBase64 == fromBase64
    {
      this.tokens := tokens;
      this.hash := hash;
      this.fromBase64 := fromBase64;
    }

    /**
     * `createToken`: stores a token named `tokenName` holding the hash of
     * the secret `token` under the new id `etapiTokenId`, and returns the
     * header value `<etapiTokenId>_<token>`.
     */
    method CreateToken(tokenName: string, token: string, etapiTokenId: string) returns (authToken: string)
      modifies this
      ensures tokens == old(tokens)[etapiTokenId := EtapiToken(etapiTokenId, tokenName, hash(token))]
      ensures authToken == etapiTokenId + "_" + token
    {
      tokens := tokens[etapiTokenId := EtapiToken(etapiTokenId, tokenName, hash(token))];
      authToken := etapiTokenId + "_" + token;
    }

    /** `isValidAuthHeader`: the header parses and authenticates against the stored tokens. */
    method IsValidAuthHeader(auth: Option<string>) returns (valid: bool)
      ensures valid == Authenticates(tokens, hash, ParseAuthToken(auth, fromBase64))
    {
      var parsed := ParseAuthToken(auth, fromBase64);
      if parsed.None? {
        return false;
      }
      var authTokenHash := hash(parsed.value.token);
      if Truthy(parsed.value.etapiTokenId) {
        var id := parsed.value.etapiTokenId.value;
        if id !in tokens {
          return false;
        }
        return tokens[id].tokenHash == authTokenHash;
      }
      var rest := tokens.Keys;
      while rest != {}
        invariant rest <= tokens.Keys
        invariant forall id | id in tokens.Keys - rest :: tokens[id].tokenHash != authTokenHash
        decreases |rest|
      {
        var id :| id in rest;
        if tokens[id].tokenHash == authTokenHash {
          return true;
        }
        rest := rest - {id};
      }
      return false;
    }

    /** `renameToken`: an unknown id is an error; otherwise only that token's name changes. */
    method RenameToken(etapiTokenId: string, newName: string) returns (r: Result<(), string>)
      modifies this
      ensures etapiTokenId !in old(tokens) ==> r == Err("Token '" + etapiTokenId + "' does not exist") && tokens == old(tokens)
      ensures etapiTokenId in old(tokens) ==> r.Ok? && tokens == old(tokens)[etapiTokenId := old(tokens)[etapiTokenId].(name := newName)]
    {
      if etapiTokenId !in tokens {
        return Err("Token '" + etapiTokenId + "' does not exist");
      }
      tokens := tokens[etapiTokenId := tokens[etapiTokenId].(name := newName)];
      return Ok(());
    }

    /** `deleteToken`: the token leaves the store; an unknown id changes nothing. */
    method DeleteToken(etapiTokenId: string)
      modifies this
      ensures tokens == old(tokens) - {etapiTokenId}
      ensures etapiTokenId !in old(tokens) ==> tokens == old(tokens)
    {
      if etapiTokenId !in tokens {
        return;
      }
      tokens := tokens - {etapiTokenId};
    }
  }

  /**
   * A freshly created token authenticates: the header `createToken`
   * returned is valid against the store it was added to.
   */
  lemma CreatedTokenValid(tokens: map<string, EtapiToken>, hash: string -> string, fromBase64: string -> string,
                          tokenName: string, token: string, etapiTokenId: string)
    requires etapiTokenId != "" && '_' !in etapiTokenId && '_' !in token
    requires !StartsWith(etapiTokenId + "_" + token, BASIC_PREFIX)
    ensures Authenticates(tokens[etapiTokenId := EtapiToken(etapiTokenId, tokenName, hash(token))], hash,
                          ParseAuthToken(Some(etapiTokenId + "_" + token), fromBase64))
  {
    CreatedTokenParses(etapiTokenId, token, fromBase64);
  }

  /** After `deleteToken`, a header naming that token no longer authenticates. */
  lemma DeletedTokenInvalid(tokens: map<string, EtapiToken>, hash: string -> string, parsed: ParsedToken)
    requires Truthy(parsed.etapiTokenId)
    ensures !Authenticates(tokens - {parsed.etapiTokenId.value}, hash, Some(parsed))
  {
  }

  /** A renamed token authenticates exactly as before: the name plays no part. */
  lemma RenameKeepsValidity(tokens: map<string, EtapiToken>, hash: string -> string, parsed: Option<ParsedToken>,
                            etapiTokenId: string, newName: string)
    requires etapiTokenId in tokens
    ensures Authenticates(tokens[etapiTokenId := tokens[etapiTokenId].(name := newName)], hash, parsed)
            == Authenticates(tokens, hash, parsed)
  {
    var renamed := tokens[etapiTokenId := tokens[etapiTokenId].(name := newName)];
    if parsed.Some? && !Truthy(parsed.value.etapiTokenId) {
      var h := hash(parsed.value.token);
      if exists id | id in tokens :: tokens[id].tokenHash == h {
        var id :| id in tokens && tokens[id].tokenHash == h;
        assert renamed[id].tokenHash == h;
      }
      if exists id | id in renamed :: renamed[id].tokenHash == h {
        var id :| id in renamed && renamed[id].tokenHash == h;
        assert tokens[id].tokenHash == h;
      }
    }
  }
}
