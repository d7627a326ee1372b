// Keycloak signing-key selection and the OAuth2 client settings (auth/auth.go).
//
// The key set arrives already fetched and JSON-decoded: the model starts at the
// list of keys and ends at the RSA public key (modulus N, exponent E) that the
// service goes on to trust.

module Auth {
  import opened Wrappers
  import opened Bytes
  import Base64Url
  import Config

  /** One entry of the realm's JSON Web Key Set. */
  datatype Key = Key(kid: string, kty: string, alg: string, use: string, n: string, e: string, x5c: seq<string>)

  /** An RSA public key: the modulus and the exponent as a machine integer. */
  datatype RsaPublicKey = RsaPublicKey(n: nat, e: int)

  /** Why no public key could be taken from the key set. */
  datatype KeyError =
    | NoPublicKeys
    | NoRS256Key
    | MalformedModulus(Base64Url.DecodeError)
    | MalformedExponent(Base64Url.DecodeError)
    | ModulusNotPositive
    | ExponentNotPositive

  predicate IsRS256(k: Key)
  {
    k.alg == "RS256"
  }

  /** The first key of the set whose algorithm is RS256, if there is one. */
  function FirstRS256Key(keys: seq<Key>): Option<Key>
  {
    if |keys| == 0 then None
    else if IsRS256(keys[0]) then Some(keys[0])
    else FirstRS256Key(keys[1..])
  }

  /** i is the position of the first RS256 key. */
  predicate FirstRS256At(keys: seq<Key>, i: int)
  {
    0 <= i < |keys| && IsRS256(keys[i]) && forall j :: 0 <= j < i ==> !IsRS256(keys[j])
  }

  /**
   * The selected key is the first RS256 one: every key before it has another
   * algorithm, and nothing is selected exactly when no key is RS256.
   */
  lemma {:induction false} FirstRS256KeyIsFirst(keys: seq<Key>)
    ensures FirstRS256Key(keys).None? <==> forall i :: 0 <= i < |keys| ==> !IsRS256(keys[i])
    ensures FirstRS256Key(keys).Some? ==>
      exists i :: FirstRS256At(keys, i) && keys[i] == FirstRS256Key(keys).value
  {
    if |keys| > 0 && !IsRS256(keys[0]) {
      FirstRS256KeyIsFirst(keys[1..]);
      if FirstRS256Key(keys).Some? {
        var i :| FirstRS256At(keys[1..], i) && keys[1..][i] == FirstRS256Key(keys).value;
        assert FirstRS256At(keys, i + 1);
      }
    } else if |keys| > 0 {
      assert FirstRS256At(keys, 0);
    }
  }

  /** The scan over the key set that stops at the first RS256 key. */
  method SelectKey(keys: seq<Key>) returns (key: Option<Key>)
    ensures key == FirstRS256Key(keys)
  {
    key := None;
    var i := 0;
    while i < |keys|
      invariant 0 <= i <= |keys|
      invariant FirstRS256Key(keys) == FirstRS256Key(keys[i..])
    {
      assert keys[i..][1..] == keys[i + 1..];
      if keys[i].alg == "RS256" {
        key := Some(keys[i]);
        break;
      }
      i := i + 1;
    }
  }

  /**
   * The public key taken from a key set: an empty set and a set without an RS256
   * key are refused; otherwise N and then E of the first RS256 key are decoded as
   * unpadded base64url and read as big-endian unsigned integers, E narrowed to a
   * signed 64-bit integer.
   */
  method FetchKeycloakPublicKey(keys: seq<Key>) returns (r: Result<RsaPublicKey, KeyError>)
    ensures r == Failure(NoPublicKeys) <==> |keys| == 0
    ensures |keys| > 0 && (forall i :: 0 <= i < |keys| ==> !IsRS256(keys[i])) <==> r == Failure(NoRS256Key)
    ensures r.Failure? && r.error.MalformedModulus? <==>
      FirstRS256Key(keys).Some? && Base64Url.DecodeString(FirstRS256Key(keys).value.n).Failure?
    ensures r.Failure? && r.error.MalformedModulus? ==>
      r.error == MalformedModulus(Base64Url.DecodeString(FirstRS256Key(keys).value.n).error)
    ensures r.Failure? && r.error.MalformedExponent? <==>
      && FirstRS256Key(keys).Some?
      && Base64Url.DecodeString(FirstRS256Key(keys).value.n).Success?
      && Base64Url.DecodeString(FirstRS256Key(keys).value.e).Failure?
    ensures r.Failure? && r.error.MalformedExponent? ==>
      r.error == MalformedExponent(Base64Url.DecodeString(FirstRS256Key(keys).value.e).error)
    ensures r.Success? <==>
      && FirstRS256Key(keys).Some?
      && Base64Url.DecodeString(FirstRS256Key(keys).value.n).Success?
      && Base64Url.DecodeString(FirstRS256Key(keys).value.e).Success?
    ensures r.Success? ==>
      && FirstRS256Key(keys).Some?
      && var key := FirstRS256Key(keys).value;
      && Base64Url.DecodeString(key.n).Success? && Base64Url.DecodeString(key.e).Success?
      && r.value.n == BigEndian(Base64Url.DecodeString(key.n).value)
      && r.value.e == Int64(BigEndian(Base64Url.DecodeString(key.e).value))
  {
    FirstRS256KeyIsFirst(keys);
    if |keys| == 0 {
      return Failure(NoPublicKeys);
    }
    var key := SelectKey(keys);
    if key.None? {
      return Failure(NoRS256Key);
    }
    var nBytes := Base64Url.DecodeString(key.value.n);
    if nBytes.Failure? {
      return Failure(MalformedModulus(nBytes.error));
    }
    var eBytes := Base64Url.DecodeString(key.value.e);
    if eBytes.Failure? {
      return Failure(MalformedExponent(eBytes.error));
    }
    var eInt := BigEndian(eBytes.value);
    return Success(RsaPublicKey(BigEndian(nBytes.value), Int64(eInt)));
  }

  /**
   * What the key goes through after it is built: marshalled to DER, wrapped in PEM
   * and parsed back by x509, which refuses a modulus and then an exponent that is
   * not positive. An accepted key comes back unchanged.
   */
  function PkixRoundTrip(key: RsaPublicKey): (r: Result<RsaPublicKey, KeyError>)
    ensures r.Success? <==> key.n > 0 && key.e > 0
    ensures r.Success? ==> r.value == key
    ensures r.Failure? ==> r.error == (if key.n == 0 then ModulusNotPositive else ExponentNotPositive)
  {
    if key.n == 0 then Failure(ModulusNotPositive)
    else if key.e <= 0 then Failure(ExponentNotPositive)
    else Success(key)
  }

  /**
   * The key the service starts with: the key taken from the key set, once x509
   * has accepted it. A key set whose N and E decode still fails here when N reads
   * as zero (an empty `n`, say) or E's low 64 bits read as a number that is not
   * positive.
   */
  method GetPublicKey(keys: seq<Key>) returns (r: Result<RsaPublicKey, KeyError>)
    ensures r.Success? <==>
      && FirstRS256Key(keys).Some?
      && var key := FirstRS256Key(keys).value;
      && Base64Url.DecodeString(key.n).Success? && Base64Url.DecodeString(key.e).Success?
      && BigEndian(Base64Url.DecodeString(key.n).value) > 0
      && Int64(BigEndian(Base64Url.DecodeString(key.e).value)) > 0
    ensures r.Success? ==>
      && var key := FirstRS256Key(keys).value;
      && r.value.n == BigEndian(Base64Url.DecodeString(key.n).value)
      && r.value.e == Int64(BigEndian(Base64Url.DecodeString(key.e).value))
    ensures (FirstRS256Key(keys).Some? && FirstRS256Key(keys).value.n == ""
             && Base64Url.DecodeString(FirstRS256Key(keys).value.e).Success?) ==>
      r == Failure(ModulusNotPositive)
    ensures |keys| == 0 ==> r == Failure(NoPublicKeys)
    ensures |keys| > 0 && (forall i :: 0 <= i < |keys| ==> !IsRS256(keys[i])) ==> r == Failure(NoRS256Key)
    ensures FirstRS256Key(keys).Some? && Base64Url.DecodeString(FirstRS256Key(keys).value.n).Failure? ==>
      r == Failure(MalformedModulus(Base64Url.DecodeString(FirstRS256Key(keys).value.n).error))
    ensures (&& FirstRS256Key(keys).Some?
             && Base64Url.DecodeString(FirstRS256Key(keys).value.n).Success?
             && Base64Url.DecodeString(FirstRS256Key(keys).value.e).Failure?) ==>
      r == Failure(MalformedExponent(Base64Url.DecodeString(FirstRS256Key(keys).value.e).error))
  {
    var fetched := FetchKeycloakPublicKey(keys);
    if fetched.Failure? {
      return Failure(fetched.error);
    }
    EmptyModulus();
    r := PkixRoundTrip(fetched.value);
  }

  /** An empty `n` decodes to no bytes, which read as zero. */
  lemma EmptyModulus()
    ensures Base64Url.DecodeString("") == Success([])
    ensures BigEndian([]) == 0
  {
    assert Base64Url.StripLineBreaks("") == "";
  }

  /** The usual published exponent "AQAB" becomes 65537. */
  lemma UsualExponent()
    ensures Base64Url.DecodeString("AQAB").Success?
    ensures Int64(BigEndian(Base64Url.DecodeString("AQAB").value)) == 65537
  {
    Base64Url.DecodeUsualExponent();
    var bs: seq<byte> := [1, 0, 1];
    assert bs[..2][..1][..0] == [];
    assert BigEndian(bs[..2][..1]) == 1;
    assert BigEndian(bs[..2]) == 256;
  }

  /**
   * A number published the way a key set publishes N and E (its shortest
   * big-endian bytes, base64url without padding) decodes back to that number.
   */
  lemma PublishedNumberDecodes(n: nat)
    ensures Base64Url.DecodeString(Base64Url.EncodeToString(MinimalBytes(n))).Success?
    ensures BigEndian(Base64Url.DecodeString(Base64Url.EncodeToString(MinimalBytes(n))).value) == n
  {
    Base64Url.DecodeEncode(MinimalBytes(n));
    BigEndianOfMinimalBytes(n);
  }

  /** An exponent below 2^63, published that way, survives the narrowing to 64 bits. */
  lemma PublishedExponentDecodes(e: nat)
    requires e < TwoTo63
    ensures Base64Url.DecodeString(Base64Url.EncodeToString(MinimalBytes(e))).Success?
    ensures Int64(BigEndian(Base64Url.DecodeString(Base64Url.EncodeToString(MinimalBytes(e))).value)) == e
  {
    PublishedNumberDecodes(e);
  }

  // ---------------------------------------------------------------- OAuth2 client settings

  /** Where a realm's OpenID Connect endpoints live under the Keycloak base URL. */
  function OpenIdConnectURL(keycloakURL: string, realm: string, endpoint: string): string
  {
    keycloakURL + "/auth/realms/" + realm + "/protocol/openid-connect/" + endpoint
  }

  /** The URL the key set is fetched from. */
  function CertsURL(keycloakURL: string, realm: string): (url: string)
    ensures url == OpenIdConnectURL(keycloakURL, realm, "certs")
  {
    keycloakURL + "/auth/realms/" + realm + "/protocol/openid-connect/certs"
  }

  datatype Endpoint = Endpoint(authURL: string, tokenURL: string)

  datatype OAuth2Config = OAuth2Config(
    clientID: string,
    clientSecret: string,
    redirectURL: string,
    scopes: seq<string>,
    endpoint: Endpoint)

  /** The OAuth2 client settings derived from the configuration. */
  function SetupOAuth2Config(cfg: Config.Config): (oc: OAuth2Config)
    ensures oc.clientID == cfg.clientID && oc.clientSecret == cfg.clientSecret
    ensures oc.redirectURL == cfg.cppHost + "/callback"
    ensures oc.scopes == ["openid", "profile", "email"]
    ensures oc.endpoint.authURL == OpenIdConnectURL(cfg.keycloakURL, cfg.keycloakRealm, "auth")
    ensures oc.endpoint.tokenURL == OpenIdConnectURL(cfg.keycloakURL, cfg.keycloakRealm, "token")
  {
    OAuth2Config(
      cfg.clientID,
      cfg.clientSecret,
      cfg.cppHost + "/callback",
      ["openid", "profile", "email"],
      Endpoint(
        cfg.keycloakURL + "/auth/realms/" + cfg.keycloakRealm + "/protocol/openid-connect/auth",
        cfg.keycloakURL + "/auth/realms/" + cfg.keycloakRealm + "/protocol/openid-connect/token"))
  }

  /**
   * Endpoints of one realm differ only in their last segment, so distinct
   * endpoint names give distinct URLs (authorization, token and certs never collide).
   */
  lemma {:induction false} OpenIdConnectURLInjective(keycloakURL: string, realm: string, x: string, y: string)
    requires OpenIdConnectURL(keycloakURL, realm, x) == OpenIdConnectURL(keycloakURL, realm, y)
    ensures x == y
  {
    var prefix := keycloakURL + "/auth/realms/" + realm + "/protocol/openid-connect/";
    assert OpenIdConnectURL(keycloakURL, realm, x) == prefix + x;
    assert OpenIdConnectURL(keycloakURL, realm, y) == prefix + y;
    assert x == (prefix + x)[|prefix|..];
    assert y == (prefix + y)[|prefix|..];
  }
}
