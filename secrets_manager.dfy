/**
 * SecretsManagerUtil: a user's Fabric credentials kept in AWS Secrets
 * Manager as two secrets per (organisation, user), the certificate as PEM
 * text and the private key as Base64 of its PKCS#8 encoding.
 *
 * The Secrets Manager service is the object `SecretStore`: the map of
 * secrets it holds, and for some names the fault the service answers any
 * request on that name with.  Reading is a function of that state;
 * creating a secret changes it.
 */
module SecretsManager {
  import opened Wrappers
  import opened Errors
  import Base64
  import Charset

  type byte = Base64.byte

  /** A private key, as its PKCS#8 encoding (`PrivateKey.getEncoded()`). */
  datatype PrivateKey = PrivateKey(encoded: seq<byte>)

  /** FabricEnrollment: a private key and its signed certificate in PEM. */
  datatype Enrollment = Enrollment(key: PrivateKey, cert: string)

  /** A stored secret: the SecretString when one is set, else the SecretBinary. */
  datatype SecretValue = Text(text: string) | Binary(bytes: seq<byte>)

  /** The "EC" KeyFactory: which PKCS#8 encodings it accepts as a private key. */
  type KeyFactory = seq<byte> -> bool

  type Secrets = map<string, SecretValue>
  type Faults = map<string, AwsFault>

  // ---------------------------------------------------------------- names

  const Namespace: string := "fabric/orgs/"

  /** The name of the key secret: under the namespace, ending in "/pk". */
  function PkSecretName(org: string, userId: string): (n: string)
    ensures Namespace <= n && |n| == |Namespace| + |org| + |userId| + 4
    ensures n[|n| - 3..] == "/pk"
  {
    Namespace + org + "/" + userId + "/pk"
  }

  /** The name of the certificate secret: under the namespace, ending in "/certs". */
  function CertsSecretName(org: string, userId: string): (n: string)
    ensures Namespace <= n && |n| == |Namespace| + |org| + |userId| + 7
    ensures n[|n| - 6..] == "/certs"
  {
    Namespace + org + "/" + userId + "/certs"
  }

  /** No key secret name is ever a certificate secret name. */
  lemma SecretNamesDistinct(org1: string, userId1: string, org2: string, userId2: string)
    ensures PkSecretName(org1, userId1) != CertsSecretName(org2, userId2)
  {
    var p, c := PkSecretName(org1, userId1), CertsSecretName(org2, userId2);
    assert p[|p| - 1] == 'k';
    assert c[|c| - 1] == 's';
  }

  /** Within one organisation, different users get different secret names. */
  lemma SecretNamesInjective(org: string, userId1: string, userId2: string)
    requires userId1 != userId2
    ensures PkSecretName(org, userId1) != PkSecretName(org, userId2)
    ensures CertsSecretName(org, userId1) != CertsSecretName(org, userId2)
  {
    UserIdOfSecretName(org, userId1);
    UserIdOfSecretName(org, userId2);
  }

  /** The user id can be read back from a secret name of a known organisation. */
  lemma UserIdOfSecretName(org: string, userId: string)
    ensures var n, p, c := |Namespace + org + "/"|, PkSecretName(org, userId), CertsSecretName(org, userId);
            && n + 3 <= |p| && p[n..|p| - 3] == userId
            && n + 6 <= |c| && c[n..|c| - 6] == userId
  {
  }

  /** Across organisations names can collide, since neither part is escaped. */
  lemma SecretNamesCollideAcrossOrgs()
    ensures PkSecretName("a/b", "c") == PkSecretName("a", "b/c")
    ensures CertsSecretName("a/b", "c") == CertsSecretName("a", "b/c")
  {
  }

  // -------------------------------------------------------------- reading

  /** The AWS faults that getSecret reports as SecretNotFound. */
  predicate IsRetrievalFault(f: AwsFault) {
    f == DecryptionFailure || f == InvalidParameter || f == InvalidRequest || f == InternalServiceError
  }

  /** getSecret: the secret's string value, or the text of its Base64-decoded binary value. */
  function GetSecret(secrets: Secrets, faults: Faults, name: string): (r: Result<string, Error>)
    ensures r == Err(SecretNotFound) <==>
              (name in faults && IsRetrievalFault(faults[name])) || (name !in faults && name !in secrets)
    ensures r.Ok? ==> name !in faults && name in secrets
    ensures r.Ok? && secrets[name].Text? ==> r.value == secrets[name].text
    ensures r.Ok? && secrets[name].Binary? ==>
              exists d :: Base64.Decode(Charset.FromBytes(secrets[name].bytes)) == Some(d) && r.value == Charset.FromBytes(d)
    ensures r.Err? ==> r.error == SecretNotFound || r.error == IllegalArgument || r.error == AwsError(OtherServiceError)
    ensures name !in faults && name in secrets && secrets[name].Text? ==> r == Ok(secrets[name].text)
    ensures name in faults && !IsRetrievalFault(faults[name]) ==> r == Err(AwsError(faults[name]))
    ensures name !in faults && name in secrets && secrets[name].Binary? ==>
              (r.Ok? <==> Base64.Decode(Charset.FromBytes(secrets[name].bytes)).Some?)
    ensures r == Err(IllegalArgument) <==>
              && name !in faults && name in secrets && secrets[name].Binary?
              && Base64.Decode(Charset.FromBytes(secrets[name].bytes)).None?
  {
    if name in faults then
      if IsRetrievalFault(faults[name]) then Err(SecretNotFound) else Err(AwsError(faults[name]))
    else if name !in secrets then
      Err(SecretNotFound)   // ResourceNotFoundException
    else
      match secrets[name]
      case Text(t) => Ok(t)
      case Binary(b) =>
        match Base64.Decode(Charset.FromBytes(b))
        case None => Err(IllegalArgument)
        case Some(d) => Ok(Charset.FromBytes(d))
  }

  /** The Base64 side of buildPrivateKeyFromString, then the key factory. */
  function BuildPrivateKeyFromString(pk: string, keyFactory: KeyFactory): (r: Result<PrivateKey, Error>)
    ensures r.Ok? <==> Base64.Decode(pk).Some? && keyFactory(Base64.Decode(pk).value)
    ensures r.Ok? ==> Base64.Decode(pk) == Some(r.value.encoded)
    ensures r == Err(IllegalArgument) <==> Base64.Decode(pk).None?
    ensures r == Err(InvalidKeySpec) <==> Base64.Decode(pk).Some? && !keyFactory(Base64.Decode(pk).value)
    ensures r.Err? ==> r.error == IllegalArgument || r.error == InvalidKeySpec
  {
    match Base64.Decode(pk)
    case None => Err(IllegalArgument)
    case Some(bytes) => if keyFactory(bytes) then Ok(PrivateKey(bytes)) else Err(InvalidKeySpec)
  }

  /** What getFabricEnrollment makes of a failure it catches. */
  function AsEnrollmentError(e: Error): (r: Error)
    ensures r == EnrollmentNotFound <==> e == SecretNotFound || e == InvalidKeySpec || e == EnrollmentNotFound
    ensures r != EnrollmentNotFound ==> r == e
  {
    if e == SecretNotFound || e == InvalidKeySpec then EnrollmentNotFound else e
  }

  /**
   * getFabricEnrollment: read the key secret, then the certificate secret,
   * then rebuild the key.  A missing secret or a key the factory rejects is
   * EnrollmentNotFound; text the Base64 decoder rejects and AWS faults that
   * getSecret does not catch are passed on.
   */
  function GetFabricEnrollment(secrets: Secrets, faults: Faults, userId: string, org: string,
                               keyFactory: KeyFactory): (r: Result<Enrollment, Error>)
    ensures var pk, cert := GetSecret(secrets, faults, PkSecretName(org, userId)),
                            GetSecret(secrets, faults, CertsSecretName(org, userId));
            && (r.Ok? <==> pk.Ok? && cert.Ok? && BuildPrivateKeyFromString(pk.value, keyFactory).Ok?)
            && (r.Ok? ==> r.value.cert == cert.value && Base64.Decode(pk.value) == Some(r.value.key.encoded))
            && (pk == Err(SecretNotFound) || (pk.Ok? && cert == Err(SecretNotFound)) ==> r == Err(EnrollmentNotFound))
            && (pk.Err? && pk.error != SecretNotFound ==> r == Err(pk.error))
            && (pk.Ok? && cert.Err? && cert.error != SecretNotFound ==> r == Err(cert.error))
            && (pk.Ok? && cert.Ok? && Base64.Decode(pk.value).None? ==> r == Err(IllegalArgument))
            && (pk.Ok? && cert.Ok? && Base64.Decode(pk.value).Some? && !keyFactory(Base64.Decode(pk.value).value)
                ==> r == Err(EnrollmentNotFound))
    ensures r.Err? ==> r.error == EnrollmentNotFound || r.error == IllegalArgument || r.error == AwsError(OtherServiceError)
  {
    var pk := GetSecret(secrets, faults, PkSecretName(org, userId));
    if pk.Err? then Err(AsEnrollmentError(pk.error))
    else
      var cert := GetSecret(secrets, faults, CertsSecretName(org, userId));
      if cert.Err? then Err(AsEnrollmentError(cert.error))
      else
        var key := BuildPrivateKeyFromString(pk.value, keyFactory);
        if key.Err? then Err(AsEnrollmentError(key.error))
        else Ok(Enrollment(key.value, cert.value))
  }

  // -------------------------------------------------------------- writing

  /** Whether createSecret on `name` throws: every fault but InvalidRequest is rethrown. */
  predicate CreateThrows(faults: Faults, name: string) {
    name in faults && faults[name] != InvalidRequest
  }

  /** What createSecret returns: false for an existing name or an invalid request. */
  function CreateSecretResult(secrets: Secrets, faults: Faults, name: string): (r: Result<bool, Error>)
    ensures r == Ok(true) <==> name !in faults && name !in secrets
    ensures r.Err? <==> CreateThrows(faults, name)
    ensures r.Err? ==> r.error == AwsError(faults[name])
  {
    if name in faults then
      if faults[name] == InvalidRequest then Ok(false) else Err(AwsError(faults[name]))
    else
      Ok(name !in secrets)   // ResourceExistsException when present
  }

  /** The secrets after createSecret(name, value). */
  function SecretsAfterCreate(secrets: Secrets, faults: Faults, name: string, value: string): (s: Secrets)
    ensures forall n :: n in secrets ==> n in s && s[n] == secrets[n]
    ensures forall n :: n in s && n != name ==> n in secrets
    ensures CreateSecretResult(secrets, faults, name) == Ok(true) ==> name in s && s[name] == Text(value)
    ensures CreateSecretResult(secrets, faults, name) != Ok(true) ==> s == secrets
  {
    if CreateSecretResult(secrets, faults, name) == Ok(true) then secrets[name := Text(value)] else secrets
  }

  /** What storeEnrollmentCredentials returns: true, unless a createSecret call threw. */
  function StoreResult(secrets: Secrets, faults: Faults, userId: string, org: string, e: Enrollment)
    : (r: Result<bool, Error>)
    ensures r.Ok? ==> r.value
    ensures var certs, pk := CertsSecretName(org, userId), PkSecretName(org, userId);
            && (r.Err? <==> CreateThrows(faults, certs) || CreateThrows(faults, pk))
            && (CreateThrows(faults, certs) ==> r == Err(AwsError(faults[certs])))
            && (!CreateThrows(faults, certs) && CreateThrows(faults, pk) ==> r == Err(AwsError(faults[pk])))
  {
    var certs, pk := CertsSecretName(org, userId), PkSecretName(org, userId);
    var c := CreateSecretResult(secrets, faults, certs);
    if c.Err? then Err(c.error)
    else
      var p := CreateSecretResult(SecretsAfterCreate(secrets, faults, certs, e.cert), faults, pk);
      if p.Err? then Err(p.error) else Ok(true)
  }

  /**
   * The secrets after storeEnrollmentCredentials: the certificate secret is
   * created first, then the key secret holding
   * Base64(e.key.encoded); existing secrets are never overwritten and no
   * other name is touched.
   */
  function SecretsAfterStore(secrets: Secrets, faults: Faults, userId: string, org: string, e: Enrollment)
    : (s: Secrets)
    ensures forall n :: n in secrets ==> n in s && s[n] == secrets[n]
    ensures forall n :: n in s && n != PkSecretName(org, userId) && n != CertsSecretName(org, userId) ==> n in secrets
    ensures var certs, pk := CertsSecretName(org, userId), PkSecretName(org, userId);
            var c, p := CreateSecretResult(secrets, faults, certs), CreateSecretResult(secrets, faults, pk);
            && (c == Ok(true) ==> certs in s && s[certs] == Text(e.cert))
            && (c != Ok(true) ==> (certs in s <==> certs in secrets))
            && (c.Ok? && p == Ok(true) ==> pk in s && s[pk] == Text(Base64.Encode(e.key.encoded)))
            && (c.Err? || p != Ok(true) ==> (pk in s <==> pk in secrets))
  {
    var certs, pk := CertsSecretName(org, userId), PkSecretName(org, userId);
    SecretNamesDistinct(org, userId, org, userId);
    var s1 := SecretsAfterCreate(secrets, faults, certs, e.cert);
    if CreateSecretResult(secrets, faults, certs).Err? then s1
    else SecretsAfterCreate(s1, faults, pk, Base64.Encode(e.key.encoded))
  }

  // ----------------------------------------------------------- properties

  /** A secret created under a fresh name reads back as the value given. */
  lemma CreateThenGet(secrets: Secrets, faults: Faults, name: string, value: string)
    requires name !in secrets && name !in faults
    ensures CreateSecretResult(secrets, faults, name) == Ok(true)
    ensures GetSecret(SecretsAfterCreate(secrets, faults, name, value), faults, name) == Ok(value)
  {
  }

  /** The secrets of an (org, userId) that has none yet and no faults. */
  predicate FreshCredentials(secrets: Secrets, faults: Faults, userId: string, org: string) {
    && PkSecretName(org, userId) !in secrets && PkSecretName(org, userId) !in faults
    && CertsSecretName(org, userId) !in secrets && CertsSecretName(org, userId) !in faults
  }

  /**
   * Store then load: for an (org, userId) without secrets, storing an
   * enrollment whose key the factory accepts and then reading it back gives
   * the same certificate and the same key bytes.
   */
  lemma StoreThenLoad(secrets: Secrets, faults: Faults, userId: string, org: string, e: Enrollment,
                      keyFactory: KeyFactory)
    requires FreshCredentials(secrets, faults, userId, org)
    requires keyFactory(e.key.encoded)
    ensures StoreResult(secrets, faults, userId, org, e) == Ok(true)
    ensures GetFabricEnrollment(SecretsAfterStore(secrets, faults, userId, org, e), faults, userId, org, keyFactory)
            == Ok(e)
  {
    var certs, pk := CertsSecretName(org, userId), PkSecretName(org, userId);
    SecretNamesDistinct(org, userId, org, userId);
    var text := Base64.Encode(e.key.encoded);
    var s1 := SecretsAfterCreate(secrets, faults, certs, e.cert);
    assert CreateSecretResult(s1, faults, pk) == Ok(true);
    var s := SecretsAfterStore(secrets, faults, userId, org, e);
    assert s == s1[pk := Text(text)];
    assert GetSecret(s, faults, pk) == Ok(text);
    assert GetSecret(s, faults, certs) == Ok(e.cert);
    Base64.DecodeEncode(e.key.encoded);
    assert BuildPrivateKeyFromString(text, keyFactory) == Ok(e.key);
  }

  /** Storing one user's credentials leaves another user's lookup of the same organisation as it was. */
  lemma StoreIsolatesUsers(secrets: Secrets, faults: Faults, userId: string, other: string, org: string,
                           e: Enrollment, keyFactory: KeyFactory)
    requires userId != other
    ensures GetFabricEnrollment(SecretsAfterStore(secrets, faults, userId, org, e), faults, other, org, keyFactory)
            == GetFabricEnrollment(secrets, faults, other, org, keyFactory)
  {
    var s := SecretsAfterStore(secrets, faults, userId, org, e);
    var pk, certs := PkSecretName(org, other), CertsSecretName(org, other);
    SecretNamesInjective(org, userId, other);
    SecretNamesDistinct(org, userId, org, other);
    SecretNamesDistinct(org, other, org, userId);
    assert pk in s <==> pk in secrets;
    assert certs in s <==> certs in secrets;
    assert GetSecret(s, faults, pk) == GetSecret(secrets, faults, pk);
    assert GetSecret(s, faults, certs) == GetSecret(secrets, faults, certs);
  }

  /**
   * The two secrets are not written atomically: with a key secret left
   * without its certificate, a new store keeps the old key and adds the new
   * certificate, and the next load pairs the two.
   */
  lemma PartialCredentialsMixOnStore(secrets: Secrets, faults: Faults, userId: string, org: string,
                                     oldPk: string, e: Enrollment, keyFactory: KeyFactory)
    requires PkSecretName(org, userId) in secrets && secrets[PkSecretName(org, userId)] == Text(oldPk)
    requires CertsSecretName(org, userId) !in secrets
    requires PkSecretName(org, userId) !in faults && CertsSecretName(org, userId) !in faults
    requires BuildPrivateKeyFromString(oldPk, keyFactory).Ok?
    ensures GetFabricEnrollment(secrets, faults, userId, org, keyFactory) == Err(EnrollmentNotFound)
    ensures StoreResult(secrets, faults, userId, org, e) == Ok(true)
    ensures GetFabricEnrollment(SecretsAfterStore(secrets, faults, userId, org, e), faults, userId, org, keyFactory)
            == Ok(Enrollment(BuildPrivateKeyFromString(oldPk, keyFactory).value, e.cert))
  {
  }

  // ---------------------------------------------------------- the service

  /** The AWS Secrets Manager service as SecretsManagerUtil sees it. */
  class SecretStore {
    var secrets: Secrets
    const faults: Faults

    constructor (secrets: Secrets, faults: Faults)
      ensures this.secrets == secrets && this.faults == faults
    {
      this.secrets := secrets;
      this.faults := faults;
    }

    /** createSecret: create name -> value unless the name exists or the request is refused. */
    method CreateSecret(name: string, value: string) returns (r: Result<bool, Error>)
      modifies this
      ensures r == CreateSecretResult(old(secrets), faults, name)
      ensures secrets == SecretsAfterCreate(old(secrets), faults, name, value)
    {
      if name in faults {
        var f := faults[name];
        if f == InvalidRequest {
          return Ok(false);
        }
        return Err(AwsError(f));
      }
      if name in secrets {
        return Ok(false);   // ResourceExistsException
      }
      secrets := secrets[name := Text(value)];
      return Ok(true);
    }

    /** storeEnrollmentCredentials: the certificate secret, then the Base64 key secret. */
    method StoreEnrollmentCredentials(userId: string, org: string, e: Enrollment) returns (r: Result<bool, Error>)
      modifies this
      ensures r == StoreResult(old(secrets), faults, userId, org, e)
      ensures secrets == SecretsAfterStore(old(secrets), faults, userId, org, e)
    {
      var userPkSecretName := PkSecretName(org, userId);
      var userCertsSecretName := CertsSecretName(org, userId);
      var c := CreateSecret(userCertsSecretName, e.cert);
      if c.Err? {
        return Err(c.error);
      }
      var p := CreateSecret(userPkSecretName, Base64.Encode(e.key.encoded));
      if p.Err? {
        return Err(p.error);
      }
      return Ok(true);
    }
  }
}
