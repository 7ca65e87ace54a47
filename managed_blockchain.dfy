/**
 * ManagedBlockchainService: sets up the Fabric CA client and the Fabric
 * client, resolves the admin and user identities (in the secret store
 * first, in the CA when none is stored), builds the channel, queries and
 * invokes chaincode.
 *
 * The service's state is the class below.  The CA, the peers, the orderer
 * and the certificate file answer arbitrarily: each such call is a method
 * whose outcome is unconstrained beyond the exceptions the call declares,
 * and which appends what was asked and what came back to the ghost
 * `trace`.  What each operation does is stated as a predicate over the
 * state and the trace before and after it; the lemmas at the end of the
 * module are about those predicates.
 */
module ManagedBlockchain {
  import opened Wrappers
  import opened Errors
  import opened Fabric
  import SecretsManager
  import Charset

  type Secrets = SecretsManager.Secrets
  type Faults = SecretsManager.Faults
  type KeyFactory = SecretsManager.KeyFactory

  /** The fields setupClient writes: whether caClient and client are set, ambTlsCertAsString, the client's user context. */
  datatype Clients = Clients(caReady: bool, clientReady: bool, tlsCert: Option<string>, userContext: Option<User>)

  /** A FabricUser of the configured organisation. */
  function UserOf(cfg: Config, userId: string, e: Enrollment): User {
    User(userId, cfg.org1, cfg.org1Msp, e)
  }

  /** The outcome only: for the operations that return nothing. */
  function Forget<T>(r: Result<T, Error>): Result<(), Error> {
    if r.Ok? then Ok(()) else Err(r.error)
  }

  /** enrollAdmin reports the CA's failures as AppException. */
  function AsAdminEnrollError(e: Error): (r: Error)
    ensures e.CaError? ==> r == AppError(AdminEnrollFailed)
    ensures !e.CaError? ==> r == e
  {
    if e.CaError? then AppError(AdminEnrollFailed) else e
  }

  // ------------------------------------------------------------ setupClient

  ghost predicate SetupClientSpec(cfg: Config, c0: Clients, c1: Clients, t0: seq<Event>, t1: seq<Event>,
                                  r: Result<(), Error>)
  {
    if c0.caReady && c0.clientReady then r == Ok(()) && c1 == c0 && t1 == t0
    else
      && |t1| > |t0|
      && var read := t1[|t0|];
      && read.CertRead? && read.path == cfg.ambCertPath
      && match read.content
         case None => r == Err(AppError(TlsCertNotFound)) && c1 == c0 && t1 == t0 + [read]
         case Some(pem) =>
           && |t1| > |t0| + 1
           && var ca := t1[|t0| + 1];
           && ca.CaClientCreated? && ca.url == cfg.caUrl && ca.pem == pem
           && if !ca.created then
                r == Err(ServiceError(ClientSetupFailed)) && c1 == c0.(tlsCert := Some(pem)) && t1 == t0 + [read, ca]
              else
                && |t1| > |t0| + 2
                && var client := t1[|t0| + 2];
                && client.ClientCreated?
                && t1 == t0 + [read, ca, client]
                && if client.ok then r == Ok(()) && c1 == Clients(true, true, Some(pem), None)
                   else r == Err(ServiceError(ClientSetupFailed)) && c1 == c0.(caReady := true, tlsCert := Some(pem))
  }

  // ------------------------------------------------------------ getAdmin

  /**
   * getAdmin: the stored credentials of the admin, or, when there are
   * none, one enrollment at the CA with the configured password whose
   * result is stored before it is used.
   */
  ghost predicate GetAdminSpec(cfg: Config, kf: KeyFactory, faults: Faults, s0: Secrets, s1: Secrets,
                               t0: seq<Event>, t1: seq<Event>, r: Result<User, Error>)
  {
    match SecretsManager.GetFabricEnrollment(s0, faults, cfg.adminUser, cfg.org1, kf)
    case Ok(e) => r == Ok(UserOf(cfg, cfg.adminUser, e)) && s1 == s0 && t1 == t0
    case Err(err) =>
      if err != EnrollmentNotFound then r == Err(err) && s1 == s0 && t1 == t0
      else
        && |t1| > |t0|
        && var call := t1[|t0|];
        && call.CaEnroll? && call.user == cfg.adminUser && call.secret == cfg.adminPwd
        && match call.outcome
           case Err(f) => r == Err(CaError(f)) && s1 == s0 && t1 == t0 + [call]
           case Ok(e) =>
             var stored := SecretsManager.StoreResult(s0, faults, cfg.adminUser, cfg.org1, e);
             && t1 == t0 + [call, CredentialsStored(cfg.adminUser, cfg.org1, e)]
             && s1 == SecretsManager.SecretsAfterStore(s0, faults, cfg.adminUser, cfg.org1, e)
             && r == if stored.Ok? then Ok(UserOf(cfg, cfg.adminUser, e)) else Err(stored.error)
  }

  // ------------------------------------------------------------ enrollUserToCA

  /**
   * enrollUserToCA: registration of the user with the given password by
   * the registrar, enrollment with the secret the CA returned, and storage
   * of the new credentials.
   */
  ghost predicate EnrollUserToCaSpec(cfg: Config, faults: Faults, s0: Secrets, s1: Secrets,
                                     t0: seq<Event>, t1: seq<Event>, registrar: User, userId: string,
                                     password: string, r: Result<Enrollment, Error>)
  {
    && |t1| > |t0|
    && var reg := t1[|t0|];
    && reg.CaRegister? && reg.request == RegistrationRequest(userId, cfg.org1, password) && reg.registrar == registrar
    && match reg.registered
       case Err(_) => r == Err(AppError(UserEnrollFailed)) && s1 == s0 && t1 == t0 + [reg]
       case Ok(secret) =>
         && |t1| > |t0| + 1
         && var call := t1[|t0| + 1];
         && call.CaEnroll? && call.user == userId && call.secret == secret
         && match call.outcome
            case Err(_) => r == Err(AppError(UserEnrollFailed)) && s1 == s0 && t1 == t0 + [reg, call]
            case Ok(e) =>
              var stored := SecretsManager.StoreResult(s0, faults, userId, cfg.org1, e);
              && t1 == t0 + [reg, call, CredentialsStored(userId, cfg.org1, e)]
              && s1 == SecretsManager.SecretsAfterStore(s0, faults, userId, cfg.org1, e)
              && r == if stored.Ok? then Ok(e) else Err(stored.error)
  }

  // ------------------------------------------------------------ initializeChannel

  /** The properties given to the peer and the orderer. */
  function ConnectionProperties(pem: PemValue): TlsProperties {
    TlsProperties(pem, "openSSL", "TLS")
  }

  /**
   * The "pemBytes" value: the bytes of the certificate kept by setupClient,
   * but the String itself when it had to be read again.
   */
  function PemProperty(tlsCert: string, reread: Option<string>): (v: PemValue)
    requires tlsCert == "" ==> reread.Some?
    ensures tlsCert != "" ==> v.PemBytes? && (Charset.FromBytes(v.bytes) == tlsCert
                                              <==> forall i :: 0 <= i < |tlsCert| ==> Charset.IsLatin1(tlsCert[i]))
    ensures tlsCert != "" ==> v == PemBytes(Charset.ToBytes(tlsCert))
    ensures tlsCert == "" ==> v == PemText(reread.value)
  {
    Charset.FromBytesToBytes(tlsCert);
    if tlsCert != "" then PemBytes(Charset.ToBytes(tlsCert)) else PemText(reread.value)
  }

  function PeerOf(cfg: Config, pem: PemValue): Endpoint {
    Endpoint(cfg.peerName, cfg.peerUrl, ConnectionProperties(pem))
  }

  function OrdererOf(cfg: Config, pem: PemValue): Endpoint {
    Endpoint(cfg.ordererName, cfg.ordererUrl, ConnectionProperties(pem))
  }

  /** The six SDK calls that build the channel, in order. */
  function ChannelSteps(cfg: Config, pem: PemValue): seq<ChannelStep> {
    var peer, orderer := PeerOf(cfg, pem), OrdererOf(cfg, pem);
    [NewPeer(peer), NewOrderer(orderer), NewChannel(cfg.channelName), AddPeer(peer), AddOrderer(orderer),
     Initialize(Channel(cfg.channelName, [peer], [orderer], false))]
  }

  /** The channel once every step has succeeded. */
  function BuiltChannel(cfg: Config, pem: PemValue): Channel {
    Channel(cfg.channelName, [PeerOf(cfg, pem)], [OrdererOf(cfg, pem)], true)
  }

  /** An initialized channel of the configured name, with the configured peer and orderer only. */
  predicate IsConfiguredChannel(cfg: Config, c: Channel) {
    && c.initialized && c.name == cfg.channelName
    && |c.peers| == 1 && c.peers[0].name == cfg.peerName && c.peers[0].url == cfg.peerUrl
    && |c.orderers| == 1 && c.orderers[0].name == cfg.ordererName && c.orderers[0].url == cfg.ordererUrl
  }

  /** `calls` are the first steps in order, each but the last succeeded, and the last failed unless all were made. */
  ghost predicate StepsUntilFailure(steps: seq<ChannelStep>, calls: seq<Event>) {
    && 1 <= |calls| <= |steps|
    && (forall i :: 0 <= i < |calls| ==> calls[i].ChannelCall? && calls[i].step == steps[i])
    && (forall i :: 0 <= i < |calls| - 1 ==> calls[i].succeeded)
    && (|calls| < |steps| ==> !calls[|calls| - 1].succeeded)
  }

  ghost predicate ChannelBuildSpec(cfg: Config, pem: PemValue, hasClient: bool, calls: seq<Event>,
                                   r: Result<Channel, Error>)
  {
    if !hasClient then r == Err(NullPointer) && calls == []
    else
      var steps := ChannelSteps(cfg, pem);
      && StepsUntilFailure(steps, calls)
      && r == if |calls| == |steps| && calls[|steps| - 1].succeeded then Ok(BuiltChannel(cfg, pem))
              else Err(AppError(ChannelInitFailed))
  }

  /**
   * initializeChannel: the current channel once it is initialized;
   * otherwise the certificate kept by setupClient, or read again when that
   * is empty, for the peer and orderer of a new channel.
   */
  ghost predicate InitializeChannelSpec(cfg: Config, tlsCert: Option<string>, hasClient: bool,
                                        current: Option<Channel>, t0: seq<Event>, t1: seq<Event>,
                                        r: Result<Channel, Error>)
  {
    if current.Some? && current.value.initialized then r == Ok(current.value) && t1 == t0
    else if tlsCert.None? then r == Err(NullPointer) && t1 == t0
    else
      && |t1| >= |t0| && t1[..|t0|] == t0
      && var rest := t1[|t0|..];
      if tlsCert.value != "" then ChannelBuildSpec(cfg, PemProperty(tlsCert.value, None), hasClient, rest, r)
      else
        && |rest| >= 1
        && rest[0].CertRead? && rest[0].path == cfg.ambCertPath
        && match rest[0].content
           case None => r == Err(AppError(TlsCertNotFound)) && |rest| == 1
           case Some(pem) => ChannelBuildSpec(cfg, PemProperty("", Some(pem)), hasClient, rest[1..], r)
  }

  // ------------------------------------------------------------ queryChaincode

  /** Whether getChaincodeActionResponsePayload returns for every response. */
  predicate AllPayloadsReadable(rs: seq<ProposalResponse>) {
    forall i :: 0 <= i < |rs| ==> rs[i].payload.Some?
  }

  /**
   * The query result: InvalidArgumentException when some payload cannot be
   * read, otherwise the payload of the last response of the collection,
   * whatever its status; "" for none.
   */
  function QueryOutcome(responses: seq<ProposalResponse>): (r: Result<string, Error>)
    ensures r.Err? <==> exists i :: 0 <= i < |responses| && responses[i].payload.None?
    ensures r.Err? ==> r.error == SdkError(InvalidArgument)
  {
    if !AllPayloadsReadable(responses) then Err(SdkError(InvalidArgument))
    else if |responses| == 0 then Ok("")
    else Ok(Charset.FromBytes(responses[|responses| - 1].payload.value))
  }

  ghost predicate QueryChaincodeSpec(hasClient: bool, channel: Option<Channel>, request: QueryRequest,
                                     t0: seq<Event>, t1: seq<Event>, r: Result<string, Error>)
  {
    if channel.None? || !hasClient then r == Err(ServiceError(ChannelNotInitialized)) && t1 == t0
    else
      && |t1| == |t0| + 1 && t1[..|t0|] == t0
      && var sent := t1[|t0|];
      && sent.QuerySent? && sent.query == request
      && match sent.answers
         case Err(f) => r == Err(SdkError(f))
         case Ok(responses) => r == QueryOutcome(responses)
  }

  // ------------------------------------------------------------ invokeChaincode

  /** The successful responses, in order. */
  function Endorsed(rs: seq<ProposalResponse>): (e: seq<ProposalResponse>)
    ensures forall i :: 0 <= i < |e| ==> e[i].status == Success
    ensures |e| <= |rs|
  {
    if rs == [] then []
    else Endorsed(rs[..|rs| - 1]) + (if rs[|rs| - 1].status == Success then [rs[|rs| - 1]] else [])
  }

  /** The unsuccessful responses, in order. */
  function Rejected(rs: seq<ProposalResponse>): (f: seq<ProposalResponse>)
    ensures forall i :: 0 <= i < |f| ==> f[i].status != Success
    ensures |f| <= |rs|
  {
    if rs == [] then []
    else Rejected(rs[..|rs| - 1]) + (if rs[|rs| - 1].status != Success then [rs[|rs| - 1]] else [])
  }

  predicate AllEndorsed(rs: seq<ProposalResponse>) {
    forall i :: 0 <= i < |rs| ==> rs[i].status == Success
  }

  ghost predicate InvokeChaincodeSpec(hasClient: bool, channel: Option<Channel>, request: TransactionRequest,
                                      t0: seq<Event>, t1: seq<Event>, r: Result<(), Error>)
  {
    if channel.None? || !hasClient then r == Err(ServiceError(ChannelNotInitialized)) && t1 == t0
    else
      && |t1| > |t0|
      && var sent := t1[|t0|];
      && sent.ProposalSent? && sent.proposal == request
      && match sent.responses
         case Err(f) =>
           t1 == t0 + [sent] &&
           r == if f == ProposalFailure then Err(RuntimeError(ProposalException)) else Err(SdkError(f))
         case Ok(responses) =>
           if !AllPayloadsReadable(responses) then r == Err(SdkError(InvalidArgument)) && t1 == t0 + [sent]
           else if Rejected(responses) == [] then r == Ok(()) && t1 == t0 + [sent, SentToOrderer(responses)]
           else r == Err(RuntimeError(ProposalRejected)) && t1 == t0 + [sent]
  }

  // ------------------------------------------------------------ response processing

  /** The loop of queryChaincode: every response overwrites the result; an unreadable payload ends it. */
  method QueryResult(responses: seq<ProposalResponse>) returns (r: Result<string, Error>)
    ensures r == QueryOutcome(responses)
  {
    var result := "";
    for i := 0 to |responses|
      invariant QueryOutcome(responses[..i]) == Ok(result)
    {
      if responses[i].payload.None? {
        return Err(SdkError(InvalidArgument));
      }
      assert responses[..i + 1][..i] == responses[..i];
      result := Charset.FromBytes(responses[i].payload.value);
    }
    assert responses[..|responses|] == responses;
    return Ok(result);
  }

  /**
   * The loop of invokeChaincode: the responses sorted into successful and
   * failed, each in order; `readable` is false when it stopped at a payload
   * that cannot be read.
   */
  method PartitionResponses(responses: seq<ProposalResponse>)
    returns (readable: bool, successful: seq<ProposalResponse>, failed: seq<ProposalResponse>)
    ensures readable <==> AllPayloadsReadable(responses)
    ensures readable ==> successful == Endorsed(responses) && failed == Rejected(responses)
    ensures readable ==> multiset(successful) + multiset(failed) == multiset(responses)
  {
    successful, failed := [], [];
    for i := 0 to |responses|
      invariant AllPayloadsReadable(responses[..i])
      invariant successful == Endorsed(responses[..i])
      invariant failed == Rejected(responses[..i])
    {
      if responses[i].payload.None? {
        return false, successful, failed;
      }
      assert responses[..i + 1][..i] == responses[..i];
      if responses[i].status == Success {
        successful := successful + [responses[i]];
      } else {
        failed := failed + [responses[i]];
      }
    }
    assert responses[..|responses|] == responses;
    EndorsedRejectedPartition(responses);
    readable := true;
  }

  // ------------------------------------------------------------ properties

  /** Every response is in exactly one of the two lists. */
  lemma {:induction false} EndorsedRejectedPartition(rs: seq<ProposalResponse>)
    ensures multiset(Endorsed(rs)) + multiset(Rejected(rs)) == multiset(rs)
    ensures |Endorsed(rs)| + |Rejected(rs)| == |rs|
  {
    if rs != [] {
      var init, last := rs[..|rs| - 1], rs[|rs| - 1];
      EndorsedRejectedPartition(init);
      assert rs == init + [last];
    }
  }

  /** No response is rejected exactly when all are successful; then all are endorsed. */
  lemma {:induction false} NoRejectionIffAllEndorsed(rs: seq<ProposalResponse>)
    ensures Rejected(rs) == [] <==> AllEndorsed(rs)
    ensures AllEndorsed(rs) ==> Endorsed(rs) == rs
  {
    if rs != [] {
      var init := rs[..|rs| - 1];
      NoRejectionIffAllEndorsed(init);
      assert AllEndorsed(rs) ==> AllEndorsed(init);
      if Rejected(rs) == [] {
        assert Rejected(init) == [];
        assert rs == init + [rs[|rs| - 1]];
      }
      if AllEndorsed(rs) {
        assert rs == init + [rs[|rs| - 1]];
      }
    }
  }

  /**
   * invokeChaincode submits to the orderer at most once, and does so
   * exactly when the call succeeds, which in turn is exactly when every
   * peer answered the proposal with success and every payload could be
   * read.  "Proposal error" is reported exactly when the payloads were read
   * and some peer did not endorse.
   */
  lemma InvokeOrdersOnlyEndorsed(hasClient: bool, channel: Option<Channel>, request: TransactionRequest,
                                 t0: seq<Event>, t1: seq<Event>, r: Result<(), Error>)
    requires InvokeChaincodeSpec(hasClient, channel, request, t0, t1, r)
    ensures OrdererSubmissions(t1[|t0|..]) == if r.Ok? then 1 else 0
    ensures r.Ok? <==> && |t1| == |t0| + 2 && t1[|t0|].responses.Ok?
                       && AllPayloadsReadable(t1[|t0|].responses.value) && AllEndorsed(t1[|t0|].responses.value)
    ensures r.Ok? ==> t1[|t0| + 1] == SentToOrderer(t1[|t0|].responses.value)
    ensures r == Err(RuntimeError(ProposalRejected)) <==>
              && channel.Some? && hasClient && t1[|t0|].responses.Ok?
              && AllPayloadsReadable(t1[|t0|].responses.value) && !AllEndorsed(t1[|t0|].responses.value)
  {
    if channel.Some? && hasClient {
      var sent := t1[|t0|];
      if sent.responses.Ok? {
        NoRejectionIffAllEndorsed(sent.responses.value);
        if r.Ok? {
          assert t1[|t0|..] == [sent, SentToOrderer(sent.responses.value)];
          assert OrdererSubmissions([sent]) == 0;
        } else {
          assert t1[|t0|..] == [sent];
        }
      } else {
        assert t1[|t0|..] == [sent];
      }
    } else {
      assert t1[|t0|..] == [];
    }
  }

  /** When every peer answers the query with the same payload, that payload is the result. */
  lemma AgreeingPeersDecideQuery(hasClient: bool, channel: Option<Channel>, request: QueryRequest,
                                 t0: seq<Event>, t1: seq<Event>, r: Result<string, Error>,
                                 payload: seq<SecretsManager.byte>)
    requires QueryChaincodeSpec(hasClient, channel, request, t0, t1, r)
    requires channel.Some? && hasClient
    requires t1[|t0|].answers.Ok? && |t1[|t0|].answers.value| > 0
    requires forall i :: 0 <= i < |t1[|t0|].answers.value| ==> t1[|t0|].answers.value[i].payload == Some(payload)
    ensures r == Ok(Charset.FromBytes(payload))
  {
  }

  /** A successful setupClient leaves both clients set, so a second call makes no call at all. */
  lemma SetupClientOnce(cfg: Config, c0: Clients, c1: Clients, c2: Clients, t0: seq<Event>, t1: seq<Event>,
                        t2: seq<Event>, r1: Result<(), Error>, r2: Result<(), Error>)
    requires SetupClientSpec(cfg, c0, c1, t0, t1, r1) && r1.Ok?
    requires SetupClientSpec(cfg, c1, c2, t1, t2, r2)
    ensures c1.caReady && c1.clientReady
    ensures r2 == Ok(()) && c2 == c1 && t2 == t1
  {
  }

  /**
   * The admin is enrolled at most once: once getAdmin has succeeded for
   * an admin without credentials (or with stored ones), the next getAdmin
   * finds the stored credentials and makes no CA call, and gives the same
   * user.
   */
  lemma AdminEnrolledOnce(cfg: Config, kf: KeyFactory, faults: Faults, s0: Secrets, s1: Secrets, s2: Secrets,
                          t0: seq<Event>, t1: seq<Event>, t2: seq<Event>, r1: Result<User, Error>,
                          r2: Result<User, Error>)
    requires GetAdminSpec(cfg, kf, faults, s0, s1, t0, t1, r1) && r1.Ok?
    requires GetAdminSpec(cfg, kf, faults, s1, s2, t1, t2, r2)
    requires SecretsManager.FreshCredentials(s0, faults, cfg.adminUser, cfg.org1)
             || SecretsManager.GetFabricEnrollment(s0, faults, cfg.adminUser, cfg.org1, kf).Ok?
    requires kf(r1.value.enrollment.key.encoded)
    ensures r2 == r1 && s2 == s1 && t2 == t1
  {
    if !SecretsManager.GetFabricEnrollment(s0, faults, cfg.adminUser, cfg.org1, kf).Ok? {
      SecretsManager.StoreThenLoad(s0, faults, cfg.adminUser, cfg.org1, t1[|t0|].outcome.value, kf);
    }
  }

  /**
   * getAdmin calls the CA exactly once when the admin's enrollment is not
   * found, and not at all otherwise; with the enrollment found, the store
   * is not written either.
   */
  lemma GetAdminCaCalls(cfg: Config, kf: KeyFactory, faults: Faults, s0: Secrets, s1: Secrets,
                        t0: seq<Event>, t1: seq<Event>, r: Result<User, Error>)
    requires GetAdminSpec(cfg, kf, faults, s0, s1, t0, t1, r)
    ensures var found := SecretsManager.GetFabricEnrollment(s0, faults, cfg.adminUser, cfg.org1, kf);
            CaCalls(t1[|t0|..]) == if found == Err(EnrollmentNotFound) then 1 else 0
    ensures SecretsManager.GetFabricEnrollment(s0, faults, cfg.adminUser, cfg.org1, kf).Ok? ==> s1 == s0
  {
  }

  /**
   * A failed setupClient leaves the client absent and the user context as
   * it was, so the next setupClient tries again.
   */
  lemma SetupClientFailureRetries(cfg: Config, c0: Clients, c1: Clients, t0: seq<Event>, t1: seq<Event>,
                                  r: Result<(), Error>)
    requires SetupClientSpec(cfg, c0, c1, t0, t1, r) && r.Err?
    requires c0.clientReady ==> c0.caReady
    ensures !c1.clientReady && c1.userContext == c0.userContext
    ensures c1.clientReady ==> c1.caReady
  {
  }

  /**
   * When the CA refuses the registration or the enrollment of a user,
   * enrollUserToCA reports an application error and writes nothing to the
   * store.
   */
  lemma CaFailureStoresNothing(cfg: Config, faults: Faults, s0: Secrets, s1: Secrets, t0: seq<Event>,
                               t1: seq<Event>, registrar: User, userId: string, password: string,
                               r: Result<Enrollment, Error>)
    requires EnrollUserToCaSpec(cfg, faults, s0, s1, t0, t1, registrar, userId, password, r)
    requires t1[|t0|].registered.Err? || (|t1| > |t0| + 1 && t1[|t0| + 1].CaEnroll? && t1[|t0| + 1].outcome.Err?)
    ensures r == Err(AppError(UserEnrollFailed)) && s1 == s0
    ensures forall i :: |t0| <= i < |t1| ==> !t1[i].CredentialsStored?
  {
  }

  /**
   * A first enrollment of a user stores credentials that the next lookup
   * finds, after exactly two CA calls (register, enroll); no other user's
   * lookup changes.
   */
  lemma EnrolledUserIsFound(cfg: Config, kf: KeyFactory, faults: Faults, s0: Secrets, s1: Secrets,
                            t0: seq<Event>, t1: seq<Event>, registrar: User, userId: string, password: string,
                            r: Result<Enrollment, Error>, other: string)
    requires EnrollUserToCaSpec(cfg, faults, s0, s1, t0, t1, registrar, userId, password, r) && r.Ok?
    requires SecretsManager.FreshCredentials(s0, faults, userId, cfg.org1)
    requires kf(r.value.key.encoded)
    requires other != userId
    ensures SecretsManager.GetFabricEnrollment(s1, faults, userId, cfg.org1, kf) == Ok(r.value)
    ensures SecretsManager.GetFabricEnrollment(s1, faults, other, cfg.org1, kf)
            == SecretsManager.GetFabricEnrollment(s0, faults, other, cfg.org1, kf)
    ensures CaCalls(t1[|t0|..]) == 2
  {
    var reg := t1[|t0|];
    var call := t1[|t0| + 1];
    var e := call.outcome.value;
    SecretsManager.StoreThenLoad(s0, faults, userId, cfg.org1, e, kf);
    SecretsManager.StoreIsolatesUsers(s0, faults, userId, other, cfg.org1, e, kf);
    var stored := CredentialsStored(userId, cfg.org1, e);
    assert t1[|t0|..] == [reg, call, stored];
    assert [reg, call, stored][..2] == [reg, call];
    assert [reg, call][..1] == [reg];
    assert CaCalls([reg]) == 1;
  }

  /** A channel handed out by initializeChannel is initialized with the configured peer and orderer. */
  lemma InitializedChannelIsConfigured(cfg: Config, tlsCert: Option<string>, hasClient: bool,
                                       current: Option<Channel>, t0: seq<Event>, t1: seq<Event>,
                                       r: Result<Channel, Error>)
    requires InitializeChannelSpec(cfg, tlsCert, hasClient, current, t0, t1, r)
    requires current.Some? ==> IsConfiguredChannel(cfg, current.value)
    ensures r.Ok? ==> IsConfiguredChannel(cfg, r.value)
    ensures current.Some? ==> r == Ok(current.value) && t1 == t0
  {
  }

  // ------------------------------------------------------------ the service

  class ManagedBlockchainService {
    const config: Config
    const store: SecretsManager.SecretStore
    /** KeyFactory.getInstance("EC").generatePrivate: whether it accepts encoded key bytes. */
    const keyFactory: KeyFactory

    var caReady: bool
    var clientReady: bool
    var tlsCert: Option<string>
    var channel: Option<Channel>
    /** The user context of the client. */
    var userContext: Option<User>
    /** Every call made outside the process, in order. */
    ghost var trace: seq<Event>

    ghost predicate Valid()
      reads this
    {
      && (clientReady ==> caReady)
      && (userContext.Some? ==> clientReady)
      && (channel.Some? ==> IsConfiguredChannel(config, channel.value))
    }

    ghost function ClientState(): Clients
      reads this
    {
      Clients(caReady, clientReady, tlsCert, userContext)
    }

    constructor (config: Config, store: SecretsManager.SecretStore, keyFactory: KeyFactory)
      ensures this.config == config && this.store == store && this.keyFactory == keyFactory
      ensures !caReady && !clientReady && tlsCert.None? && channel.None? && userContext.None? && trace == []
      ensures Valid()
    {
      this.config, this.store, this.keyFactory := config, store, keyFactory;
      caReady, clientReady, tlsCert, channel, userContext := false, false, None, None, None;
      trace := [];
    }

    // ---- the certificate file, the CA and the SDK

    /** SecretsManagerUtil.readCert: the file's content, or None for an IOException. */
    method ReadCert(path: string) returns (content: Option<string>)
      modifies this`trace
      ensures trace == old(trace) + [CertRead(path, content)]
    {
      content := *;
      trace := trace + [CertRead(path, content)];
    }

    /** createHFCAClient: whether HFCAClient.createNewInstance and setCryptoSuite succeed. */
    method CreateHFCAClient(pem: string) returns (created: bool)
      modifies this`trace
      ensures trace == old(trace) + [CaClientCreated(config.caUrl, pem, created)]
    {
      created := *;
      trace := trace + [CaClientCreated(config.caUrl, pem, created)];
    }

    /** createHFClient: whether HFClient.createNewInstance and setCryptoSuite succeed. */
    method CreateHFClient() returns (ok: bool)
      modifies this`trace
      ensures trace == old(trace) + [ClientCreated(ok)]
    {
      ok := *;
      trace := trace + [ClientCreated(ok)];
    }

    /** HFCAClient.enroll, which throws InvalidArgumentException or EnrollmentException. */
    method Enroll(user: string, secret: string) returns (outcome: Result<Enrollment, CaFault>)
      modifies this`trace
      ensures outcome.Err? ==> outcome.error == CaInvalidArgument || outcome.error == EnrollmentFailed
      ensures trace == old(trace) + [CaEnroll(user, secret, outcome)]
    {
      outcome := *;
      if outcome.Err? && outcome.error == RegistrationFailed {
        outcome := Err(EnrollmentFailed);
      }
      trace := trace + [CaEnroll(user, secret, outcome)];
    }

    /** HFCAClient.register, which throws InvalidArgumentException or RegistrationException. */
    method Register(request: RegistrationRequest, registrar: User) returns (registered: Result<string, CaFault>)
      modifies this`trace
      ensures registered.Err? ==> registered.error == CaInvalidArgument || registered.error == RegistrationFailed
      ensures trace == old(trace) + [CaRegister(request, registrar, registered)]
    {
      registered := *;
      if registered.Err? && registered.error == EnrollmentFailed {
        registered := Err(RegistrationFailed);
      }
      trace := trace + [CaRegister(request, registrar, registered)];
    }

    /** One SDK call of channel construction; false for InvalidArgumentException or TransactionException. */
    method CallSdk(step: ChannelStep) returns (succeeded: bool)
      modifies this`trace
      ensures trace == old(trace) + [ChannelCall(step, succeeded)]
    {
      succeeded := *;
      trace := trace + [ChannelCall(step, succeeded)];
    }

    /** Channel.queryByChaincode, which throws InvalidArgumentException or ProposalException. */
    method QueryByChaincode(request: QueryRequest) returns (answers: Result<seq<ProposalResponse>, SdkFault>)
      modifies this`trace
      ensures answers.Err? ==> answers.error == InvalidArgument || answers.error == ProposalFailure
      ensures trace == old(trace) + [QuerySent(request, answers)]
    {
      answers := *;
      if answers.Err? && answers.error == TransactionFailure {
        answers := Err(ProposalFailure);
      }
      trace := trace + [QuerySent(request, answers)];
    }

    /** Channel.sendTransactionProposal, which throws InvalidArgumentException or ProposalException. */
    method SendTransactionProposal(request: TransactionRequest)
      returns (responses: Result<seq<ProposalResponse>, SdkFault>)
      modifies this`trace
      ensures responses.Err? ==> responses.error == InvalidArgument || responses.error == ProposalFailure
      ensures trace == old(trace) + [ProposalSent(request, responses)]
    {
      responses := *;
      if responses.Err? && responses.error == TransactionFailure {
        responses := Err(ProposalFailure);
      }
      trace := trace + [ProposalSent(request, responses)];
    }

    /** Channel.sendTransaction; its future is not awaited. */
    method SendTransaction(endorsements: seq<ProposalResponse>)
      modifies this`trace
      ensures trace == old(trace) + [SentToOrderer(endorsements)]
    {
      trace := trace + [SentToOrderer(endorsements)];
    }

    // ---- the operations

    method SetupClient() returns (r: Result<(), Error>)
      requires Valid()
      modifies this`caReady, this`clientReady, this`tlsCert, this`userContext, this`trace
      ensures Valid()
      ensures SetupClientSpec(config, old(ClientState()), ClientState(), old(trace), trace, r)
    {
      if caReady && clientReady {
        return Ok(());
      }
      var content := ReadCert(config.ambCertPath);
      if content.None? {
        return Err(AppError(TlsCertNotFound));
      }
      tlsCert := content;
      var created := CreateHFCAClient(content.value);
      if !created {
        return Err(ServiceError(ClientSetupFailed));
      }
      caReady := true;
      var ok := CreateHFClient();
      if !ok {
        return Err(ServiceError(ClientSetupFailed));
      }
      clientReady, userContext := true, None;
      return Ok(());
    }

    method GetAdmin() returns (r: Result<User, Error>)
      modifies this`trace, store
      ensures GetAdminSpec(config, keyFactory, store.faults, old(store.secrets), store.secrets, old(trace), trace, r)
    {
      var found := SecretsManager.GetFabricEnrollment(store.secrets, store.faults, config.adminUser, config.org1,
                                                      keyFactory);
      if found.Ok? {
        return Ok(UserOf(config, config.adminUser, found.value));
      }
      if found.error != EnrollmentNotFound {
        return Err(found.error);
      }
      var enrollment := Enroll(config.adminUser, config.adminPwd);
      if enrollment.Err? {
        return Err(CaError(enrollment.error));
      }
      var stored := store.StoreEnrollmentCredentials(config.adminUser, config.org1, enrollment.value);
      trace := trace + [CredentialsStored(config.adminUser, config.org1, enrollment.value)];
      if stored.Err? {
        return Err(stored.error);
      }
      return Ok(UserOf(config, config.adminUser, enrollment.value));
    }

    /** `admin` is what getAdmin returned. */
    method EnrollAdmin() returns (r: Result<User, Error>, ghost admin: Result<User, Error>)
      requires Valid()
      modifies this`userContext, this`trace, store
      ensures Valid()
      ensures !old(caReady && clientReady) ==>
                && r == Err(ServiceError(ClientsNotInitialized))
                && userContext == old(userContext) && trace == old(trace) && store.secrets == old(store.secrets)
      ensures old(caReady && clientReady) ==>
                && GetAdminSpec(config, keyFactory, store.faults, old(store.secrets), store.secrets, old(trace),
                                trace, admin)
                && r == (if admin.Ok? then admin else Err(AsAdminEnrollError(admin.error)))
                && userContext == if admin.Ok? then Some(admin.value) else old(userContext)
    {
      admin := Err(ServiceError(ClientsNotInitialized));
      if !clientReady || !caReady {
        return Err(ServiceError(ClientsNotInitialized)), admin;
      }
      var found := GetAdmin();
      admin := found;
      if found.Err? {
        return Err(AsAdminEnrollError(found.error)), admin;
      }
      userContext := Some(found.value);
      return found, admin;
    }

    method SetUser(userId: string) returns (r: Result<(), Error>)
      requires Valid()
      modifies this`userContext
      ensures Valid()
      ensures match SecretsManager.GetFabricEnrollment(store.secrets, store.faults, userId, config.org1, keyFactory)
              case Err(e) => r == Err(e) && userContext == old(userContext)
              case Ok(e) =>
                if clientReady then r == Ok(()) && userContext == Some(UserOf(config, userId, e))
                else r == Err(ServiceError(ClientNotInitialized)) && userContext == old(userContext)
    {
      var enrollment := SecretsManager.GetFabricEnrollment(store.secrets, store.faults, userId, config.org1,
                                                           keyFactory);
      if enrollment.Err? {
        return Err(enrollment.error);
      }
      var user := UserOf(config, userId, enrollment.value);
      if !clientReady {
        return Err(ServiceError(ClientNotInitialized));
      }
      userContext := Some(user);
      return Ok(());
    }

    method EnrollUserToCA(registrar: User, userId: string, password: string) returns (r: Result<Enrollment, Error>)
      modifies this`trace, store
      ensures EnrollUserToCaSpec(config, store.faults, old(store.secrets), store.secrets, old(trace), trace,
                                 registrar, userId, password, r)
    {
      var secret := Register(RegistrationRequest(userId, config.org1, password), registrar);
      if secret.Err? {
        return Err(AppError(UserEnrollFailed));
      }
      var enrollment := Enroll(userId, secret.value);
      if enrollment.Err? {
        return Err(AppError(UserEnrollFailed));
      }
      var stored := store.StoreEnrollmentCredentials(userId, config.org1, enrollment.value);
      trace := trace + [CredentialsStored(userId, config.org1, enrollment.value)];
      if stored.Err? {
        return Err(stored.error);
      }
      return Ok(enrollment.value);
    }

    /**
     * The ghost results are the admin getAdmin returned, the secrets and
     * the trace after it, and what enrollUserToCA returned.
     */
    method EnrollUser(userId: string, password: string)
      returns (r: Result<(), Error>, ghost admin: Result<User, Error>, ghost adminSecrets: Secrets,
               ghost adminTrace: seq<Event>, ghost enrolled: Result<Enrollment, Error>)
      requires Valid()
      modifies this`userContext, this`trace, store
      ensures Valid()
      ensures var known := SecretsManager.GetFabricEnrollment(old(store.secrets), store.faults, userId, config.org1,
                                                              keyFactory);
              known != Err(EnrollmentNotFound) ==>
                && r == Forget(known)
                && userContext == old(userContext) && trace == old(trace) && store.secrets == old(store.secrets)
      ensures var known := SecretsManager.GetFabricEnrollment(old(store.secrets), store.faults, userId, config.org1,
                                                              keyFactory);
              known == Err(EnrollmentNotFound) && !old(caReady && clientReady) ==>
                && r == Err(ServiceError(ClientsNotInitialized))
                && userContext == old(userContext) && trace == old(trace) && store.secrets == old(store.secrets)
      ensures var known := SecretsManager.GetFabricEnrollment(old(store.secrets), store.faults, userId, config.org1,
                                                              keyFactory);
              known == Err(EnrollmentNotFound) && old(caReady && clientReady) ==>
                && GetAdminSpec(config, keyFactory, store.faults, old(store.secrets), adminSecrets, old(trace),
                                adminTrace, admin)
                && (admin.Err? ==>
                      && r == Err(AsAdminEnrollError(admin.error))
                      && userContext == old(userContext) && trace == adminTrace && store.secrets == adminSecrets)
                && (admin.Ok? ==>
                      && userContext == Some(admin.value)
                      && EnrollUserToCaSpec(config, store.faults, adminSecrets, store.secrets, adminTrace, trace,
                                            admin.value, userId, password, enrolled)
                      && r == Forget(enrolled))
    {
      admin, adminSecrets, adminTrace, enrolled := Err(EnrollmentNotFound), store.secrets, trace, Err(EnrollmentNotFound);
      var known := SecretsManager.GetFabricEnrollment(store.secrets, store.faults, userId, config.org1, keyFactory);
      if known != Err(EnrollmentNotFound) {
        r := Forget(known);
        return;
      }
      var adminUser;
      adminUser, admin := EnrollAdmin();
      adminSecrets, adminTrace := store.secrets, trace;
      if adminUser.Err? {
        r := Err(adminUser.error);
        return;
      }
      var enrollment := EnrollUserToCA(adminUser.value, userId, password);
      enrolled := enrollment;
      r := Forget(enrollment);
    }

    method InitializeChannel(hasClient: bool) returns (r: Result<Channel, Error>)
      modifies this`trace
      ensures InitializeChannelSpec(config, tlsCert, hasClient, channel, old(trace), trace, r)
    {
      if channel.Some? && channel.value.initialized {
        return Ok(channel.value);
      }
      if tlsCert.None? {
        return Err(NullPointer);
      }
      ghost var t0 := trace;
      var reread := None;
      if tlsCert.value == "" {
        reread := ReadCert(config.ambCertPath);
        if reread.None? {
          assert trace[|t0|..] == [CertRead(config.ambCertPath, None)];
          return Err(AppError(TlsCertNotFound));
        }
      }
      var pem := PemProperty(tlsCert.value, reread);
      ghost var t1 := trace;
      assert t1[|t0|..] == if tlsCert.value == "" then [CertRead(config.ambCertPath, reread)] else [];
      if !hasClient {
        assert trace[|t0|..] == t1[|t0|..];
        return Err(NullPointer);
      }
      r := BuildChannel(pem);
      assert trace[|t0|..] == t1[|t0|..] + trace[|t1|..];
    }

    /** The SDK calls of initializeChannel, up to the first that throws. */
    method BuildChannel(pem: PemValue) returns (r: Result<Channel, Error>)
      modifies this`trace
      ensures |trace| > |old(trace)| && trace[..|old(trace)|] == old(trace)
      ensures ChannelBuildSpec(config, pem, true, trace[|old(trace)|..], r)
    {
      var steps := ChannelSteps(config, pem);
      ghost var t0, made := trace, [];
      var ok := CallSdk(steps[0]);
      if !ok {
        ChannelStepFailed(config, pem, t0, made, trace, 0);
        return Err(AppError(ChannelInitFailed));
      }
      made := made + [ChannelCall(steps[0], true)];
      ok := CallSdk(steps[1]);
      if !ok {
        ChannelStepFailed(config, pem, t0, made, trace, 1);
        return Err(AppError(ChannelInitFailed));
      }
      made := made + [ChannelCall(steps[1], true)];
      ok := CallSdk(steps[2]);
      if !ok {
        ChannelStepFailed(config, pem, t0, made, trace, 2);
        return Err(AppError(ChannelInitFailed));
      }
      made := made + [ChannelCall(steps[2], true)];
      ok := CallSdk(steps[3]);
      if !ok {
        ChannelStepFailed(config, pem, t0, made, trace, 3);
        return Err(AppError(ChannelInitFailed));
      }
      made := made + [ChannelCall(steps[3], true)];
      ok := CallSdk(steps[4]);
      if !ok {
        ChannelStepFailed(config, pem, t0, made, trace, 4);
        return Err(AppError(ChannelInitFailed));
      }
      made := made + [ChannelCall(steps[4], true)];
      ok := CallSdk(steps[5]);
      if !ok {
        ChannelStepFailed(config, pem, t0, made, trace, 5);
        return Err(AppError(ChannelInitFailed));
      }
      AllStepsMade(config, pem, t0, made, trace);
      return Ok(BuiltChannel(config, pem));
    }

    /** `built` is what initializeChannel returned. */
    method InitChannel() returns (r: Result<(), Error>, ghost built: Result<Channel, Error>)
      requires Valid()
      modifies this`channel, this`trace
      ensures Valid()
      ensures InitializeChannelSpec(config, tlsCert, clientReady, old(channel), old(trace), trace, built)
      ensures r == Forget(built)
      ensures channel == if built.Ok? then Some(built.value) else old(channel)
      ensures old(channel).Some? ==> r == Ok(()) && channel == old(channel) && trace == old(trace)
    {
      var result := InitializeChannel(clientReady);
      built := result;
      InitializedChannelIsConfigured(config, tlsCert, clientReady, old(channel), old(trace), trace, result);
      r := Forget(result);
      if result.Ok? {
        channel := Some(result.value);
      }
    }

    /** `args` is the single argument of the query. */
    method QueryChaincode(hasClient: bool, channel: Option<Channel>, chaincodeName: string, functionName: string,
                          args: string) returns (r: Result<string, Error>)
      modifies this`trace
      ensures QueryChaincodeSpec(hasClient, channel, QueryRequest(chaincodeName, functionName, [args]),
                                 old(trace), trace, r)
    {
      if channel.None? || !hasClient {
        return Err(ServiceError(ChannelNotInitialized));
      }
      var answers := QueryByChaincode(QueryRequest(chaincodeName, functionName, [args]));
      if answers.Err? {
        return Err(SdkError(answers.error));
      }
      r := QueryResult(answers.value);
    }

    method InvokeChaincode(hasClient: bool, channel: Option<Channel>, chaincodeName: string, functionName: string,
                           arguments: seq<string>) returns (r: Result<(), Error>)
      modifies this`trace
      ensures InvokeChaincodeSpec(hasClient, channel, TransactionRequest(chaincodeName, functionName, arguments, 2000),
                                  old(trace), trace, r)
    {
      if channel.None? || !hasClient {
        return Err(ServiceError(ChannelNotInitialized));
      }
      var request := TransactionRequest(chaincodeName, functionName, arguments, 2000);
      var responses := SendTransactionProposal(request);
      if responses.Err? {
        if responses.error == ProposalFailure {
          return Err(RuntimeError(ProposalException));
        }
        return Err(SdkError(responses.error));
      }
      var readable, successful, failed := PartitionResponses(responses.value);
      if !readable {
        return Err(SdkError(InvalidArgument));
      }
      if |failed| > 0 {
        return Err(RuntimeError(ProposalRejected));
      }
      SendTransaction(responses.value);
      return Ok(());
    }
  }

  /** A build that stopped at step `k`: the steps before it succeeded, and initializeChannel fails. */
  lemma ChannelStepFailed(cfg: Config, pem: PemValue, t0: seq<Event>, made: seq<Event>, t: seq<Event>, k: nat)
    requires k < 6 && |made| == k
    requires forall i :: 0 <= i < k ==> made[i] == ChannelCall(ChannelSteps(cfg, pem)[i], true)
    requires t == t0 + made + [ChannelCall(ChannelSteps(cfg, pem)[k], false)]
    ensures |t| > |t0| && t[..|t0|] == t0
    ensures StepsUntilFailure(ChannelSteps(cfg, pem), t[|t0|..]) && !t[|t| - 1].succeeded
    ensures ChannelBuildSpec(cfg, pem, true, t[|t0|..], Err(AppError(ChannelInitFailed)))
  {
  }

  /** A build in which every step succeeded: initializeChannel gives the built channel. */
  lemma AllStepsMade(cfg: Config, pem: PemValue, t0: seq<Event>, made: seq<Event>, t: seq<Event>)
    requires |made| == 5
    requires forall i :: 0 <= i < 5 ==> made[i] == ChannelCall(ChannelSteps(cfg, pem)[i], true)
    requires t == t0 + made + [ChannelCall(ChannelSteps(cfg, pem)[5], true)]
    ensures |t| > |t0| && t[..|t0|] == t0
    ensures StepsUntilFailure(ChannelSteps(cfg, pem), t[|t0|..]) && |t[|t0|..]| == 6 && t[|t| - 1].succeeded
    ensures ChannelBuildSpec(cfg, pem, true, t[|t0|..], Ok(BuiltChannel(cfg, pem)))
  {
  }
}
