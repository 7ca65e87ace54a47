/**
 * The values the service exchanges with the Fabric SDK, the Fabric CA and
 * its configuration, and the events it causes outside the process.  The
 * SDK objects themselves (HFClient, HFCAClient, Peer, Orderer, Channel)
 * are represented by the data the service gives them.
 */
module Fabric {
  import opened Wrappers
  import opened Errors
  import SecretsManager

  type Enrollment = SecretsManager.Enrollment

  /** AMBConfig: values taken from the environment once, at start-up. */
  datatype Config = Config(
    adminUser: string,      // ADMINUSER
    adminPwd: string,       // ADMINPWD
    caUrl: string,          // CA_ORG1_URL
    ambCertPath: string,    // AMB_CERT_PATH
    org1: string,           // ORG1, the affiliation
    org1Msp: string,        // ORG1_MSP
    peerName: string,       // ORG1_PEER_0
    peerUrl: string,        // ORG1_PEER_0_URL
    ordererName: string,    // ORDERER_NAME
    ordererUrl: string,     // ORDERER_URL
    channelName: string)    // CHANNEL_NAME

  /** FabricUser: a user context. */
  datatype User = User(name: string, affiliation: string, mspId: string, enrollment: Enrollment)

  /** The value put under "pemBytes": a String or a byte[]. */
  datatype PemValue = PemText(text: string) | PemBytes(bytes: seq<SecretsManager.byte>)

  /** The Properties handed to newPeer and newOrderer. */
  datatype TlsProperties = TlsProperties(pemBytes: PemValue, sslProvider: string, negotiationType: string)

  /** A peer or an orderer: its name, URL and connection properties. */
  datatype Endpoint = Endpoint(name: string, url: string, properties: TlsProperties)

  datatype Channel = Channel(name: string, peers: seq<Endpoint>, orderers: seq<Endpoint>, initialized: bool)

  /** ChaincodeResponse.Status. */
  datatype Status = Success | Failure | Undefined

  /**
   * A peer's answer to a proposal.  `payload` is what
   * getChaincodeActionResponsePayload returns, None where that getter throws
   * InvalidArgumentException.
   */
  datatype ProposalResponse = ProposalResponse(peer: string, status: Status, transactionId: string,
                                               payload: Option<seq<SecretsManager.byte>>)

  datatype RegistrationRequest = RegistrationRequest(enrollmentId: string, affiliation: string, secret: string)

  /** QueryByChaincodeRequest. */
  datatype QueryRequest = QueryRequest(chaincodeId: string, fcn: string, args: seq<string>)

  /** TransactionProposalRequest; the wait time is in milliseconds. */
  datatype TransactionRequest = TransactionRequest(chaincodeId: string, fcn: string, args: seq<string>,
                                                   proposalWaitTime: nat)

  /** One SDK call made while building a channel. */
  datatype ChannelStep =
    | NewPeer(peer: Endpoint)
    | NewOrderer(orderer: Endpoint)
    | NewChannel(name: string)
    | AddPeer(added: Endpoint)
    | AddOrderer(addedOrderer: Endpoint)
    | Initialize(channel: Channel)

  /** What the service did outside the process, with what came back. */
  datatype Event =
    | CertRead(path: string, content: Option<string>)
    | CaClientCreated(url: string, pem: string, created: bool)
    | ClientCreated(ok: bool)
    | CaEnroll(user: string, secret: string, outcome: Result<Enrollment, CaFault>)
    | CaRegister(request: RegistrationRequest, registrar: User, registered: Result<string, CaFault>)
    | CredentialsStored(owner: string, org: string, enrollment: Enrollment)
    | ChannelCall(step: ChannelStep, succeeded: bool)
    | QuerySent(query: QueryRequest, answers: Result<seq<ProposalResponse>, SdkFault>)
    | ProposalSent(proposal: TransactionRequest, responses: Result<seq<ProposalResponse>, SdkFault>)
    | SentToOrderer(endorsements: seq<ProposalResponse>)

  predicate IsCaCall(e: Event) {
    e.CaEnroll? || e.CaRegister?
  }

  /** The number of CA calls in a trace. */
  function CaCalls(t: seq<Event>): (n: nat)
    ensures n <= |t|
    ensures n == 0 <==> forall i :: 0 <= i < |t| ==> !IsCaCall(t[i])
  {
    if t == [] then 0 else CaCalls(t[..|t| - 1]) + (if IsCaCall(t[|t| - 1]) then 1 else 0)
  }

  /** The number of submissions to the orderer in a trace. */
  function OrdererSubmissions(t: seq<Event>): (n: nat)
    ensures n <= |t|
    ensures n == 0 <==> forall i :: 0 <= i < |t| ==> !t[i].SentToOrderer?
  {
    if t == [] then 0 else OrdererSubmissions(t[..|t| - 1]) + (if t[|t| - 1].SentToOrderer? then 1 else 0)
  }
}
