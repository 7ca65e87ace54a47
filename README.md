# Fabric credentials and chaincode service on Amazon Managed Blockchain — a Dafny model

This project models two classes of a Java service. The service runs Hyperledger Fabric chaincode on Amazon Managed Blockchain and keeps its users' credentials in AWS Secrets Manager.

- `SecretsManagerUtil` keeps each user's Fabric enrollment as two secrets, named from the organisation and the user:
  - `fabric/orgs/<org>/<user>/certs` holds the certificate.
  - `fabric/orgs/<org>/<user>/pk` holds the private key as Base64 (section 4 of RFC 4648).
  - It reads them back as an enrollment, and creates secrets without ever overwriting one.
- `ManagedBlockchainService` does the following:
  - it sets up the CA client and the Fabric client lazily;
  - it resolves the admin ("found in the store → rebuild, else enroll once and store");
  - it enrolls users ("found → nothing, else resolve the admin, register, enroll, store");
  - it switches the client's user context;
  - it builds the channel once, queries chaincode (the last responder wins) and invokes chaincode (all-or-nothing endorsement, then the full response set goes to the orderer).

Modules:

| file | module | what it holds |
|---|---|---|
| `wrappers.dfy` | `Wrappers` | `Option`, `Result` (`Ok`/`Err`) |
| `errors.dfy` | `Errors` | every exception the core raises, as one `Error` datatype |
| `base64.dfy` | `Base64` | `Encode` (java.util.Base64's encoder), `Decode` (its basic decoder, with the same acceptance rules) and the round trip |
| `charset.dfy` | `Charset` | `new String(bytes)` and `String.getBytes()`, one character per byte |
| `secrets_manager.dfy` | `SecretsManager` | secret names, reading (as functions of the store), writing (as functions and as the class `SecretStore`, whose map the methods update) |
| `fabric.dfy` | `Fabric` | configuration, users, peers, orderers, channels, proposal responses, and the `Event`s the service causes outside the process |
| `managed_blockchain.dfy` | `ManagedBlockchain` | the class `ManagedBlockchainService`, its specification predicates and the lemmas about them |

How the outside world is modelled:
- The Secrets Manager service is a `SecretStore` object. It holds `secrets: map<string, SecretValue>` and a fixed map `faults` that gives, per name, the AWS exception the service answers with.
- The CA, the peers, the orderer and the certificate file are methods of `ManagedBlockchainService` whose outcome is arbitrary within the exceptions the call declares. Each one appends what was asked and what came back to the ghost `trace`.
- Each service operation is specified by a predicate over the state and the trace before and after it: `SetupClientSpec`, `GetAdminSpec`, `EnrollUserToCaSpec`, `InitializeChannelSpec`, `QueryChaincodeSpec` and `InvokeChaincodeSpec`.
- With the trace, "no CA call", "exactly one enroll" and "nothing sent to the orderer" are counts over a slice of it (`Fabric.CaCalls`, `Fabric.OrdererSubmissions`).

Behaviour of the code worth noting:
- `getFabricEnrollment` catches only `SecretNotFoundException`, `NoSuchAlgorithmException` and `InvalidKeySpecException`. A key secret that is not valid Base64 therefore escapes as `IllegalArgumentException` (`IllegalArgument`). An AWS exception that `getSecret` does not catch escapes as it is. Neither becomes "enrollment not found".
- Because the two secrets are written one after the other, a user whose key secret exists without its certificate gets the old key paired with the new certificate on the next store (`PartialCredentialsMixOnStore`).
- Neither part of a secret name is escaped, so two organisations can share names (`SecretNamesCollideAcrossOrgs`).
- `initializeChannel` puts the certificate kept by `setupClient` under "pemBytes" as `getBytes()`, a byte[], but a certificate read again as the String itself (`PemProperty`). The two paths give the SDK values of different types, which may be a latent defect; nothing here shows how the SDK treats a String.

## Model

| member | source | states |
|---|---|---|
| Base64.CharOf | src/main/java/com/lambdajavablockchain/SecretsManagerUtil.java:135 | every value 0..63 maps to a character of the Base64 alphabet |
| Base64.IndexOf | src/main/java/com/lambdajavablockchain/SecretsManagerUtil.java:42 | the value of an alphabet character is the one `CharOf` maps back to it |
| Base64.Encode | src/main/java/com/lambdajavablockchain/SecretsManagerUtil.java:135 | the encoder's text is 4·⌈n/3⌉ characters, each from the alphabet or `=` |
| Base64.Decode | src/main/java/com/lambdajavablockchain/SecretsManagerUtil.java:42 | an accepted text of length L with p padding characters decodes to 3L/4 − p bytes |
| Base64.DecoderEdgeCases | src/main/java/com/lambdajavablockchain/SecretsManagerUtil.java:42 | "A", "A=", "AB=", "ABCD=", "ABC==", "AB=A" and "ABCDA" are rejected; "AB" and "AB==" give one byte, "ABC" and "ABC=" two |
| Base64.DecodeRejectsForeignChar | src/main/java/com/lambdajavablockchain/SecretsManagerUtil.java:42 | a character outside the alphabet and other than `=` is rejected at any position |
| Base64.DecodeRejectsLoneChar | src/main/java/com/lambdajavablockchain/SecretsManagerUtil.java:42 | a text that leaves a single character after its last full unit (length ≡ 1 mod 4) is rejected |
| Base64.DecodeEncode | src/main/java/com/lambdajavablockchain/SecretsManagerUtil.java:42 | decoding the encoder's text gives back every byte sequence |
| Charset.FromBytes | src/main/java/com/lambdajavablockchain/SecretsManagerUtil.java:80-81 | one character per byte, each a one-byte (ISO-8859-1) code |
| Charset.ToBytes | src/main/java/com/lambdajavablockchain/service/ManagedBlockchainService.java:176 | one byte per character: a one-byte (ISO-8859-1) character gives its own code, any other character gives '?' |
| Charset.ToBytesFromBytes | src/main/java/com/lambdajavablockchain/SecretsManagerUtil.java:80-81 | encoding the text of a byte sequence gives back the bytes |
| Charset.FromBytesToBytes | src/main/java/com/lambdajavablockchain/service/ManagedBlockchainService.java:176 | decoding the bytes of a text gives back the text exactly when every character has a one-byte code |
| SecretsManager.SecretNamesDistinct | src/main/java/com/lambdajavablockchain/SecretsManagerUtil.java:95-96 | a key secret name is never a certificate secret name, for any organisations and users |
| SecretsManager.SecretNamesInjective | src/main/java/com/lambdajavablockchain/SecretsManagerUtil.java:129-130 | within one organisation, different users get different key names and different certificate names |
| SecretsManager.UserIdOfSecretName | src/main/java/com/lambdajavablockchain/SecretsManagerUtil.java:95-96 | the user id is the slice of either name between the organisation prefix and the suffix |
| SecretsManager.SecretNamesCollideAcrossOrgs | src/main/java/com/lambdajavablockchain/SecretsManagerUtil.java:95-96 | ("a/b","c") and ("a","b/c") give the same names |
| SecretsManager.PkSecretName | src/main/java/com/lambdajavablockchain/SecretsManagerUtil.java:95 | the key secret name lies under `fabric/orgs/`, ends in `/pk` and has the length of its parts plus the separators |
| SecretsManager.CertsSecretName | src/main/java/com/lambdajavablockchain/SecretsManagerUtil.java:96 | the certificate secret name lies under `fabric/orgs/`, ends in `/certs` and has the length of its parts plus the separators |
| SecretsManager.GetSecret | src/main/java/com/lambdajavablockchain/SecretsManagerUtil.java:56-83 | SecretNotFound exactly for the four caught AWS faults or a missing secret; any other fault is passed on as that AWS exception; a present, fault-free string value is returned as stored; a present, fault-free binary value gives the text of its Base64 decoding when it decodes and IllegalArgument exactly when it does not |
| SecretsManager.BuildPrivateKeyFromString | src/main/java/com/lambdajavablockchain/SecretsManagerUtil.java:41-48 | a key exactly when the text decodes and the factory accepts the bytes, and then the key's encoding is the decoded bytes; IllegalArgument exactly when the decoder rejects the text; InvalidKeySpec exactly when the factory rejects the decoded bytes |
| SecretsManager.AsEnrollmentError | src/main/java/com/lambdajavablockchain/SecretsManagerUtil.java:113-116 | SecretNotFound and InvalidKeySpec become EnrollmentNotFound; every other error is passed on unchanged |
| SecretsManager.GetFabricEnrollment | src/main/java/com/lambdajavablockchain/SecretsManagerUtil.java:93-117 | an enrollment exactly when both secrets are readable and the key rebuilds; its certificate is the certs secret and its key the Base64 decoding of the pk secret; a missing secret or a key the factory rejects gives EnrollmentNotFound; key text the decoder rejects gives IllegalArgument; any other error of either read is passed on unchanged |
| SecretsManager.CreateSecretResult | src/main/java/com/lambdajavablockchain/SecretsManagerUtil.java:145-162 | true exactly for a name that is new and fault-free; an exception exactly for a fault other than InvalidRequest, and then it is that fault |
| SecretsManager.SecretsAfterCreate | src/main/java/com/lambdajavablockchain/SecretsManagerUtil.java:145-162 | no existing secret is overwritten, only `name` can be added, with the given value when the result is true, else nothing changes |
| SecretsManager.StoreResult | src/main/java/com/lambdajavablockchain/SecretsManagerUtil.java:127-137 | true whatever the two creates return (InvalidRequest and an existing name included); an exception exactly when a create throws, the certificate's fault first, else the key's |
| SecretsManager.SecretsAfterStore | src/main/java/com/lambdajavablockchain/SecretsManagerUtil.java:127-137 | no existing secret is overwritten and only the two names of (org, user) can be added; a created certs secret holds the certificate; the key secret, created only when the certs create did not throw, holds the Base64 of the key's encoding; a name not created stays as it was |
| SecretsManager.CreateThenGet | src/main/java/com/lambdajavablockchain/SecretsManagerUtil.java:145-162 | a secret created under a fresh name reads back as its value |
| SecretsManager.StoreThenLoad | src/main/java/com/lambdajavablockchain/SecretsManagerUtil.java:93-137 | for an (org, user) without secrets, store then load gives back the same certificate and key bytes |
| SecretsManager.StoreIsolatesUsers | src/main/java/com/lambdajavablockchain/SecretsManagerUtil.java:129-135 | storing one user's credentials leaves every other user's lookup in that organisation unchanged |
| SecretsManager.PartialCredentialsMixOnStore | src/main/java/com/lambdajavablockchain/SecretsManagerUtil.java:133-135 | with a key secret lacking its certificate, the lookup fails, the store succeeds, and the next lookup pairs the old key with the new certificate |
| SecretsManager.SecretStore.CreateSecret | src/main/java/com/lambdajavablockchain/SecretsManagerUtil.java:145-162 | result and new map are `CreateSecretResult` and `SecretsAfterCreate` of the old map |
| SecretsManager.SecretStore.StoreEnrollmentCredentials | src/main/java/com/lambdajavablockchain/SecretsManagerUtil.java:127-137 | result and new map are `StoreResult` and `SecretsAfterStore` of the old map |
| ManagedBlockchain.Endorsed | src/main/java/com/lambdajavablockchain/service/ManagedBlockchainService.java:387-390 | every response it keeps is successful |
| ManagedBlockchain.Rejected | src/main/java/com/lambdajavablockchain/service/ManagedBlockchainService.java:391-393 | every response it keeps is unsuccessful |
| ManagedBlockchain.QueryOutcome | src/main/java/com/lambdajavablockchain/service/ManagedBlockchainService.java:341-348 | InvalidArgumentException exactly when some response's payload cannot be read; otherwise the payload of the last response, whatever its status, or "" for none |
| ManagedBlockchain.QueryResult | src/main/java/com/lambdajavablockchain/service/ManagedBlockchainService.java:341-348 | the loop gives `QueryOutcome` of the responses |
| ManagedBlockchain.PartitionResponses | src/main/java/com/lambdajavablockchain/service/ManagedBlockchainService.java:383-395 | the loop reads every payload exactly when all are readable, and then gives the successful and the failed responses, each in order, which together are the responses as a multiset |
| ManagedBlockchain.EndorsedRejectedPartition | src/main/java/com/lambdajavablockchain/service/ManagedBlockchainService.java:383-395 | each response lands in exactly one list: the multisets add up and \|successful\| + \|failed\| = \|responses\| |
| ManagedBlockchain.NoRejectionIffAllEndorsed | src/main/java/com/lambdajavablockchain/service/ManagedBlockchainService.java:397-402 | `failed` is empty exactly when every response succeeded, and then `successful` is all the responses |
| ManagedBlockchain.InvokeOrdersOnlyEndorsed | src/main/java/com/lambdajavablockchain/service/ManagedBlockchainService.java:360-410 | at most one submission to the orderer; there is one exactly when the invoke succeeds, which is exactly when every payload was read and every peer endorsed; the full response set is what is submitted; "Proposal error" exactly when the payloads were read and some peer did not endorse |
| ManagedBlockchain.AgreeingPeersDecideQuery | src/main/java/com/lambdajavablockchain/service/ManagedBlockchainService.java:339-348 | when all peers answer with the same readable payload, the query returns it |
| ManagedBlockchain.SetupClientOnce | src/main/java/com/lambdajavablockchain/service/ManagedBlockchainService.java:44-47 | after a successful setup both clients are set and a second setup changes nothing and calls nothing |
| ManagedBlockchain.SetupClientFailureRetries | src/main/java/com/lambdajavablockchain/service/ManagedBlockchainService.java:48-67 | after a failed setup the client is absent and the user context unchanged, so the next setup tries again |
| ManagedBlockchain.GetAdminCaCalls | src/main/java/com/lambdajavablockchain/service/ManagedBlockchainService.java:246-272 | exactly one CA call when the admin's enrollment is not found, none otherwise; with it found, the store is unchanged |
| ManagedBlockchain.AdminEnrolledOnce | src/main/java/com/lambdajavablockchain/service/ManagedBlockchainService.java:246-272 | once getAdmin has succeeded, the next getAdmin writes nothing, calls nothing and returns the same user |
| ManagedBlockchain.CaFailureStoresNothing | src/main/java/com/lambdajavablockchain/service/ManagedBlockchainService.java:214-236 | a refused registration or enrollment is an application error and nothing is stored |
| ManagedBlockchain.EnrolledUserIsFound | src/main/java/com/lambdajavablockchain/service/ManagedBlockchainService.java:214-236 | a first enrollment makes exactly two CA calls and stores credentials the next lookup finds, leaving other users' lookups as they were |
| ManagedBlockchain.InitializedChannelIsConfigured | src/main/java/com/lambdajavablockchain/service/ManagedBlockchainService.java:166-203 | a channel returned is initialized and has exactly the configured peer and orderer; an existing channel is returned with no call |
| ManagedBlockchain.ChannelStepFailed | src/main/java/com/lambdajavablockchain/service/ManagedBlockchainService.java:183-191 | a build that stops at one step made the earlier steps, in order, all successful, and initializeChannel fails with "Unable to initialize channel" |
| ManagedBlockchain.AllStepsMade | src/main/java/com/lambdajavablockchain/service/ManagedBlockchainService.java:183-191 | a build whose six steps succeeded made them in order and gives the channel with the configured peer and orderer |
| ManagedBlockchain.AsAdminEnrollError | src/main/java/com/lambdajavablockchain/service/ManagedBlockchainService.java:88-93 | a CA exception becomes the AppException "Error enrolling Admin user"; every other error is passed on |
| ManagedBlockchain.PemProperty | src/main/java/com/lambdajavablockchain/service/ManagedBlockchainService.java:173-177 | with a kept certificate, its `getBytes()` bytes, which read back as the certificate exactly when it is ISO-8859-1 text; with an empty one, the String read again |
| ManagedBlockchain.ManagedBlockchainService.constructor | src/main/java/com/lambdajavablockchain/service/ManagedBlockchainService.java:42 | no client, no certificate, no channel, no user context, empty trace |
| ManagedBlockchain.ManagedBlockchainService.ReadCert | src/main/java/com/lambdajavablockchain/service/ManagedBlockchainService.java:51 | the certificate read is recorded with its outcome |
| ManagedBlockchain.ManagedBlockchainService.CreateHFCAClient | src/main/java/com/lambdajavablockchain/service/ManagedBlockchainService.java:299-311 | the CA client creation is recorded with the CA URL and certificate |
| ManagedBlockchain.ManagedBlockchainService.CreateHFClient | src/main/java/com/lambdajavablockchain/service/ManagedBlockchainService.java:279-291 | the client creation is recorded with its outcome |
| ManagedBlockchain.ManagedBlockchainService.Enroll | src/main/java/com/lambdajavablockchain/service/ManagedBlockchainService.java:261 | one recorded CA enroll, failing only with InvalidArgument or Enrollment exceptions |
| ManagedBlockchain.ManagedBlockchainService.Register | src/main/java/com/lambdajavablockchain/service/ManagedBlockchainService.java:222 | one recorded CA register, failing only with InvalidArgument or Registration exceptions |
| ManagedBlockchain.ManagedBlockchainService.CallSdk | src/main/java/com/lambdajavablockchain/service/ManagedBlockchainService.java:183-191 | one recorded channel-construction call |
| ManagedBlockchain.ManagedBlockchainService.QueryByChaincode | src/main/java/com/lambdajavablockchain/service/ManagedBlockchainService.java:339 | one recorded query, failing only with InvalidArgument or Proposal exceptions |
| ManagedBlockchain.ManagedBlockchainService.SendTransactionProposal | src/main/java/com/lambdajavablockchain/service/ManagedBlockchainService.java:380 | one recorded proposal, failing only with InvalidArgument or Proposal exceptions |
| ManagedBlockchain.ManagedBlockchainService.SendTransaction | src/main/java/com/lambdajavablockchain/service/ManagedBlockchainService.java:402-404 | one recorded submission of the given responses |
| ManagedBlockchain.ManagedBlockchainService.SetupClient | src/main/java/com/lambdajavablockchain/service/ManagedBlockchainService.java:44-68 | nothing happens when both clients are set; otherwise certificate, CA client and client are attempted in order, and a failing step leaves the client it would have set (and the user context) as it was; a new client has no user context |
| ManagedBlockchain.ManagedBlockchainService.GetAdmin | src/main/java/com/lambdajavablockchain/service/ManagedBlockchainService.java:246-272 | stored admin credentials give (ADMINUSER, ORG1, ORG1_MSP, enrollment) with no call and no write; not found gives one enroll(ADMINUSER, ADMINPWD) and, on success, the store of its credentials; other lookup errors are passed on |
| ManagedBlockchain.ManagedBlockchainService.EnrollAdmin | src/main/java/com/lambdajavablockchain/service/ManagedBlockchainService.java:74-94 | without both clients: the service error, with no lookup, call or write; otherwise getAdmin, CA failures reported as AppException, and the user context set to the admin on success |
| ManagedBlockchain.ManagedBlockchainService.SetUser | src/main/java/com/lambdajavablockchain/service/ManagedBlockchainService.java:101-117 | the lookup comes first and its error leaves the context; without a client, the service error; otherwise the context becomes (userId, ORG1, ORG1_MSP, enrollment) |
| ManagedBlockchain.ManagedBlockchainService.EnrollUserToCA | src/main/java/com/lambdajavablockchain/service/ManagedBlockchainService.java:214-236 | register(userId, ORG1, password) by the registrar, then enroll with the secret it returned, then the store of those credentials; a CA failure is an AppException with nothing stored |
| ManagedBlockchain.ManagedBlockchainService.EnrollUser | src/main/java/com/lambdajavablockchain/service/ManagedBlockchainService.java:126-139 | an enrolled user: no call, no write, context unchanged; a lookup error other than not found is passed on; otherwise enrollAdmin, and on its success enrollUserToCA with the admin as registrar, leaving the admin as the user context |
| ManagedBlockchain.ManagedBlockchainService.InitializeChannel | src/main/java/com/lambdajavablockchain/service/ManagedBlockchainService.java:166-203 | an initialized channel is returned with no call; with no certificate field, NullPointer; an empty certificate is read again and given as a String, a kept one as its bytes; without a client, NullPointer; otherwise the six SDK calls in order up to the first failure |
| ManagedBlockchain.ManagedBlockchainService.BuildChannel | src/main/java/com/lambdajavablockchain/service/ManagedBlockchainService.java:183-193 | the six SDK calls in order, up to the first that fails; the built channel when none does |
| ManagedBlockchain.ManagedBlockchainService.InitChannel | src/main/java/com/lambdajavablockchain/service/ManagedBlockchainService.java:145-150 | the channel field takes the built channel on success and keeps its value on failure; with a channel already set, nothing happens |
| ManagedBlockchain.ManagedBlockchainService.QueryChaincode | src/main/java/com/lambdajavablockchain/service/ManagedBlockchainService.java:323-349 | without channel or client, the service error and no call; otherwise one query with arguments exactly [args], whose result is `QueryOutcome` of the responses |
| ManagedBlockchain.ManagedBlockchainService.InvokeChaincode | src/main/java/com/lambdajavablockchain/service/ManagedBlockchainService.java:360-410 | without channel or client, the service error and no call; otherwise one proposal with wait time 2000; a ProposalException becomes a RuntimeException; an unreadable payload escapes as InvalidArgumentException and any failed response stops it before the orderer; otherwise all responses go to the orderer |

## Left out

- The REST controller, the reading of configuration from the environment (a `Config` value stands for it), the data classes with getters and setters only, and logging.
- The bodies of foreign calls: the certificate file read, the AWS client, `CryptoSuite`, `HFClient`/`HFCAClient` creation, the CA's register and enroll, peer and orderer construction, `Channel.initialize`, queries and proposals. Each one is a method with an arbitrary outcome, recorded in the trace.
- The "EC" `KeyFactory` and PKCS#8 decoding: the factory is a parameter, `KeyFactory = seq<byte> -> bool`. `NoSuchAlgorithmException` is not modelled; it could only come from a JVM without EC support.
- A `PrivateKey` is identified with its PKCS#8 encoding: the key that `generatePrivate` builds is taken to return from `getEncoded()` the bytes it was built from. `StoreThenLoad`'s "same key bytes" rests on that.
- `client.setUserContext`'s own validation: the SDK may throw `InvalidArgumentException` there, and the model always accepts the user.
- `CompletableFuture` handling after `sendTransaction`: only the submission is recorded, not its completion or failure.
- Concurrency: the unguarded lazy setup of the clients is modelled for one caller at a time.
- Charsets: `new String(bytes)` and `String.getBytes()` use the platform's charset. The model maps each byte to the character with that value and back (ISO-8859-1, with '?' for a character that has no byte). There is no other text encoding or decoding.
- The iteration order of the SDK's response collections is taken as the order of a sequence.
- ManagedBlockchain.QueryResult, ManagedBlockchain.PartitionResponses: whether `getChaincodeActionResponsePayload` throws is a property of each response (`payload: Option<…>`), not tied to its status. The SDK's own rule (for instance, that it throws for every response that is not SUCCESS) is not part of this model, so the model allows refusing peers to surface either as InvalidArgumentException or as "Proposal error".
- What the SDK makes of a String under "pemBytes": the model records which of String and byte[] is given, not how the peer and orderer use it.
- `queryChaincode` and `invokeChaincode` receive the client and channel as arguments. They are modelled as `hasClient: bool` and `channel: Option<Channel>`.
- SecretsManager.SecretStore: an AWS fault is a fixed property of a secret name. The model does not capture a service that answers a name differently from one request to the next.
