/**
 * The exceptions that the service and its secret-store helper throw or let
 * through, as one error datatype.  The four exception classes of the
 * application (SecretNotFoundException, EnrollmentNotFoundException,
 * AppException, ManagedBlockchainServiceException) are variants; exceptions
 * of the AWS, Fabric and Fabric CA SDKs and of the JDK that are passed on
 * unchanged are variants that carry the fault.
 */
module Errors {

  /** Faults the AWS Secrets Manager service can answer a request with
      (apart from ResourceNotFound and ResourceExists, which follow from the
      store's contents). */
  datatype AwsFault =
    | DecryptionFailure
    | InvalidParameter
    | InvalidRequest
    | InternalServiceError
    | OtherServiceError   // any other AWSSecretsManagerException, e.g. access denied

  /** Faults the Fabric CA client raises from enroll and register. */
  datatype CaFault = CaInvalidArgument | RegistrationFailed | EnrollmentFailed

  /** Faults the Fabric SDK raises from channel and proposal operations. */
  datatype SdkFault = InvalidArgument | ProposalFailure | TransactionFailure

  /** The message an AppException carries. */
  datatype AppReason =
    | TlsCertNotFound      // "Managed Blockchain TLS certificate not found"
    | AdminEnrollFailed    // "Error enrolling Admin user"
    | UserEnrollFailed     // "Error enrolling user to CA"
    | ChannelInitFailed    // "Unable to initialize channel"

  /** The message a ManagedBlockchainServiceException carries. */
  datatype ServiceReason =
    | ClientSetupFailed        // "Error setting up client"
    | ClientsNotInitialized    // "Client/CA Client not initialized!"
    | ClientNotInitialized     // "Client not initialized!"
    | ChannelNotInitialized    // "Channel/Client not initialized!"

  /** The message of a RuntimeException thrown by invokeChaincode. */
  datatype RuntimeReason =
    | ProposalRejected     // "Proposal error": some peer did not endorse
    | ProposalException    // "Proposal exception": sending the proposal failed

  datatype Error =
    | SecretNotFound
    | EnrollmentNotFound
    | InvalidKeySpec                  // the EC KeyFactory rejected the PKCS#8 bytes
    | IllegalArgument                 // the Base64 decoder rejected its input
    | NullPointer
    | AwsError(aws: AwsFault)         // AWS exception nobody catches
    | CaError(ca: CaFault)            // Fabric CA exception passed on
    | SdkError(sdk: SdkFault)         // Fabric SDK exception passed on
    | AppError(app: AppReason)
    | ServiceError(service: ServiceReason)
    | RuntimeError(runtime: RuntimeReason)
}
