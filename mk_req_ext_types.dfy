/**
 * The records and collaborators of krb5_mk_req_extended
 * (src/lib/krb5/krb/mk_req_ext.c).  The ASN.1 codecs, the credential
 * fetch, the key-type registry, key generation, the clock and the
 * cryptosystem are collaborators: fields of Services whose results the
 * model only passes along.
 */
module MkReqTypes {
  import opened Wrappers
  import opened Krb5Codes

  /** AP_OPTS_USE_SESSION_KEY */
  const ApOptsUseSessionKey: bv32 := 0x4000_0000
  /** ETYPE_UNKNOWN: the keyblock does not name an encryption type. */
  const EtypeUnknown: int := 0x1ff

  datatype Principal = Principal(name: seq<bv8>)
  datatype Checksum = Checksum(checksumType: int, contents: seq<bv8>)
  datatype Keyblock = Keyblock(keytype: int, etype: int, contents: seq<bv8>)

  /** krb5_creds, as far as krb5_mk_req_extended reads it; an empty ticket
   *  means that no ticket has been obtained yet. */
  datatype Creds = Creds(client: Principal, ticket: seq<bv8>, keyblock: Keyblock, authdata: Option<seq<bv8>>)

  /** A decoded krb5_ticket; its structure belongs to the decoder. */
  datatype Ticket = Ticket(fields: seq<bv8>)

  /** krb5_authenticator.  client, checksum and authorization data are
   *  references into the caller's data; None is a NULL pointer. */
  datatype Authenticator = Authenticator(
    client: Option<Principal>,
    checksum: Option<Checksum>,
    subkey: Option<Keyblock>,
    seqNumber: int,
    ctime: int,
    cusec: int,
    authorizationData: Option<seq<bv8>>)

  /** krb5_enc_data of the request: etype, kvno and the ciphertext with its
   *  length field. */
  datatype EncData = EncData(etype: int, kvno: int, length: nat, ciphertext: seq<bv8>)

  /** krb5_ap_req */
  datatype ApReq = ApReq(apOptions: bv32, ticket: Ticket, authenticator: EncData)

  datatype Fetched = Fetched(code: Code, creds: Creds)
  datatype DecodedTicket = DecodedTicket(code: Code, ticket: Ticket)
  datatype NewKey = NewKey(code: Code, key: Keyblock)
  datatype Clock = Clock(code: Code, seconds: int, micros: int)
  datatype Encoded = Encoded(code: Code, bytes: seq<bv8>)

  /**
   * The collaborators.  Allocation outcomes are flags; residue gives the
   * stale bytes realloc leaves in the part of a buffer it adds.
   */
  datatype Services = Services(
    getCredentials: (bv32, Creds) -> Fetched,
    validKeytype: int -> bool,
    protoEnctype: int -> int,
    validEtype: int -> bool,
    decodeTicket: seq<bv8> -> DecodedTicket,
    generateSubkey: Keyblock -> NewKey,
    copyKeyblock: Code,
    usTimeofday: Clock,
    encodeAuthenticator: Authenticator -> Encoded,
    encryptSize: (nat, int) -> nat,
    reallocOk: bool,
    residue: nat -> bv8,
    mallocOk: bool,
    processKey: (int, Keyblock) -> Code,
    encrypt: (seq<bv8>, nat, int, Keyblock) -> Encoded,
    finishKey: Code,
    encodeApReq: ApReq -> Encoded)

  /**
   * What the code takes for granted of the cryptosystem: the ciphertext is
   * never shorter than the plaintext, and encryption fills exactly the
   * buffer krb5_encrypt_size asked for.
   */
  ghost predicate ValidServices(svc: Services) {
    (forall n: nat, e: int :: svc.encryptSize(n, e) >= n)
    && (forall p: seq<bv8>, n: nat, e: int, k: Keyblock ::
          |svc.encrypt(p, n, e, k).bytes| == svc.encryptSize(n, e))
  }

  // ---------------------------------------------------------------------
  // Resources and return points

  /** What the routine allocates and must give back. */
  datatype Res =
    | DecodedTkt    // request.ticket
    | Subkey        // *newkey
    | SubkeyCopy    // the copy krb5_copy_keyblock makes for authent->subkey
    | ScratchBox    // the krb5_data struct scratch
    | ScratchData   // scratch->data, the (padded) plaintext
    | CipherBuf     // request.authenticator.ciphertext.data
    | KeySchedule   // what krb5_process_key sets up in the eblock
    | OutBuf        // the encoded request handed to *outbuf

  /** The authenticator's pointer fields that belong to the caller. */
  datatype CallerField =
    | CallerChecksum  // the checksum the caller passed
    | CallerClient    // creds->client
    | CallerAuthdata  // creds->authdata

  /** Where krb5_mk_req_extended returns. */
  datatype Exit =
    | NoTicket            // line 97
    | FetchFailed         // line 104
    | BadKeytype          // line 108
    | BadEtype            // line 116
    | TicketUndecodable   // line 121
    | SubkeyFailed        // line 127
    | AuthenticatorFailed // line 136
    | EncodeFailed        // line 144
    | ReallocFailed       // line 174
    | MallocFailed        // line 181
    | ProcessKeyFailed    // line 193
    | EncryptFailed       // line 202
    | FinishKeyFailed     // line 210
    | ApReqEncodeFailed   // line 219, encode_krb5_ap_req failed
    | Sent                // line 219, success

  /** The exits of the checks before the ticket is decoded (lines 95-116). */
  predicate Rejected(exit: Exit) {
    match exit
    case NoTicket | FetchFailed | BadKeytype | BadEtype => true
    case _ => false
  }

  /** The exits between decoding the ticket and encoding the authenticator
   *  (lines 119-145). */
  predicate Abandoned(exit: Exit) {
    match exit
    case TicketUndecodable | SubkeyFailed | AuthenticatorFailed | EncodeFailed => true
    case _ => false
  }

  /** The exits after the authenticator was encoded. */
  predicate PastEncoding(exit: Exit) {
    match exit
    case ReallocFailed | MallocFailed | ProcessKeyFailed | EncryptFailed | FinishKeyFailed | ApReqEncodeFailed | Sent =>
      true
    case _ => false
  }

  /** The exits that leave through the goto chain. */
  predicate Unwound(exit: Exit) {
    match exit
    case ReallocFailed | MallocFailed | ProcessKeyFailed | EncryptFailed => true
    case _ => false
  }

  /** The exits after the ciphertext buffer was allocated. */
  predicate Enciphering(exit: Exit) {
    match exit
    case ProcessKeyFailed | EncryptFailed | FinishKeyFailed | ApReqEncodeFailed | Sent => true
    case _ => false
  }

  /** The exits after krb5_finish_key. */
  predicate Finished(exit: Exit) {
    match exit
    case FinishKeyFailed | ApReqEncodeFailed | Sent => true
    case _ => false
  }

  /** The exits after krb5_generate_authenticator was called. */
  predicate AuthenticatorBuilt(exit: Exit) {
    match exit
    case NoTicket | FetchFailed | BadKeytype | BadEtype | TicketUndecodable | SubkeyFailed => false
    case _ => true
  }
}
