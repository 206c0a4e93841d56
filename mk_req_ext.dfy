/**
 * krb5_mk_req_extended and krb5_generate_authenticator
 * (src/lib/krb5/krb/mk_req_ext.c): build a KRB_AP_REQ from credentials.
 *
 * Every allocation and release the routine performs is recorded in a ghost
 * Ledger; the method ends with the ledger MkReqLedger.ExitLedger gives for
 * its return point, and the lemmas of MkReqLedger state what that implies.
 */
module MkReqExt {
  import opened Wrappers
  import opened Krb5Codes
  import opened MkReqTypes
  import opened MkReqLedger

  // ---------------------------------------------------------------------
  // Validation and the choice of encryption type (lines 95-116)

  /** The outcome of the checks before the ticket is decoded. */
  datatype Prepared = Prepared(code: Code, failure: Option<Exit>, fetched: bool, creds: Creds, etype: int)

  function UseSessionKey(apReqOptions: bv32): bool {
    apReqOptions & ApOptsUseSessionKey != 0
  }

  /** The encryption type: the key type's protocol default when the keyblock
   *  does not name one. */
  function ChooseEtype(svc: Services, kb: Keyblock): int {
    if kb.etype == EtypeUnknown then svc.protoEnctype(kb.keytype) else kb.etype
  }

  /**
   * Lines 95-116.  A session-key request without a ticket is refused before
   * anything is fetched; credentials are fetched only when the ticket is
   * empty and a fetch error is returned as it is; the key type is checked
   * before the encryption type.
   */
  function Prepare(svc: Services, apReqOptions: bv32, kdcOptions: bv32, creds: Creds): (p: Prepared)
    ensures p.failure == Some(NoTicket) <==> UseSessionKey(apReqOptions) && |creds.ticket| == 0
    ensures p.failure == Some(NoTicket) ==> p.code == NoTktSupplied && !p.fetched
    ensures p.fetched <==> !UseSessionKey(apReqOptions) && |creds.ticket| == 0
    ensures p.creds == (if p.fetched then svc.getCredentials(kdcOptions, creds).creds else creds)
    ensures p.failure == Some(FetchFailed) <==> p.fetched && svc.getCredentials(kdcOptions, creds).code != Ok
    ensures p.failure == Some(FetchFailed) ==> p.code == svc.getCredentials(kdcOptions, creds).code
    ensures p.failure == Some(BadKeytype) <==>
              p.failure != Some(NoTicket) && p.failure != Some(FetchFailed)
              && !svc.validKeytype(p.creds.keyblock.keytype)
    ensures p.failure == Some(BadKeytype) ==> p.code == ProgKeytypeNosupp
    ensures p.failure == Some(BadEtype) <==>
              p.failure != Some(NoTicket) && p.failure != Some(FetchFailed) && p.failure != Some(BadKeytype)
              && !svc.validEtype(p.etype)
    ensures p.failure == Some(BadEtype) ==> p.code == ProgEtypeNosupp
    ensures p.failure.None? <==> p.code == Ok
    ensures p.failure.None? || Rejected(p.failure.value)
    ensures (p.failure.None? || p.failure.value == BadEtype) ==>
              p.etype == ChooseEtype(svc, p.creds.keyblock)
  {
    if UseSessionKey(apReqOptions) && |creds.ticket| == 0 then
      Prepared(NoTktSupplied, Some(NoTicket), false, creds, 0)
    else
      var fetched := |creds.ticket| == 0;
      var f := if fetched then svc.getCredentials(kdcOptions, creds) else Fetched(Ok, creds);
      if f.code != Ok then
        Prepared(f.code, Some(FetchFailed), true, f.creds, 0)
      else if !svc.validKeytype(f.creds.keyblock.keytype) then
        Prepared(ProgKeytypeNosupp, Some(BadKeytype), fetched, f.creds, 0)
      else
        var etype := ChooseEtype(svc, f.creds.keyblock);
        if !svc.validEtype(etype) then
          Prepared(ProgEtypeNosupp, Some(BadEtype), fetched, f.creds, etype)
        else
          Prepared(Ok, None, fetched, f.creds, etype)
  }

  // ---------------------------------------------------------------------
  // krb5_generate_authenticator (lines 234-258)

  /**
   * Fills the authenticator: client and checksum by reference, the sequence
   * number and authorization data as given, the time from the clock.  A
   * subkey is first copied and then overwritten by the key itself, so the
   * authenticator shares the caller's keyblock and the copy is lost.
   */
  method GenerateAuthenticator(svc: Services, client: Principal, cksum: Option<Checksum>, key: Option<Keyblock>,
                               seqNumber: int, authorization: Option<seq<bv8>>)
    returns (code: Code, auth: Authenticator)
    ensures code == (if key.Some? && svc.copyKeyblock != Ok then svc.copyKeyblock else svc.usTimeofday.code)
    ensures code == Ok ==>
              auth == Authenticator(Some(client), cksum, key, seqNumber,
                                    svc.usTimeofday.seconds, svc.usTimeofday.micros, authorization)
  {
    auth := Authenticator(None, None, None, 0, 0, 0, None);
    auth := auth.(client := Some(client));
    auth := auth.(checksum := cksum);
    if key.Some? {
      code := svc.copyKeyblock;
      if code != Ok {
        return;
      }
      auth := auth.(subkey := key);
    } else {
      auth := auth.(subkey := None);
    }
    auth := auth.(subkey := key);
    auth := auth.(seqNumber := seqNumber);
    auth := auth.(authorizationData := authorization);
    code := svc.usTimeofday.code;
    auth := auth.(ctime := svc.usTimeofday.seconds, cusec := svc.usTimeofday.micros);
  }

  // ---------------------------------------------------------------------
  // Buffers

  /** The plaintext grown to n bytes with a zero tail, as handed to the
   *  encryption routine. */
  function Padded(plain: seq<bv8>, n: nat): (p: seq<bv8>)
    requires |plain| <= n
    ensures |p| == n && p[..|plain|] == plain
    ensures forall i :: |plain| <= i < n ==> p[i] == 0
  {
    plain + seq(n - |plain|, _ => 0)
  }

  predicate AllZero(s: seq<bv8>) {
    forall i :: 0 <= i < |s| ==> s[i] == 0
  }

  /** The buffer an encoder returns. */
  method NewBuffer(s: seq<bv8>) returns (a: array<bv8>)
    ensures fresh(a) && a[..] == s
  {
    a := new bv8[|s|](i requires 0 <= i < |s| => s[i]);
  }

  /** realloc to n bytes: the old contents kept, the added bytes whatever the
   *  heap held there. */
  method Realloc(a: array<bv8>, n: nat, residue: nat -> bv8) returns (b: array<bv8>)
    requires a.Length <= n
    ensures fresh(b) && b.Length == n
    ensures b[..a.Length] == a[..]
    ensures forall i :: a.Length <= i < n ==> b[i] == residue(i)
  {
    b := new bv8[n](i requires 0 <= i < n reads a => if i < a.Length then a[i] else residue(i));
  }

  /** memset(a + from, 0, to - from) */
  method Zero(a: array<bv8>, from: nat, to: nat)
    requires from <= to <= a.Length
    modifies a
    ensures a[..from] == old(a[..from]) && a[to..] == old(a[to..])
    ensures forall i :: from <= i < to ==> a[i] == 0
  {
    var i := from;
    while i < to
      invariant from <= i <= to
      invariant a[..from] == old(a[..from]) && a[to..] == old(a[to..])
      invariant forall j :: from <= j < i ==> a[j] == 0
    {
      a[i] := 0;
      i := i + 1;
    }
  }

  /** The encryption routine writing its output into the ciphertext buffer. */
  method Fill(a: array<bv8>, s: seq<bv8>)
    requires |s| == a.Length
    modifies a
    ensures a[..] == s
  {
    var i := 0;
    while i < a.Length
      invariant 0 <= i <= a.Length
      invariant a[..i] == s[..i]
    {
      a[i] := s[i];
      i := i + 1;
    }
  }

  /**
   * Lines 169-177: grow the plaintext to the ciphertext length and zero the
   * added tail; the plaintext itself is kept.
   */
  method Pad(scratch: array<bv8>, n: nat, residue: nat -> bv8) returns (padded: array<bv8>)
    requires scratch.Length <= n
    ensures fresh(padded) && padded[..] == Padded(scratch[..], n)
  {
    padded := Realloc(scratch, n, residue);
    Zero(padded, scratch.Length, n);
    assert padded[..] == Padded(scratch[..], n) by {
      assert padded[..scratch.Length] == scratch[..];
    }
  }

  /** cleanup_scratch: wipe the plaintext length, then free data and struct;
   *  the ledger records the wipe ahead of the two releases. */
  method CleanupScratch(scratch: array<bv8>, plainLen: nat, ghost l: Ledger) returns (ghost released: Ledger)
    requires plainLen <= scratch.Length
    modifies scratch
    ensures AllZero(scratch[..plainLen]) && scratch[plainLen..] == old(scratch[plainLen..])
    ensures released == ReleaseScratch(l)
  {
    Zero(scratch, 0, plainLen);
    released := ReleaseScratch(l);
  }

  /** cleanup_encpart: wipe the whole ciphertext buffer, free it, and reset
   *  the request's length and pointer; the ledger records the wipe ahead of
   *  the release. */
  method CleanupEncpart(ct: array<bv8>, request: ApReq, ghost l: Ledger) returns (reset: ApReq, ghost released: Ledger)
    modifies ct
    ensures AllZero(ct[..])
    ensures reset == request.(authenticator := request.authenticator.(length := 0, ciphertext := []))
    ensures released == ReleaseEncpart(l)
  {
    Zero(ct, 0, ct.Length);
    reset := request.(authenticator := request.authenticator.(length := 0, ciphertext := []));
    released := ReleaseEncpart(l);
  }

  // ---------------------------------------------------------------------
  // krb5_mk_req_extended (lines 68-231)

  /** The authenticator krb5_generate_authenticator builds from the
   *  credentials, the checksum and the subkey. */
  function AuthenticatorFor(svc: Services, creds: Creds, checksum: Option<Checksum>, subkey: Option<Keyblock>,
                            sequence: int): Authenticator {
    Authenticator(Some(creds.client), checksum, subkey, sequence,
                  svc.usTimeofday.seconds, svc.usTimeofday.micros, creds.authdata)
  }

  /** What the encryption routine returns for the encoded authenticator
   *  plain, padded with zeros to the ciphertext length. */
  function Encryption(svc: Services, etype: int, key: Keyblock, plain: seq<bv8>): Encoded
    requires ValidServices(svc)
  {
    var size := svc.encryptSize(|plain|, etype);
    svc.encrypt(Padded(plain, size), |plain|, etype, key)
  }

  /** The request carrying the sealed authenticator: key version number 0 and
   *  the ciphertext length krb5_encrypt_size gives for the plaintext. */
  function RequestFor(svc: Services, apOptions: bv32, ticket: Ticket, etype: int, key: Keyblock, plain: seq<bv8>): ApReq
    requires ValidServices(svc)
  {
    ApReq(apOptions, ticket,
          EncData(etype, 0, svc.encryptSize(|plain|, etype), Encryption(svc, etype, key, plain).bytes))
  }

  /**
   * Lines 169-207: which step after the authenticator's encoding fails
   * first, and what it returns: ENOMEM when realloc or malloc fails,
   * otherwise the failing step's own code.
   */
  predicate SealOutcome(svc: Services, etype: int, key: Keyblock, plain: seq<bv8>, exit: Exit, ret: Code)
    requires ValidServices(svc)
  {
    (exit == ReallocFailed <==> !svc.reallocOk)
    && (exit == MallocFailed <==> svc.reallocOk && !svc.mallocOk)
    && (exit == ProcessKeyFailed <==> svc.reallocOk && svc.mallocOk && svc.processKey(etype, key) != Ok)
    && (exit == EncryptFailed <==>
          svc.reallocOk && svc.mallocOk && svc.processKey(etype, key) == Ok
          && Encryption(svc, etype, key, plain).code != Ok)
    && (exit == FinishKeyFailed <==>
          svc.reallocOk && svc.mallocOk && svc.processKey(etype, key) == Ok
          && Encryption(svc, etype, key, plain).code == Ok && svc.finishKey != Ok)
    && ((exit == ReallocFailed || exit == MallocFailed) ==> ret == NoMemory)
    && (exit == ProcessKeyFailed ==> ret == svc.processKey(etype, key))
    && (exit == EncryptFailed ==> ret == Encryption(svc, etype, key, plain).code)
    && (exit == FinishKeyFailed ==> ret == svc.finishKey)
  }

  /**
   * Lines 213-219: the last step.  Both exits after krb5_finish_key return
   * encode_krb5_ap_req's code for the request sent, and only Sent hands the
   * encoding to the caller.
   */
  predicate Delivered(svc: Services, exit: Exit, ret: Code, sent: ApReq, outbuf: Option<seq<bv8>>) {
    ((exit == ApReqEncodeFailed || exit == Sent) ==> ret == svc.encodeApReq(sent).code)
    && outbuf == (if exit == Sent then Some(svc.encodeApReq(sent).bytes) else None)
  }

  /**
   * Lines 158-219: pad the encoded authenticator plain to the ciphertext
   * length, encrypt it in the session key, and encode the request.  held is
   * the ledger once the authenticator was encoded.  Each failure is the
   * first step that fails, in the order of the code.
   */
  method Seal(svc: Services, etype: int, key: Keyblock, plain: seq<bv8>, request0: ApReq, newkey: bool, ghost held: Ledger)
    returns (ret: Code, outbuf: Option<seq<bv8>>, ghost exit: Exit, ghost ledger: Ledger, ghost sent: ApReq)
    requires ValidServices(svc)
    ensures PastEncoding(exit) && ledger == SealingLedger(exit, held, newkey)
    ensures SealOutcome(svc, etype, key, plain, exit, ret)
    ensures (exit == ApReqEncodeFailed || exit == Sent) ==>
              sent == RequestFor(svc, request0.apOptions, request0.ticket, etype, key, plain)
    ensures ret == Ok <==> exit == Sent
    ensures Delivered(svc, exit, ret, sent, outbuf)
  {
    var request := request0;
    ledger := held;
    outbuf := None;
    sent := request0;
    var scratch := NewBuffer(plain);
    var plainLen := scratch.Length;
    var size := svc.encryptSize(plainLen, etype);
    request := request.(authenticator := EncData(etype, 0, size, []));
    if !svc.reallocOk {
      ledger := CleanTicket(Free(ledger, ScratchBox), newkey);
      ret, exit := NoMemory, ReallocFailed;
      return;
    }
    scratch := Pad(scratch, size, svc.residue);
    if !svc.mallocOk {
      ledger := CleanupScratch(scratch, plainLen, ledger);
      ledger := CleanTicket(ledger, newkey);
      ret, exit := NoMemory, MallocFailed;
      return;
    }
    var ct := new bv8[size];
    ret, outbuf, exit, ledger, sent := Encipher(svc, etype, key, plain, scratch, ct, request, newkey, held);
  }

  /**
   * Lines 184-229: with the padded plaintext in scratch and the ciphertext
   * buffer ct just allocated, process the key, encrypt, wipe and free the
   * plaintext, finish the key and encode the request.  held is the ledger
   * once the authenticator was encoded.
   */
  method Encipher(svc: Services, etype: int, key: Keyblock, plain: seq<bv8>, scratch: array<bv8>, ct: array<bv8>,
                  request0: ApReq, newkey: bool, ghost held: Ledger)
    returns (ret: Code, outbuf: Option<seq<bv8>>, ghost exit: Exit, ghost ledger: Ledger, ghost sent: ApReq)
    requires ValidServices(svc) && scratch != ct
    requires scratch[..] == Padded(plain, svc.encryptSize(|plain|, etype))
    requires ct.Length == svc.encryptSize(|plain|, etype)
    modifies scratch, ct
    ensures Enciphering(exit) && ledger == SealingLedger(exit, held, newkey)
    ensures exit == ProcessKeyFailed <==> svc.processKey(etype, key) != Ok
    ensures exit == EncryptFailed <==>
              svc.processKey(etype, key) == Ok && Encryption(svc, etype, key, plain).code != Ok
    ensures exit == FinishKeyFailed <==>
              svc.processKey(etype, key) == Ok && Encryption(svc, etype, key, plain).code == Ok && svc.finishKey != Ok
    ensures exit == ProcessKeyFailed ==> ret == svc.processKey(etype, key)
    ensures exit == EncryptFailed ==> ret == Encryption(svc, etype, key, plain).code
    ensures exit == FinishKeyFailed ==> ret == svc.finishKey
    ensures (exit == ApReqEncodeFailed || exit == Sent) ==>
              sent == request0.(authenticator := request0.authenticator.(ciphertext := Encryption(svc, etype, key, plain).bytes))
              && ret == svc.encodeApReq(sent).code
    ensures ret == Ok <==> exit == Sent
    ensures outbuf == (if exit == Sent then Some(svc.encodeApReq(sent).bytes) else None)
  {
    var request := request0;
    var plainLen := |plain|;
    outbuf := None;
    sent := request0;
    ledger := Take(held, CipherBuf);
    var processed := svc.processKey(etype, key);
    if processed != Ok {
      request, ledger := CleanupEncpart(ct, request, ledger);
      ledger := CleanupScratch(scratch, plainLen, ledger);
      ledger := CleanTicket(ledger, newkey);
      ret, exit := processed, ProcessKeyFailed;
      return;
    }
    ledger := Take(ledger, KeySchedule);
    var sealed := svc.encrypt(scratch[..], plainLen, etype, key);
    if sealed.code != Ok {
      ledger := Free(ledger, KeySchedule);
      request, ledger := CleanupEncpart(ct, request, ledger);
      ledger := CleanupScratch(scratch, plainLen, ledger);
      ledger := CleanTicket(ledger, newkey);
      ret, exit := sealed.code, EncryptFailed;
      return;
    }
    Fill(ct, sealed.bytes);
    request := request.(authenticator := request.authenticator.(ciphertext := ct[..]));
    ledger := CleanupScratch(scratch, plainLen, ledger);
    ledger := Free(ledger, KeySchedule);
    if svc.finishKey != Ok {
      request, ledger := CleanupEncpart(ct, request, ledger);
      ret, exit := svc.finishKey, FinishKeyFailed;
      return;
    }
    sent := request;
    var out := svc.encodeApReq(request);
    ret := out.code;
    if ret == Ok {
      outbuf := Some(out.bytes);
      ledger := Take(ledger, OutBuf);
      exit := Sent;
    } else {
      exit := ApReqEncodeFailed;
    }
    ledger := Free(ledger, DecodedTkt);
    request, ledger := CleanupEncpart(ct, request, ledger);
  }

  /**
   * Lines 119-156: decode the ticket, generate the subkey, build and encode
   * the authenticator, null the caller's fields in it and either hand it to
   * the caller or free its contents.  stopped: the routine returns here, at
   * exit, with the ledger ExitLedger gives; otherwise ledger is what is held
   * once the authenticator was encoded, and plain is its encoding.
   */
  method Authenticate(svc: Services, creds: Creds, checksum: Option<Checksum>, sequence: int,
                      wantNewkey: bool, wantAuthent: bool)
    returns (ret: Code, stopped: bool, ticket: Ticket, plain: seq<bv8>, newkey: Option<Keyblock>,
             authent: Option<Authenticator>, ghost exit: Exit, ghost ledger: Ledger)
    ensures stopped <==> ret != Ok
    ensures stopped ==> Abandoned(exit)
                        && ledger == ExitLedger(exit, wantNewkey, wantNewkey && svc.copyKeyblock == Ok, wantAuthent)
                        && authent == None
    ensures !stopped ==> ledger == AuthenticatorEncoded(wantNewkey, wantNewkey && svc.copyKeyblock == Ok, wantAuthent)
    ensures stopped && exit == TicketUndecodable <==> svc.decodeTicket(creds.ticket).code != Ok
    ensures stopped && exit == TicketUndecodable ==> ret == svc.decodeTicket(creds.ticket).code
    ensures stopped && exit == SubkeyFailed <==>
              svc.decodeTicket(creds.ticket).code == Ok && wantNewkey && svc.generateSubkey(creds.keyblock).code != Ok
    ensures stopped && exit == SubkeyFailed ==> ret == svc.generateSubkey(creds.keyblock).code
    ensures var built := svc.decodeTicket(creds.ticket).code == Ok
                         && (wantNewkey ==> svc.generateSubkey(creds.keyblock).code == Ok);
            && newkey == (if wantNewkey && built then Some(svc.generateSubkey(creds.keyblock).key) else None)
            && (stopped && exit == AuthenticatorFailed <==>
                  built && ((wantNewkey && svc.copyKeyblock != Ok) || svc.usTimeofday.code != Ok))
    ensures stopped && exit == AuthenticatorFailed ==>
              ret == (if wantNewkey && svc.copyKeyblock != Ok then svc.copyKeyblock else svc.usTimeofday.code)
    ensures var auth := AuthenticatorFor(svc, creds, checksum, newkey, sequence);
            && (stopped && exit == EncodeFailed <==>
                  (!stopped || exit == EncodeFailed) && svc.encodeAuthenticator(auth).code != Ok)
            && (stopped && exit == EncodeFailed ==> ret == svc.encodeAuthenticator(auth).code)
            && (!stopped ==>
                  ticket == svc.decodeTicket(creds.ticket).ticket
                  && plain == svc.encodeAuthenticator(auth).bytes
                  && authent == (if wantAuthent
                                 then Some(auth.(client := None, checksum := None, authorizationData := None))
                                 else None))
  {
    newkey, authent, plain := None, None, [];
    ledger := Start;
    exit := Sent;
    var decoded := svc.decodeTicket(creds.ticket);
    ticket := decoded.ticket;
    if decoded.code != Ok {
      ret, stopped, exit := decoded.code, true, TicketUndecodable;
      return;
    }
    ledger := Take(ledger, DecodedTkt);
    if wantNewkey {
      var generated := svc.generateSubkey(creds.keyblock);
      if generated.code != Ok {
        ledger := CleanTicket(ledger, false);
        ret, stopped, exit := generated.code, true, SubkeyFailed;
        return;
      }
      newkey := Some(generated.key);
      ledger := Take(ledger, Subkey);
    }
    var code, auth := GenerateAuthenticator(svc, creds.client, checksum, newkey, sequence, creds.authdata);
    ledger := TakeIf(ledger, SubkeyCopy, newkey.Some? && svc.copyKeyblock == Ok);
    assert ledger == KeysMade(wantNewkey, wantNewkey && svc.copyKeyblock == Ok);
    if code != Ok {
      ledger := CleanTicket(ledger, wantNewkey);
      ret, stopped, exit := code, true, AuthenticatorFailed;
      return;
    }
    var encoded := svc.encodeAuthenticator(auth);
    if encoded.code != Ok {
      ledger := CleanTicket(ledger, wantNewkey);
      ret, stopped, exit := encoded.code, true, EncodeFailed;
      return;
    }
    ret, stopped, plain := Ok, false, encoded.bytes;
    ledger := Take(Take(ledger, ScratchBox), ScratchData);
    auth := auth.(client := None, checksum := None, authorizationData := None);
    if wantAuthent {
      authent := Some(auth);
    } else {
      // the subkey is *newkey itself
      ledger := FreeContents(ledger, auth);
    }
  }

  /**
   * krb5_mk_req_extended.  wantNewkey and wantAuthent say whether the caller
   * passed newkey and authentp.  The ghost outputs name the validation
   * outcome, the return point, the resource ledger and the request handed to
   * the encoder.
   */
  method MkReqExtended(svc: Services, apReqOptions: bv32, checksum: Option<Checksum>, kdcOptions: bv32,
                       sequence: int, wantNewkey: bool, creds: Creds, wantAuthent: bool)
    returns (ret: Code, outbuf: Option<seq<bv8>>, newkey: Option<Keyblock>, authent: Option<Authenticator>,
             credsOut: Creds, ghost prep: Prepared, ghost exit: Exit, ghost ledger: Ledger, ghost sent: ApReq)
    requires ValidServices(svc)
    ensures prep == Prepare(svc, apReqOptions, kdcOptions, creds) && credsOut == prep.creds
    ensures prep.failure.Some? ==> exit == prep.failure.value && ret == prep.code
    ensures prep.failure.None? ==> !Rejected(exit)
    ensures ledger == ExitLedger(exit, wantNewkey, wantNewkey && svc.copyKeyblock == Ok, wantAuthent)
    ensures ret == Ok <==> exit == Sent
    ensures exit == TicketUndecodable <==> prep.failure.None? && svc.decodeTicket(credsOut.ticket).code != Ok
    ensures exit == TicketUndecodable ==> ret == svc.decodeTicket(credsOut.ticket).code
    ensures exit == SubkeyFailed <==>
              prep.failure.None? && svc.decodeTicket(credsOut.ticket).code == Ok
              && wantNewkey && svc.generateSubkey(credsOut.keyblock).code != Ok
    ensures exit == SubkeyFailed ==> ret == svc.generateSubkey(credsOut.keyblock).code
    ensures AuthenticatorBuilt(exit) <==>
              prep.failure.None? && svc.decodeTicket(credsOut.ticket).code == Ok
              && (wantNewkey ==> svc.generateSubkey(credsOut.keyblock).code == Ok)
    ensures AuthenticatorBuilt(exit) ==>
              (exit == AuthenticatorFailed <==> (wantNewkey && svc.copyKeyblock != Ok) || svc.usTimeofday.code != Ok)
    ensures exit == AuthenticatorFailed ==>
              ret == (if wantNewkey && svc.copyKeyblock != Ok then svc.copyKeyblock else svc.usTimeofday.code)
    ensures newkey == (if wantNewkey && AuthenticatorBuilt(exit) then Some(svc.generateSubkey(credsOut.keyblock).key) else None)
    ensures var auth := AuthenticatorFor(svc, credsOut, checksum, newkey, sequence);
            && (AuthenticatorBuilt(exit) && exit != AuthenticatorFailed ==>
                  (exit == EncodeFailed <==> svc.encodeAuthenticator(auth).code != Ok))
            && (exit == EncodeFailed ==> ret == svc.encodeAuthenticator(auth).code)
            && authent == (if wantAuthent && PastEncoding(exit)
                           then Some(auth.(client := None, checksum := None, authorizationData := None)) else None)
            && ((exit == ApReqEncodeFailed || exit == Sent) ==>
                  sent == RequestFor(svc, apReqOptions, svc.decodeTicket(credsOut.ticket).ticket, prep.etype,
                                     credsOut.keyblock, svc.encodeAuthenticator(auth).bytes))
    ensures PastEncoding(exit) ==>
              SealOutcome(svc, prep.etype, credsOut.keyblock,
                          svc.encodeAuthenticator(AuthenticatorFor(svc, credsOut, checksum, newkey, sequence)).bytes, exit, ret)
    ensures Delivered(svc, exit, ret, sent, outbuf)
  {
    var checked := Prepare(svc, apReqOptions, kdcOptions, creds);
    prep := checked;
    credsOut := checked.creds;
    outbuf, newkey, authent := None, None, None;
    ledger := Start;
    sent := ApReq(apReqOptions, Ticket([]), EncData(0, 0, 0, []));
    if checked.failure.Some? {
      ret, exit := checked.code, checked.failure.value;
      return;
    }
    var stopped, ticket, plain;
    ret, stopped, ticket, plain, newkey, authent, exit, ledger :=
      Authenticate(svc, credsOut, checksum, sequence, wantNewkey, wantAuthent);
    if stopped {
      return;
    }
    var request := ApReq(apReqOptions, ticket, EncData(0, 0, 0, []));
    ret, outbuf, exit, ledger, sent := Seal(svc, checked.etype, credsOut.keyblock, plain, request, wantNewkey, ledger);
  }

  // ---------------------------------------------------------------------
  // End-to-end behaviour

  /**
   * A session-key request with credentials that hold no ticket is refused
   * with KRB5_NO_TKT_SUPPLIED: no credential fetch, nothing allocated,
   * nothing returned.
   */
  method NoTicketRefused(svc: Services, checksum: Option<Checksum>, kdcOptions: bv32, sequence: int,
                         wantNewkey: bool, client: Principal, keyblock: Keyblock, authdata: Option<seq<bv8>>,
                         wantAuthent: bool)
    returns (ret: Code, outbuf: Option<seq<bv8>>, newkey: Option<Keyblock>, authent: Option<Authenticator>,
             fetched: bool)
    requires ValidServices(svc)
    ensures ret == NoTktSupplied && outbuf == None && newkey == None && authent == None && !fetched
  {
    var creds := Creds(client, [], keyblock, authdata);
    var credsOut;
    ghost var prep, exit, ledger, sent;
    ret, outbuf, newkey, authent, credsOut, prep, exit, ledger, sent :=
      MkReqExtended(svc, ApOptsUseSessionKey, checksum, kdcOptions, sequence, wantNewkey, creds, wantAuthent);
    fetched := Prepare(svc, ApOptsUseSessionKey, kdcOptions, creds).fetched;
  }

  /**
   * A request built from credentials that already hold a ticket decodes,
   * with a decoder that inverts the request encoder, to a request carrying
   * that ticket, the caller's options, the chosen encryption type, key
   * version number 0 and the ciphertext length krb5_encrypt_size gives for
   * the encoded authenticator.
   */
  method BuiltRequestDecodes(svc: Services, decodeApReq: seq<bv8> -> ApReq, apReqOptions: bv32,
                             checksum: Option<Checksum>, kdcOptions: bv32, sequence: int, creds: Creds)
    returns (ret: Code, decoded: Option<ApReq>)
    requires ValidServices(svc)
    requires forall r: ApReq :: decodeApReq(svc.encodeApReq(r).bytes) == r
    requires |creds.ticket| > 0
    ensures ret == Ok ==>
              decoded.Some?
              && decoded.value.ticket == svc.decodeTicket(creds.ticket).ticket
              && decoded.value.apOptions == apReqOptions
              && decoded.value.authenticator.etype == ChooseEtype(svc, creds.keyblock)
              && decoded.value.authenticator.kvno == 0
              && decoded.value.authenticator.length ==
                   svc.encryptSize(|svc.encodeAuthenticator(AuthenticatorFor(svc, creds, checksum, None, sequence)).bytes|,
                                   ChooseEtype(svc, creds.keyblock))
    ensures ret != Ok ==> decoded.None?
  {
    var outbuf, newkey, authent, credsOut;
    ghost var prep, exit, ledger, sent;
    ret, outbuf, newkey, authent, credsOut, prep, exit, ledger, sent :=
      MkReqExtended(svc, apReqOptions, checksum, kdcOptions, sequence, false, creds, false);
    decoded := if outbuf.Some? then Some(decodeApReq(outbuf.value)) else None;
  }
}
