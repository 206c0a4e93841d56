/**
 * The resources krb5_mk_req_extended (src/lib/krb5/krb/mk_req_ext.c)
 * holds and releases.  A Ledger records what the routine still holds, the
 * order in which it released things, what it released while no longer
 * holding it, which buffers it wiped, and which buffers it released before
 * wiping them.  ExitLedger is the ledger each return point leaves, built from
 * the same steps as the code: acquisitions, the cleanup macros, and the goto
 * chain at the end of the routine.
 */
module MkReqLedger {
  import opened MkReqTypes

  /** A set of resources, one bit per resource. */
  type ResSet = bv8

  function Bit(r: Res): ResSet {
    match r
    case DecodedTkt => 0x01
    case Subkey => 0x02
    case SubkeyCopy => 0x04
    case ScratchBox => 0x08
    case ScratchData => 0x10
    case CipherBuf => 0x20
    case KeySchedule => 0x40
    case OutBuf => 0x80
  }

  predicate Member(r: Res, s: ResSet) {
    s & Bit(r) != 0
  }

  /** The two buffers that hold key material in the clear or encrypted:
   *  the plaintext data and the ciphertext. */
  predicate Secret(r: Res) {
    r == ScratchData || r == CipherBuf
  }

  /** The caller's authenticator fields, one bit per field. */
  function CallerBit(f: CallerField): bv8 {
    match f
    case CallerChecksum => 0x01
    case CallerClient => 0x02
    case CallerAuthdata => 0x04
  }

  /** What is held, the order of the releases, what was released while no
   *  longer held, the buffers wiped, the secret buffers released while not
   *  yet wiped, and the caller's fields released. */
  datatype Ledger = Ledger(held: ResSet, freed: seq<Res>, doubleFreed: ResSet, wiped: ResSet, unwiped: ResSet,
                           callers: bv8)

  const Start := Ledger(0, [], 0, 0, 0, 0)

  function Take(l: Ledger, r: Res): Ledger {
    l.(held := l.held | Bit(r))
  }

  function TakeIf(l: Ledger, r: Res, b: bool): Ledger {
    if b then Take(l, r) else l
  }

  /** Release r; releasing what is not held is a double release, and
   *  releasing a secret buffer that was not wiped leaves its bytes behind. */
  function Free(l: Ledger, r: Res): Ledger {
    Ledger(l.held & !Bit(r), l.freed + [r], if Member(r, l.held) then l.doubleFreed else l.doubleFreed | Bit(r),
           l.wiped, if Secret(r) && !Member(r, l.wiped) then l.unwiped | Bit(r) else l.unwiped, l.callers)
  }

  /** memset of a buffer to zero. */
  function Wipe(l: Ledger, r: Res): Ledger {
    l.(wiped := l.wiped | Bit(r))
  }

  /** cleanup_scratch: wipe the plaintext, then krb5_free_data frees its
   *  data and the krb5_data itself. */
  function ReleaseScratch(l: Ledger): Ledger {
    Free(Free(Wipe(l, ScratchData), ScratchData), ScratchBox)
  }

  /** cleanup_encpart: wipe the ciphertext, then free it. */
  function ReleaseEncpart(l: Ledger): Ledger {
    Free(Wipe(l, CipherBuf), CipherBuf)
  }

  /** The goto labels at the end of the routine, each falling through to
   *  the next: clean_prockey, clean_encpart, clean_scratch, clean_ticket. */
  function CleanTicket(l: Ledger, newkey: bool): Ledger {
    Free(if newkey then Free(l, Subkey) else l, DecodedTkt)
  }

  function CleanScratch(l: Ledger, newkey: bool): Ledger {
    CleanTicket(ReleaseScratch(l), newkey)
  }

  function CleanEncpart(l: Ledger, newkey: bool): Ledger {
    CleanScratch(ReleaseEncpart(l), newkey)
  }

  function CleanProckey(l: Ledger, newkey: bool): Ledger {
    CleanEncpart(Free(l, KeySchedule), newkey)
  }

  /** After the ticket was decoded, the subkey generated and the
   *  authenticator built (copied: krb5_copy_keyblock succeeded inside
   *  krb5_generate_authenticator). */
  function KeysMade(newkey: bool, copied: bool): Ledger {
    TakeIf(TakeIf(Take(Start, DecodedTkt), Subkey, newkey), SubkeyCopy, copied)
  }

  /** Whether the authenticator still points at the caller's field f. */
  predicate Lent(a: Authenticator, f: CallerField) {
    match f
    case CallerChecksum => a.checksum.Some?
    case CallerClient => a.client.Some?
    case CallerAuthdata => a.authorizationData.Some?
  }

  /** The caller's fields released, c, after the fields a points at are
   *  released too. */
  function ReleaseLent(c: bv8, a: Authenticator): bv8 {
    var c1 := if a.checksum.Some? then c | CallerBit(CallerChecksum) else c;
    var c2 := if a.client.Some? then c1 | CallerBit(CallerClient) else c1;
    if a.authorizationData.Some? then c2 | CallerBit(CallerAuthdata) else c2
  }

  /** Whether the caller's field f has been released. */
  predicate Released(l: Ledger, f: CallerField) {
    l.callers & CallerBit(f) != 0
  }

  /**
   * krb5_free_authenticator_contents: release every pointer field of the
   * authenticator that is set.  The caller's fields are recorded apart from
   * `freed`, so only the subkey's place in the release order is kept.
   */
  function FreeContents(l: Ledger, a: Authenticator): Ledger {
    var l1 := if a.subkey.Some? then Free(l, Subkey) else l;
    l1.(callers := ReleaseLent(l.callers, a))
  }

  lemma ReleaseLentBits(c: bv8, a: Authenticator, f: CallerField)
    ensures ReleaseLent(c, a) & CallerBit(f) != 0 <==> c & CallerBit(f) != 0 || Lent(a, f)
  {
  }

  /**
   * Freeing the contents releases a caller's field exactly when the
   * authenticator still points at it, so without the nulling of lines
   * 150-152 the caller's client, checksum and authorization data would be
   * released.
   */
  lemma ContentsReleased(l: Ledger, a: Authenticator, f: CallerField)
    ensures Released(FreeContents(l, a), f) <==> Released(l, f) || Lent(a, f)
  {
    ReleaseLentBits(l.callers, a, f);
  }

  /** With the caller's fields nulled, freeing the contents releases only
   *  the subkey, when there is one. */
  lemma NulledContentsReleaseSubkey(l: Ledger, a: Authenticator)
    requires a.client.None? && a.checksum.None? && a.authorizationData.None?
    ensures FreeContents(l, a) == (if a.subkey.Some? then Free(l, Subkey) else l)
  {
  }

  /** After the authenticator was encoded and handed over: without
   *  authentp, krb5_free_authenticator_contents frees its subkey, which is
   *  *newkey itself; the caller's fields were nulled and are not freed. */
  function AuthenticatorEncoded(newkey: bool, copied: bool, authentp: bool): Ledger {
    var l := Take(Take(KeysMade(newkey, copied), ScratchBox), ScratchData);
    if !authentp && newkey then Free(l, Subkey) else l
  }

  /** The ledger at the return points after encoding, from the ledger l
   *  held once the authenticator was encoded; the earlier exits never get
   *  there. */
  function SealingLedger(exit: Exit, l: Ledger, newkey: bool): Ledger {
    var keyed := Take(Take(l, CipherBuf), KeySchedule);
    var sealed := Free(ReleaseScratch(keyed), KeySchedule);
    match exit
    case ReallocFailed => CleanTicket(Free(l, ScratchBox), newkey)
    case MallocFailed => CleanScratch(l, newkey)
    case ProcessKeyFailed => CleanEncpart(Take(l, CipherBuf), newkey)
    case EncryptFailed => CleanProckey(keyed, newkey)
    case FinishKeyFailed => ReleaseEncpart(sealed)
    case ApReqEncodeFailed => ReleaseEncpart(Free(sealed, DecodedTkt))
    case Sent => ReleaseEncpart(Free(Take(sealed, OutBuf), DecodedTkt))
    case _ => l
  }

  /**
   * The ledger at each return point.  newkey: the caller asked for a
   * subkey; authentp: the caller asked for the authenticator.
   */
  function ExitLedger(exit: Exit, newkey: bool, copied: bool, authentp: bool): Ledger {
    match exit
    case NoTicket | FetchFailed | BadKeytype | BadEtype | TicketUndecodable => Start
    case SubkeyFailed => CleanTicket(Take(Start, DecodedTkt), false)
    case AuthenticatorFailed | EncodeFailed => CleanTicket(KeysMade(newkey, copied), newkey)
    case _ => SealingLedger(exit, AuthenticatorEncoded(newkey, copied, authentp), newkey)
  }

  /** The position of each resource in the order the routine acquires them. */
  function Rank(r: Res): nat {
    match r
    case DecodedTkt => 0
    case Subkey => 1
    case SubkeyCopy => 2
    case ScratchBox => 3
    case ScratchData => 4
    case CipherBuf => 5
    case KeySchedule => 6
    case OutBuf => 7
  }

  /** Released newest first. */
  predicate Reversed(s: seq<Res>) {
    forall i :: 0 < i < |s| ==> Rank(s[i - 1]) > Rank(s[i])
  }

  lemma ReversedConcat(a: seq<Res>, b: seq<Res>)
    requires Reversed(a) && Reversed(b) && 0 < |a| && 0 < |b| && Rank(a[|a| - 1]) > Rank(b[0])
    ensures Reversed(a + b)
  {
  }

  /** What each goto label releases before the key and the ticket. */
  function UnwindChain(exit: Exit): (c: seq<Res>)
    requires Unwound(exit)
    ensures 0 < |c| && Reversed(c)
  {
    match exit
    case ReallocFailed => [ScratchBox]
    case MallocFailed => [ScratchData, ScratchBox]
    case ProcessKeyFailed => [CipherBuf, ScratchData, ScratchBox]
    case EncryptFailed => [KeySchedule, CipherBuf, ScratchData, ScratchBox]
  }

  /** The releases on an error path after line 182, when the subkey was not
   *  already freed with the authenticator. */
  lemma FreedOnUnwindWithKey(exit: Exit, copied: bool)
    requires Unwound(exit)
    ensures ExitLedger(exit, true, copied, true).freed == UnwindChain(exit) + [Subkey, DecodedTkt]
  {
    match exit
    case ReallocFailed =>
    case MallocFailed =>
    case ProcessKeyFailed =>
    case EncryptFailed =>
  }

  lemma FreedOnUnwindWithoutKey(exit: Exit, copied: bool, authentp: bool)
    requires Unwound(exit)
    ensures ExitLedger(exit, false, copied, authentp).freed == UnwindChain(exit) + [DecodedTkt]
  {
    match exit
    case ReallocFailed =>
    case MallocFailed =>
    case ProcessKeyFailed =>
    case EncryptFailed =>
  }

  /**
   * Error paths through the goto chain release in the reverse of the order
   * of acquisition: key schedule, ciphertext, plaintext, subkey, ticket.
   */
  lemma UnwindsInReverse(exit: Exit, newkey: bool, copied: bool, authentp: bool)
    requires Unwound(exit) && (authentp || !newkey)
    ensures Reversed(ExitLedger(exit, newkey, copied, authentp).freed)
  {
    if newkey {
      FreedOnUnwindWithKey(exit, copied);
    } else {
      FreedOnUnwindWithoutKey(exit, copied, authentp);
    }
    var tail := if newkey then [Subkey, DecodedTkt] else [DecodedTkt];
    ReversedConcat(UnwindChain(exit), tail);
  }

  /**
   * The only double release: without authentp, *newkey is freed with the
   * authenticator that shares it, and again by cleanup_key on every path
   * through the goto chain.
   */
  lemma DoubleRelease(exit: Exit, newkey: bool, copied: bool, authentp: bool)
    ensures ExitLedger(exit, newkey, copied, authentp).doubleFreed ==
            (if newkey && !authentp && Unwound(exit) then Bit(Subkey) else 0)
  {
    if !PastEncoding(exit) {
      DoubleReleaseFront(exit, newkey, copied, authentp);
    } else if Unwound(exit) {
      DoubleReleaseUnwound(exit, newkey, copied, authentp);
    } else {
      DoubleReleaseFinished(exit, newkey, copied, authentp);
    }
  }

  /**
   * No return point releases the client, checksum or authorization data the
   * caller lent the authenticator: lines 150-152 null them before
   * krb5_free_authenticator_contents runs.
   */
  lemma CallerFieldsKept(exit: Exit, newkey: bool, copied: bool, authentp: bool)
    ensures ExitLedger(exit, newkey, copied, authentp).callers == Start.callers
  {
  }

  lemma DoubleReleaseFront(exit: Exit, newkey: bool, copied: bool, authentp: bool)
    requires !PastEncoding(exit)
    ensures ExitLedger(exit, newkey, copied, authentp).doubleFreed ==
            (if newkey && !authentp && Unwound(exit) then Bit(Subkey) else 0)
  {
    match exit
    case NoTicket =>
    case FetchFailed =>
    case BadKeytype =>
    case BadEtype =>
    case TicketUndecodable =>
    case SubkeyFailed =>
    case AuthenticatorFailed =>
    case EncodeFailed =>
  }

  lemma DoubleReleaseUnwound(exit: Exit, newkey: bool, copied: bool, authentp: bool)
    requires Unwound(exit)
    ensures ExitLedger(exit, newkey, copied, authentp).doubleFreed ==
            (if newkey && !authentp && Unwound(exit) then Bit(Subkey) else 0)
  {
    match exit
    case ReallocFailed =>
    case MallocFailed =>
    case ProcessKeyFailed =>
    case EncryptFailed =>
  }

  lemma DoubleReleaseFinished(exit: Exit, newkey: bool, copied: bool, authentp: bool)
    requires Finished(exit)
    ensures ExitLedger(exit, newkey, copied, authentp).doubleFreed ==
            (if newkey && !authentp && Unwound(exit) then Bit(Subkey) else 0)
  {
    match exit
    case FinishKeyFailed =>
    case ApReqEncodeFailed =>
    case Sent =>
  }

  /**
   * What is still held at each return point: the keyblock copy, lost at
   * line 253; the plaintext after a failed realloc; the ticket after a
   * failed krb5_finish_key; *newkey and the encoded request, which belong to
   * the caller.  Everything else has been released.
   */
  function Retained(exit: Exit, newkey: bool, copied: bool, authentp: bool): ResSet {
    (if copied && AuthenticatorBuilt(exit) then Bit(SubkeyCopy) else 0)
    | (if exit == ReallocFailed then Bit(ScratchData) else 0)
    | (if exit == FinishKeyFailed then Bit(DecodedTkt) else 0)
    | (if newkey && authentp && Finished(exit) then Bit(Subkey) else 0)
    | (if exit == Sent then Bit(OutBuf) else 0)
  }

  /** Every return point holds exactly what Retained lists. */
  lemma HeldAtExit(exit: Exit, newkey: bool, copied: bool, authentp: bool)
    ensures ExitLedger(exit, newkey, copied, authentp).held == Retained(exit, newkey, copied, authentp)
  {
    if !PastEncoding(exit) {
      HeldFront(exit, newkey, copied, authentp);
    } else if Unwound(exit) {
      HeldUnwound(exit, newkey, copied, authentp);
    } else {
      HeldFinished(exit, newkey, copied, authentp);
    }
  }

  lemma HeldFront(exit: Exit, newkey: bool, copied: bool, authentp: bool)
    requires !PastEncoding(exit)
    ensures ExitLedger(exit, newkey, copied, authentp).held == Retained(exit, newkey, copied, authentp)
  {
    match exit
    case NoTicket =>
    case FetchFailed =>
    case BadKeytype =>
    case BadEtype =>
    case TicketUndecodable =>
    case SubkeyFailed =>
    case AuthenticatorFailed =>
    case EncodeFailed =>
  }

  lemma HeldUnwound(exit: Exit, newkey: bool, copied: bool, authentp: bool)
    requires Unwound(exit)
    ensures ExitLedger(exit, newkey, copied, authentp).held == Retained(exit, newkey, copied, authentp)
  {
    match exit
    case ReallocFailed =>
    case MallocFailed =>
    case ProcessKeyFailed =>
    case EncryptFailed =>
  }

  lemma HeldFinished(exit: Exit, newkey: bool, copied: bool, authentp: bool)
    requires Finished(exit)
    ensures ExitLedger(exit, newkey, copied, authentp).held == Retained(exit, newkey, copied, authentp)
  {
    match exit
    case FinishKeyFailed =>
    case ApReqEncodeFailed =>
    case Sent =>
  }

  /**
   * Every release of the plaintext or the ciphertext comes after its wipe:
   * the plaintext is wiped on every exit that gets past the realloc, the
   * ciphertext on every exit that allocated it, and neither is ever freed
   * with its bytes still in it.
   */
  lemma WipedBeforeRelease(exit: Exit, newkey: bool, copied: bool, authentp: bool)
    ensures ExitLedger(exit, newkey, copied, authentp).unwiped == 0
    ensures Member(ScratchData, ExitLedger(exit, newkey, copied, authentp).wiped) <==>
              PastEncoding(exit) && exit != ReallocFailed
    ensures Member(CipherBuf, ExitLedger(exit, newkey, copied, authentp).wiped) <==>
              PastEncoding(exit) && exit != ReallocFailed && exit != MallocFailed
  {
    if !PastEncoding(exit) {
      WipedFront(exit, newkey, copied, authentp);
    } else if Unwound(exit) {
      WipedUnwound(exit, newkey, copied, authentp);
    } else {
      WipedFinished(exit, newkey, copied, authentp);
    }
  }

  lemma WipedFront(exit: Exit, newkey: bool, copied: bool, authentp: bool)
    requires !PastEncoding(exit)
    ensures ExitLedger(exit, newkey, copied, authentp).unwiped == 0
    ensures ExitLedger(exit, newkey, copied, authentp).wiped == 0
  {
    match exit
    case NoTicket =>
    case FetchFailed =>
    case BadKeytype =>
    case BadEtype =>
    case TicketUndecodable =>
    case SubkeyFailed =>
    case AuthenticatorFailed =>
    case EncodeFailed =>
  }

  lemma WipedUnwound(exit: Exit, newkey: bool, copied: bool, authentp: bool)
    requires Unwound(exit)
    ensures ExitLedger(exit, newkey, copied, authentp).unwiped == 0
    ensures ExitLedger(exit, newkey, copied, authentp).wiped ==
              (if exit == ReallocFailed then 0
               else if exit == MallocFailed then Bit(ScratchData)
               else Bit(ScratchData) | Bit(CipherBuf))
  {
    match exit
    case ReallocFailed =>
    case MallocFailed =>
    case ProcessKeyFailed =>
    case EncryptFailed =>
  }

  lemma WipedFinished(exit: Exit, newkey: bool, copied: bool, authentp: bool)
    requires Finished(exit)
    ensures ExitLedger(exit, newkey, copied, authentp).unwiped == 0
    ensures ExitLedger(exit, newkey, copied, authentp).wiped == Bit(ScratchData) | Bit(CipherBuf)
  {
    match exit
    case FinishKeyFailed =>
    case ApReqEncodeFailed =>
    case Sent =>
  }
}
