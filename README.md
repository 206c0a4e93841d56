# Replay lookaside cache, KDC dispatch and AP-REQ construction, in Dafny

The project models three parts of an early MIT Kerberos 5 source tree.

- **The KDC replay lookaside cache** (`src/kdc/replay.c`). Request packets are hashed with a seeded 32-bit
  MurmurHash3 into 16384 buckets. Every entry also sits in one expiration queue, in insertion order.
  - `Lookaside.Cache` is a class. Its fields are the queue (a `seq` of `Entry` objects, oldest first), the
    bucket array (an `array<seq<Entry>>`, newest first per bucket), the random seed and the counters
    `hits`, `calls`, `max_hits_per_entry`, `num_entries` and `total_size`.
  - Its ghost invariant `Valid` says three things. Every bucket is exactly `Chain(queue, seed, i)`: the
    queue entries that hash to bucket `i`, newest first. No entry occurs twice in the queue. `totalSize`
    is the sum of the entries' footprints.
  - `num_hits` is the only field of an entry that changes after insertion. It is a mutable field of the
    `Entry` class, so a lookup updates it in place.
- **The KDC dispatcher** (`src/kdc/dispatch.c`).
  - On a cache hit, dispatch answers from the cache.
  - Otherwise it classifies the packet (TGS-REQ, then AS-REQ, then the KRB4 first-byte test), decodes and
    processes it, and frees the decoded request.
  - It inserts the reply into the cache exactly when the result is 0.
  - The classifiers, decoders and processors are fields of the `Kdc` datatype. A ghost trace of the
    steps taken records what ran and in which order.
- **`krb5_mk_req_extended` and `krb5_generate_authenticator`** (`src/lib/krb5/krb/mk_req_ext.c`). These
  build a KRB_AP_REQ message (RFC 4120 section 5.5.1) from credentials.
  - The credential cache, ASN.1 coders, key generation, the clock and the cryptographic routines are
    fields of the `Services` datatype. Each returns a code and a value.
  - The model decides what the C code decides:
    - the order of the validation errors and the choice of encryption type;
    - the fields of the authenticator and the request, including key version number 0;
    - growing the plaintext to the ciphertext length and zeroing the added tail;
    - wiping the plaintext and the ciphertext buffers;
    - which resources each of the fifteen exits (one per `Exit` case) has acquired and released.
  - A ghost `Ledger` tracks the resources. It holds the set of resources held (a bit set, one bit per
    resource), the sequence of releases, the set of resources released while not held, the buffers
    wiped, and the plaintext or ciphertext buffers released before their wipe. Only `CleanupScratch`
    and `CleanupEncpart`, which zero the arrays, record a wipe.
  - `MkReqLedger.ExitLedger` is the reference table: the ledger each exit leaves.
    `MkReqExt.MkReqExtended` is proved to end with exactly that ledger. The lemmas of `MkReqLedger` state
    what it implies: the unwinding order, what stays held, the one double release, and that both
    buffers are wiped before every release.

The files are:

- `wrappers.dfy`: `Option`.
- `krb5_codes.dfy`: the error codes the core returns.
- `murmur.dfy`: the hash.
- `lookaside_spec.dfy`: entries, footprints, staleness, the bucket/queue relation and the sweep.
- `lookaside.dfy`: the cache class and scenarios.
- `dispatch.dfy`: the dispatcher.
- `mk_req_ext_types.dfy`: the AP-REQ data and collaborators.
- `mk_req_ledger.dfy`: the resource ledger.
- `mk_req_ext.dfy`: the AP-REQ builder.

## Model

| member | source | states |
|---|---|---|
| Murmur.Rotl32Rotates | src/kdc/replay.c:67-71 | rotl32 with the shift counts the hash uses (13 and 15) is a true 32-bit left rotation |
| Murmur.BucketIndex | src/kdc/replay.c:102 | the bucket is always below LOOKASIDE_HASH_SIZE (16384) |
| Murmur.HashBlockLoop | src/kdc/replay.c:83-90 | the block loop absorbs every complete 4-byte block, in wrapping 32-bit arithmetic, and stops exactly where the 0 to 3 tail bytes begin |
| Murmur.MurmurHash3 | src/kdc/replay.c:78-103 | the result is `BucketIndex(seed, data)`: the block loop, the tail word, the length and the avalanche in bv32 arithmetic; it depends on the seed and the bytes only |
| Murmur.KnownAnswerEmpty | src/kdc/replay.c:78-103 | the hash of the empty input under seed 1 is 0x514E28B7, the published MurmurHash3_x86_32 value |
| Murmur.KnownBlock | src/kdc/replay.c:83-90 | the block loop over the bytes 21 43 65 87 from seed 0 gives 0xBB095DB4 |
| Murmur.KnownAnswerOneBlock | src/kdc/replay.c:78-103 | the hash of the bytes 21 43 65 87 under seed 0 is 0xF55B516B, the published MurmurHash3_x86_32 value |
| LookasideSpec.StaleIff | src/kdc/replay.c:63-64 | an entry is stale exactly when now is at least 120 seconds after its insertion time or at least 120 seconds before it, so a clock that moved back also makes entries stale |
| LookasideSpec.StoredSizeMatches | src/kdc/replay.c:106-117 | the footprint insert adds (a NULL reply counting 0) equals the one discard later subtracts from the stored, zero-filled entry, and it is at least the overhead plus the request length |
| LookasideSpec.Newest | src/kdc/replay.c:126-137 | the entry found has request bytes equal to the query and is in the queue; there is none exactly when no queued entry has those bytes (no false positives, no misses) |
| LookasideSpec.FirstMatch | src/kdc/replay.c:132-135 | the bucket scan returns an entry of the bucket with equal bytes, and returns none exactly when the bucket holds no such entry |
| LookasideSpec.FindInChain | src/kdc/replay.c:126-137 | scanning the bucket `req` hashes to finds exactly the newest queued entry with equal bytes |
| LookasideSpec.ChainMembers | src/kdc/replay.c:129-132 | bucket i holds exactly the queued entries whose request hashes to i |
| LookasideSpec.ChainAppend | src/kdc/replay.c:221-222 | appending an entry to the queue puts it at the head of its own bucket and leaves every other bucket alone |
| LookasideSpec.ChainWithout | src/kdc/replay.c:118-119 | removing an entry from the queue removes it from its bucket and keeps the order of the rest |
| LookasideSpec.TableUnlink | src/kdc/replay.c:118-119 | LIST_REMOVE plus TAILQ_REMOVE: unlinking x from the queue changes only the bucket x hashes to |
| LookasideSpec.TableAppend | src/kdc/replay.c:221-222 | TAILQ_INSERT_TAIL plus LIST_INSERT_HEAD: the new entry heads its bucket, and every other bucket is unchanged |
| LookasideSpec.TableEmpty | src/kdc/replay.c:146-148 | an empty queue means every bucket is empty |
| LookasideSpec.WithoutMembers | src/kdc/replay.c:118-119 | unlinking keeps exactly the other entries |
| LookasideSpec.WithoutAt | src/kdc/replay.c:117-119 | unlinking the entry at position k leaves the others in order, keeps them distinct and takes exactly its footprint off the total |
| LookasideSpec.SumConcat | src/kdc/replay.c:224 | the footprint total of a concatenation is the sum of the totals |
| LookasideSpec.SweepCount | src/kdc/replay.c:197-202 | the sweep discards the longest prefix of the queue in which no position stops it; it stops at the first entry that is fresh and leaves room for the new entry |
| LookasideSpec.SweepBound | src/kdc/replay.c:197-202 | after the sweep, either the survivors plus the new entry fit within LOOKASIDE_MAX_SIZE or nothing survived, and the first survivor is not stale |
| LookasideSpec.AllStaleSwept | src/kdc/replay.c:198 | when every entry is stale the sweep empties the queue |
| LookasideSpec.MaxOf | src/kdc/replay.c:200 | the folded maximum is at least the old value and every evicted hit count, and it equals one of them |
| Lookaside.Cache.constructor | src/kdc/replay.c:140-150 | kdc_init_lookaside: every bucket and the queue are empty, the counters are zero, and the seed is the given one |
| Lookaside.Cache.Discard | src/kdc/replay.c:114-123 | discard_entry: the queue loses exactly e with the rest in order, total_size drops by e's footprint, the invariant is kept and the counters are unchanged |
| Lookaside.Cache.DiscardOldest | src/kdc/replay.c:197-202 | discarding the head leaves the tail of the queue and subtracts the head's footprint |
| Lookaside.Cache.FindEntry | src/kdc/replay.c:126-137 | find_entry returns the newest queued entry whose request bytes equal the query, or none when there is no such entry |
| Lookaside.Cache.Check | src/kdc/replay.c:165-181 | kdc_check_lookaside: calls always goes up by 1 and the queue, sizes and other counters are unchanged; on a miss nothing else changes; on a hit, hits and that entry's num_hits go up even when the copy fails, the result is the copy's success, and the reply is the stored one |
| Lookaside.Cache.Remove | src/kdc/replay.c:153-161 | kdc_remove_lookaside: the matching entry is unlinked and the others keep their order; when none matches the queue is unchanged |
| Lookaside.Cache.Insert | src/kdc/replay.c:185-226 | kdc_insert_lookaside: a failed clock read changes nothing. Otherwise the sweep discards SweepCount entries and folds their hit counts into max_hits_per_entry. On success, the new entry is at the tail and is what a lookup of req now finds, num_entries goes up by 1, and either total_size is within LOOKASIDE_MAX_SIZE or the new entry is alone. On an allocation or copy failure the evictions stay and no entry is added |
| Lookaside.Cache.Sweep | src/kdc/replay.c:196-202 | the queue becomes its suffix after SweepCount entries, max_hits_per_entry becomes the maximum of its old value and the evicted hit counts, and the new entry fits or the queue is empty |
| Lookaside.Cache.EvictOldest | src/kdc/replay.c:198-201 | one round of the sweep: it stops exactly when the head is fresh and the new entry fits; otherwise it folds the head's hit count and discards it |
| Lookaside.Cache.Link | src/kdc/replay.c:221-224 | the new entry is appended to the queue, num_entries goes up by 1 and total_size by its footprint |
| Lookaside.Cache.Free | src/kdc/replay.c:229-237 | kdc_free_lookaside: the queue and every bucket are empty and total_size is 0; the counters are unchanged |
| Lookaside.ScenarioStoreAndLookup | src/kdc/replay.c:166-225 | a stored reply is found under its own request and not under another |
| Lookaside.CacheAfterStaleSweep | src/kdc/replay.c:197-202 | three entries stored at time t, then a fourth at t + 121: the sweep leaves only the fourth |
| Lookaside.ScenarioStaleEviction | src/kdc/replay.c:166-181 | after that sweep only the fourth request is found |
| Lookaside.ScenarioAllocationFailure | src/kdc/replay.c:197-207 | an insert whose allocation fails still evicts the stale entry, so the queue goes from 1 entry to 0 |
| Dispatch.Dispatch | src/kdc/dispatch.c:25-68 | on a hit with a successful copy, dispatch returns 0 with the cached reply, does nothing else and leaves the queue alone. Otherwise its result, response and steps are those of the cache-miss path, followed by a cache insert exactly when the result is 0. Errors never change the queue. A successful insert makes the packet find the response |
| Dispatch.Classify | src/kdc/dispatch.c:46-62 | the cache-miss path computes exactly `Miss`: its return value, response and steps |
| Dispatch.ClassificationOrder | src/kdc/dispatch.c:46-62 | TGS-REQ is tried first, then AS-REQ, then (with KRB4) a first byte of 4, and otherwise nothing runs |
| Dispatch.DecodeFailure | src/kdc/dispatch.c:47-52 | a decode error is returned unchanged, and the processor and the free never run |
| Dispatch.FreedOnce | src/kdc/dispatch.c:47-55 | a decoded request is freed exactly once, as the step right after processing, whatever the processor returned; an undecoded one is never freed |
| Dispatch.ServeFreesOnce | src/kdc/dispatch.c:47-55 | the same, for one KDC-REQ kind |
| Dispatch.ReturnSources | src/kdc/dispatch.c:47-67 | the return value is the decoder's error, the code of the processor that ran, or KRB5KRB_AP_ERR_MSG_TYPE |
| MkReqExt.Prepare | src/lib/krb5/krb/mk_req_ext.c:95-116 | a session-key request without a ticket gives KRB5_NO_TKT_SUPPLIED before any fetch. Credentials are fetched exactly when the ticket is empty, and a fetch error is returned unchanged. The key type is checked before the encryption type (KRB5_PROG_KEYTYPE_NOSUPP, then KRB5_PROG_ETYPE_NOSUPP). The etype is the key type's protocol default when the keyblock's is ETYPE_UNKNOWN, and otherwise the keyblock's own |
| MkReqExt.GenerateAuthenticator | src/lib/krb5/krb/mk_req_ext.c:234-258 | a failed keyblock copy is returned, and otherwise the clock's code. On success the authenticator has the client and checksum as given, subkey = key itself, the sequence number, the authorization data and the clock's time |
| MkReqExt.Padded | src/lib/krb5/krb/mk_req_ext.c:169-177 | the padded plaintext has the ciphertext length, starts with the plaintext and has an all-zero tail |
| MkReqExt.Realloc | src/lib/krb5/krb/mk_req_ext.c:169-170 | the grown buffer keeps the old contents, and the added bytes are whatever the heap held |
| MkReqExt.Zero | src/lib/krb5/krb/mk_req_ext.c:176-177 | memset: the range becomes zero and every byte outside it is unchanged |
| MkReqExt.Fill | src/lib/krb5/krb/mk_req_ext.c:199-201 | the ciphertext buffer ends up holding the encryption routine's output |
| MkReqExt.Pad | src/lib/krb5/krb/mk_req_ext.c:168-177 | after realloc and memset, the buffer is exactly `Padded(plaintext, ciphertext length)`, whatever the heap held |
| MkReqExt.CleanupScratch | src/lib/krb5/krb/mk_req_ext.c:158-159 | cleanup_scratch zeroes the plaintext's bytes, and the ledger records that wipe ahead of the release of the data and the krb5_data (`ReleaseScratch`) |
| MkReqExt.CleanupEncpart | src/lib/krb5/krb/mk_req_ext.c:184-189 | cleanup_encpart zeroes the whole ciphertext buffer and resets the request's ciphertext length to 0 and its data to empty, changing nothing else in the request; the ledger records the wipe ahead of the release (`ReleaseEncpart`) |
| MkReqExt.Seal | src/lib/krb5/krb/mk_req_ext.c:158-219 | `SealOutcome`: each failure (realloc, malloc, key processing, encryption, finish_key) happens exactly when it is the first failing step, and returns ENOMEM or that step's code. The request handed to the encoder has key version number 0, the chosen etype, the ciphertext length krb5_encrypt_size gives, and the encryption of the zero-padded plaintext. The ledger is `SealingLedger` for the exit taken, and the output buffer is set only on success |
| MkReqExt.Encipher | src/lib/krb5/krb/mk_req_ext.c:184-229 | once the ciphertext buffer exists: key processing, encryption and finish_key each fail exactly when they are the first to fail, with their own code; otherwise the request handed to the encoder carries the encryption of the padded plaintext, success is the only Ok result and sets the output buffer, and the ledger is `SealingLedger` for the exit taken |
| MkReqExt.Authenticate | src/lib/krb5/krb/mk_req_ext.c:119-156 | a ticket decode, subkey, authenticator or encoding failure stops the routine with that step's code and the `ExitLedger` of that exit, with nothing handed to the caller. *newkey is set exactly when a subkey was generated and the authenticator was attempted. On success the client, checksum and authorization data are nulled. The caller then gets the authenticator when authentp is given; otherwise its contents are freed (`FreeContents`), and the ledger is `AuthenticatorEncoded`, in which only the subkey, *newkey itself, was released |
| MkReqExt.MkReqExtended | src/lib/krb5/krb/mk_req_ext.c:74-232 | each return point is reached exactly when its step is the first to fail, with that step's code: the validation exits as in `Prepare`, the ticket, subkey, authenticator and encoding exits as in `Authenticate`, and after encoding `SealOutcome` for the session key, the chosen etype and the encoded authenticator (ENOMEM for realloc and malloc, the key processing, encryption and finish_key codes otherwise). On the two final exits the result is encode_krb5_ap_req's code, so Sent is reached exactly when that encoding succeeds. Success is the only Ok result. The outputs (*newkey, *authentp, *outbuf, the encoded request) are as in `Authenticate` and `Seal`. The ledger at every exit is `ExitLedger(exit, ...)` |
| MkReqExt.NoTicketRefused | src/lib/krb5/krb/mk_req_ext.c:95-97 | a session-key request whose credentials hold no ticket returns KRB5_NO_TKT_SUPPLIED with no fetch and no outputs |
| MkReqExt.BuiltRequestDecodes | src/lib/krb5/krb/mk_req_ext.c:118-167 | with a decoder that inverts the request encoder, a successful request decodes to one carrying the decoded ticket, the caller's options, the chosen etype, key version number 0 and ciphertext length `krb5_encrypt_size(encoded authenticator length)` |
| MkReqLedger.UnwindChain | src/lib/krb5/krb/mk_req_ext.c:221-227 | what each goto label releases before the key and the ticket, in strictly decreasing acquisition rank |
| MkReqLedger.FreedOnUnwindWithKey | src/lib/krb5/krb/mk_req_ext.c:169-229 | with a subkey asked for and authentp given, a goto-chain exit releases its label's chain, then *newkey, then the ticket, and nothing else |
| MkReqLedger.FreedOnUnwindWithoutKey | src/lib/krb5/krb/mk_req_ext.c:169-229 | without a subkey, a goto-chain exit releases its label's chain, then the ticket, and nothing else |
| MkReqLedger.UnwindsInReverse | src/lib/krb5/krb/mk_req_ext.c:221-229 | the goto-chain exits release in the reverse of the acquisition order (key schedule, ciphertext, plaintext, subkey, ticket). This holds whenever *newkey was not already freed with the authenticator; `DoubleRelease` covers that case |
| MkReqLedger.DoubleRelease | src/lib/krb5/krb/mk_req_ext.c:153-228 | the only resource ever released while not held is *newkey. This happens exactly on goto-chain exits when a subkey was asked for without authentp: krb5_free_authenticator_contents frees the shared keyblock and cleanup_key frees it again |
| MkReqLedger.CallerFieldsKept | src/lib/krb5/krb/mk_req_ext.c:147-156 | no return point releases the client, checksum or authorization data the caller lent the authenticator |
| MkReqLedger.ContentsReleased | src/lib/krb5/krb/mk_req_ext.c:150-156 | krb5_free_authenticator_contents releases a caller's field exactly when the authenticator still points at it. Without the nulling at lines 150-152, the caller's client, checksum and authorization data would be released |
| MkReqLedger.NulledContentsReleaseSubkey | src/lib/krb5/krb/mk_req_ext.c:150-156 | once the caller's fields are nulled, freeing the contents releases the subkey alone, when there is one |
| MkReqLedger.DoubleReleaseFront | src/lib/krb5/krb/mk_req_ext.c:95-145 | no double release before the authenticator is encoded |
| MkReqLedger.DoubleReleaseUnwound | src/lib/krb5/krb/mk_req_ext.c:169-229 | on the goto-chain exits, *newkey is released twice exactly when authentp is absent |
| MkReqLedger.DoubleReleaseFinished | src/lib/krb5/krb/mk_req_ext.c:208-219 | no double release after krb5_finish_key |
| MkReqLedger.HeldAtExit | src/lib/krb5/krb/mk_req_ext.c:95-258 | what is still held at every return point is `Retained`. The lost keyblock copy is held after the authenticator was built (line 253 overwrites it). So are: the old plaintext after a failed realloc; the ticket after a failed krb5_finish_key; *newkey for the caller once finish_key ran with authentp given; and the encoded request on success. Nothing else is held |
| MkReqLedger.HeldFront | src/lib/krb5/krb/mk_req_ext.c:95-145 | the same, for the exits before the authenticator is encoded |
| MkReqLedger.HeldUnwound | src/lib/krb5/krb/mk_req_ext.c:169-229 | the same, for the goto-chain exits |
| MkReqLedger.HeldFinished | src/lib/krb5/krb/mk_req_ext.c:208-219 | the same, for the exits after krb5_finish_key |
| MkReqLedger.WipedBeforeRelease | src/lib/krb5/krb/mk_req_ext.c:158-229 | at no return point was the plaintext or the ciphertext released before it was zeroed. The plaintext is wiped on exactly the exits after the realloc, and the ciphertext on exactly the exits after the malloc |
| MkReqLedger.WipedFront | src/lib/krb5/krb/mk_req_ext.c:95-156 | the exits before the plaintext exists wipe nothing and release no buffer unwiped |
| MkReqLedger.WipedUnwound | src/lib/krb5/krb/mk_req_ext.c:169-229 | on the goto-chain exits: nothing is wiped after a failed realloc, only the plaintext after a failed malloc, and both buffers otherwise; none is released unwiped |
| MkReqLedger.WipedFinished | src/lib/krb5/krb/mk_req_ext.c:206-219 | the exits after krb5_finish_key have wiped both buffers and released neither unwiped |

## Left out

- The random hash seed of `kdc_init_lookaside` and that function's return code are left out. The seed is a constructor parameter.
- Clocks are left out. `krb5_timeofday` (insert) and `krb5_us_timeofday` (authenticator) become parameters or `Services` fields.
- `syslog` in dispatch is left out.
- The collaborators whose code is not part of this model are not modelled: `krb5_copy_data` and `krb5int_copy_data_contents` (success flags), the message classifiers, the ASN.1 coders, the KDC request processors, `krb5_get_credentials` and the credential cache, `krb5_generate_subkey`, `krb5_copy_keyblock`, the crypto system (`krb5_use_cstype`, `krb5_process_key`, `krb5_encrypt`, `krb5_finish_key`, `krb5_encrypt_size`), `valid_keytype` and `valid_etype`. Each is an uninterpreted function or flag.
- `ValidServices` assumes two things about the crypto system: `krb5_encrypt_size` is never smaller than the plaintext, and `krb5_encrypt` writes exactly that many bytes.
- Integer widths of the counters (`int`, `size_t`) and the `abs` overflow on a 32-bit timestamp are left out. Counters, times and sizes are unbounded integers. The hash alone is computed in 32-bit wrapping arithmetic.
- `sizeof(struct entry)` is taken as 72, the LP64 value.
- The pointer mechanics of the intrusive `LIST`/`TAILQ` links are left out. The queue is a sequence, and each bucket a sequence tied to it by `Valid`.
- Freeing entries and their copies is left out. A discarded entry simply leaves both lists.
- `realloc` moving or keeping the block is left out, and so is the old block it leaks on failure. The ledger records that leak as the `ScratchData` resource still held.
- The ciphertext buffer from `malloc` is zero-initialised in Dafny. The model never reads it before the encryption output is written.
- The reads of the encoded authenticator are left out: the model hands the encryption routine the padded bytes as a value.
- The KRB4 test `pkt->data[0] == 4` reads a byte that does not exist when the packet is empty. The model treats an empty packet as not old-version.
- Concurrency is left out. The cache is plain single-threaded state.
- Lookaside.Cache.Insert: an insert is not all-or-nothing. The sweep at src/kdc/replay.c:197-202 runs before the allocation and the copies at lines 205-219, so when one of them fails the sweep's evictions stay and only the new entry is missing (see `ScenarioAllocationFailure`). `num_entries` is never decremented.
- MkReqLedger.HeldAtExit: not every exit of `krb5_mk_req_extended` releases what it acquired. The exits listed in `Retained` leave resources held: the keyblock copy overwritten at src/lib/krb5/krb/mk_req_ext.c:253, the old plaintext after a failed realloc (lines 169-175), and the ticket after a failed krb5_finish_key (lines 208-211). When authentp is NULL, the goto chain frees `*newkey` a second time, after krb5_free_authenticator_contents freed it at line 156 (see `DoubleRelease`). On the exits after krb5_finish_key (FinishKeyFailed, ApReqEncodeFailed, Sent), the goto chain does not free it again, but the keyblock handed back in `*newkey` was already freed at line 156, so the caller gets a dangling pointer; `Retained` leaves the subkey out on those exits.
