/**
 * The KDC replay lookaside cache of src/kdc/replay.c as one object: the
 * file's globals (hash table, expiration queue, statistics counters, seed)
 * become the fields of Cache and its functions become methods.
 */
module Lookaside {
  import opened Wrappers
  import opened Murmur
  import opened LookasideSpec

  class Cache {
    /** The hash seed, drawn once at initialization. */
    const seed: bv32
    /** hash_table: bucket i is a LIST of entries, newest first. */
    const buckets: array<seq<Entry>>
    /** expiration_queue: every entry, oldest first. */
    var queue: seq<Entry>
    var hits: int
    var calls: int
    var maxHitsPerEntry: int
    var numEntries: int
    var totalSize: nat

    /**
     * The two lists describe one set of entries: each entry sits in the
     * bucket its request hashes to, buckets keep newest-first order, and
     * total_size is the sum of the entries' footprints.
     */
    ghost predicate Valid()
      reads this, buckets
    {
      buckets.Length == HashSize
      && Distinct(queue)
      && buckets[..] == Table(queue, seed)
      && totalSize == SumSizes(queue)
    }

    /** kdc_init_lookaside: every bucket and the queue start empty; the random
     *  seed is a parameter. */
    constructor (seed: bv32)
      ensures Valid() && fresh(buckets)
      ensures this.seed == seed && queue == [] && totalSize == 0
      ensures hits == 0 && calls == 0 && maxHitsPerEntry == 0 && numEntries == 0
    {
      var b := new seq<Entry>[HashSize];
      var i := 0;
      while i < HashSize
        invariant 0 <= i <= HashSize
        invariant forall j :: 0 <= j < i ==> b[j] == []
      {
        b[i] := [];
        i := i + 1;
      }
      this.seed := seed;
      buckets := b;
      queue := [];
      TableEmpty(seed);
      hits, calls, maxHitsPerEntry, numEntries, totalSize := 0, 0, 0, 0, 0;
    }

    /**
     * discard_entry: unlink e from its bucket and from the queue and take
     * its footprint off total_size.  The other entries keep their order.
     */
    method Discard(e: Entry)
      requires Valid() && e in queue
      modifies this, buckets
      ensures Valid()
      ensures queue == Without(old(queue), e)
      ensures totalSize == old(totalSize) - Size(e)
      ensures hits == old(hits) && calls == old(calls)
      ensures maxHitsPerEntry == old(maxHitsPerEntry) && numEntries == old(numEntries)
    {
      ghost var k :| 0 <= k < |queue| && queue[k] == e;
      WithoutAt(queue, k);
      ghost var q := queue;
      // LIST_REMOVE needs no hash; the model names the bucket by hashing.
      var h := BucketIndex(seed, e.req);
      totalSize := totalSize - Size(e);
      buckets[h] := Without(buckets[h], e);
      queue := Without(queue, e);
      TableUnlink(q, e, seed);
    }

    /** discard_entry applied to the oldest entry, as both sweeps do. */
    method DiscardOldest()
      requires Valid() && queue != []
      modifies this, buckets
      ensures Valid()
      ensures queue == old(queue)[1..] && totalSize == old(totalSize) - Size(old(queue)[0])
      ensures hits == old(hits) && calls == old(calls)
      ensures maxHitsPerEntry == old(maxHitsPerEntry) && numEntries == old(numEntries)
    {
      WithoutAt(queue, 0);
      Discard(queue[0]);
    }

    /** find_entry: scan the request's bucket for equal bytes. */
    method FindEntry(req: seq<bv8>) returns (r: Option<Entry>)
      requires Valid()
      ensures r == Newest(queue, req)
    {
      var h := MurmurHash3(seed, req);
      var chain := buckets[h];
      FindInChain(queue, seed, req);
      var j := 0;
      while j < |chain|
        invariant j <= |chain|
        invariant FirstMatch(chain[j..], req) == FirstMatch(chain, req)
      {
        if chain[j].req == req {
          return Some(chain[j]);
        }
        assert chain[j..][1..] == chain[j + 1..];
        j := j + 1;
      }
      return None;
    }

    /**
     * kdc_check_lookaside: count the call; on a hit bump the entry's and the
     * global hit counters and copy the reply out.  A copy failure (copyOk
     * false) still counts the hit but reports a miss.  No entry is added,
     * removed or reordered.
     */
    method Check(req: seq<bv8>, copyOk: bool) returns (hit: bool, reply: Option<seq<bv8>>)
      requires Valid()
      modifies this, queue
      ensures Valid() && queue == old(queue) && totalSize == old(totalSize)
      ensures calls == old(calls) + 1
      ensures maxHitsPerEntry == old(maxHitsPerEntry) && numEntries == old(numEntries)
      ensures Newest(queue, req).None? ==>
        !hit && reply.None? && hits == old(hits)
        && forall e :: e in queue ==> e.numHits == old(e.numHits)
      ensures Newest(queue, req).Some? ==>
        var e := Newest(queue, req).value;
        hit == copyOk && reply == (if copyOk then Some(e.reply) else None)
        && hits == old(hits) + 1 && e.numHits == old(e.numHits) + 1
        && forall x :: x in queue && x != e ==> x.numHits == old(x.numHits)
    {
      reply := None;
      calls := calls + 1;
      var r := FindEntry(req);
      if r.None? {
        return false, None;
      }
      var e := r.value;
      e.numHits := e.numHits + 1;
      hits := hits + 1;
      if copyOk {
        reply := Some(e.reply);
      }
      hit := copyOk;
    }

    /**
     * kdc_remove_lookaside: discard the entry find_entry returns, if any.
     * When none matches nothing changes.
     */
    method Remove(req: seq<bv8>)
      requires Valid()
      modifies this, buckets
      ensures Valid()
      ensures old(Newest(queue, req)).None? ==> queue == old(queue)
      ensures old(Newest(queue, req)).Some? ==> queue == Without(old(queue), old(Newest(queue, req)).value)
      ensures hits == old(hits) && calls == old(calls)
      ensures maxHitsPerEntry == old(maxHitsPerEntry) && numEntries == old(numEntries)
    {
      var e := FindEntry(req);
      if e.Some? {
        Discard(e.value);
      }
    }

    /**
     * kdc_insert_lookaside.  A failed clock read (clock None) changes
     * nothing.  Otherwise the sweep runs, and then, unless allocating or
     * copying fails, the new entry goes at the tail of the queue and the head
     * of its bucket.  A failure after the sweep keeps the evictions.
     */
    method Insert(req: seq<bv8>, reply: Option<seq<bv8>>, clock: Option<int>,
                  allocOk: bool, copyReqOk: bool, copyReplyOk: bool)
      requires Valid()
      modifies this, buckets
      ensures Valid()
      ensures hits == old(hits) && calls == old(calls)
      ensures clock.None? ==>
        queue == old(queue) && maxHitsPerEntry == old(maxHitsPerEntry) && numEntries == old(numEntries)
      ensures clock.Some? ==>
        var k := SweepCount(old(queue), clock.value, EntrySize(req, reply));
        maxHitsPerEntry == MaxOf(old(maxHitsPerEntry), old(HitCounts(queue))[..k])
        && if allocOk && copyReqOk && (reply.None? || copyReplyOk) then
             |queue| == |old(queue)| - k + 1 && queue[..|queue| - 1] == old(queue)[k..]
             && fresh(queue[|queue| - 1])
             && queue[|queue| - 1].req == req && queue[|queue| - 1].reply == reply.GetOr([])
             && queue[|queue| - 1].timein == clock.value && queue[|queue| - 1].numHits == 0
             && numEntries == old(numEntries) + 1
             && Newest(queue, req) == Some(queue[|queue| - 1])
             && (totalSize <= MaxSize || |queue| == 1)
           else
             queue == old(queue)[k..] && numEntries == old(numEntries)
    {
      var h := MurmurHash3(seed, req);
      var esize := EntrySize(req, reply);
      if clock.None? {
        return;
      }
      var now := clock.value;
      Sweep(now, esize);
      if !allocOk || !copyReqOk || (reply.Some? && !copyReplyOk) {
        // calloc or a copy failed: the partly built entry is freed.
        return;
      }
      var e := new Entry(now, req, reply.GetOr([]));
      StoredSizeMatches(req, reply);
      Link(e, h);
    }

    /**
     * The sweep of kdc_insert_lookaside: discard entries from the oldest end
     * while the head is stale or an entry of esize bytes would not fit,
     * folding their hit counts into max_hits_per_entry.  It stops at the
     * first entry that is neither, and the entries from there on are kept.
     */
    method Sweep(now: int, esize: nat)
      requires Valid()
      modifies this, buckets
      ensures Valid()
      ensures var k := SweepCount(old(queue), now, esize);
        queue == old(queue)[k..]
        && maxHitsPerEntry == MaxOf(old(maxHitsPerEntry), old(HitCounts(queue))[..k])
        && (totalSize + esize <= MaxSize || queue == [])
      ensures hits == old(hits) && calls == old(calls) && numEntries == old(numEntries)
    {
      ghost var q0 := queue;
      ghost var h0 := HitCounts(queue);
      ghost var j := 0;
      var stop := false;
      while queue != [] && !stop
        invariant Valid()
        invariant j <= |q0| && queue == q0[j..]
        invariant j <= SweepCount(q0, now, esize)
        invariant stop ==> Keeps(queue, now, esize)
        invariant maxHitsPerEntry == MaxOf(old(maxHitsPerEntry), h0[..j])
        invariant hits == old(hits) && calls == old(calls) && numEntries == old(numEntries)
        decreases |queue|, !stop
      {
        stop := EvictOldest(now, esize, q0, h0, old(maxHitsPerEntry), j);
        if !stop {
          j := j + 1;
        }
      }
      SweepDone(q0, j, now, esize);
      SweepBound(q0, now, esize);
    }

    /**
     * One round of the sweep: stop at the head when it is fresh and an
     * entry of esize bytes fits; otherwise fold its hit count into
     * max_hits_per_entry and discard it.
     */
    method EvictOldest(now: int, esize: nat, ghost q0: seq<Entry>, ghost h0: seq<int>, ghost m0: int, ghost j: nat)
      returns (stop: bool)
      requires Valid() && queue != []
      requires j < |q0| && queue == q0[j..] && j <= SweepCount(q0, now, esize)
      requires |h0| == |q0| && h0[j] == q0[j].numHits
      requires maxHitsPerEntry == MaxOf(m0, h0[..j])
      modifies this, buckets
      ensures Valid()
      ensures stop ==> (Keeps(queue, now, esize) && queue == old(queue)
                        && maxHitsPerEntry == old(maxHitsPerEntry))
      ensures !stop ==> (queue == q0[j + 1..] && j + 1 <= SweepCount(q0, now, esize)
                         && maxHitsPerEntry == MaxOf(m0, h0[..j + 1]))
      ensures hits == old(hits) && calls == old(calls) && numEntries == old(numEntries)
    {
      var e := queue[0];
      if !Stale(e.timein, now) && totalSize + esize <= MaxSize {
        return true;
      }
      SweepNext(q0, j, now, esize);
      assert h0[..j + 1][..j] == h0[..j];
      maxHitsPerEntry := Max(maxHitsPerEntry, e.numHits);
      DiscardOldest();
      assert q0[j..][1..] == q0[j + 1..];
      return false;
    }

    /** TAILQ_INSERT_TAIL and LIST_INSERT_HEAD of a new entry, with the
     *  counters insert bumps. */
    method Link(e: Entry, h: nat)
      requires Valid() && e !in queue && h == BucketIndex(seed, e.req)
      modifies this, buckets
      ensures Valid()
      ensures queue == old(queue) + [e]
      ensures numEntries == old(numEntries) + 1 && totalSize == old(totalSize) + Size(e)
      ensures hits == old(hits) && calls == old(calls) && maxHitsPerEntry == old(maxHitsPerEntry)
    {
      ghost var q := queue;
      TableAppend(q, e, seed);
      SumConcat(q, [e]);
      assert SumSizes([e]) == Size(e) by {
        assert [e][..0] == [];
      }
      queue := queue + [e];
      buckets[h] := [e] + buckets[h];
      numEntries := numEntries + 1;
      totalSize := totalSize + Size(e);
    }

    /** kdc_free_lookaside: discard every entry, oldest first. */
    method Free()
      requires Valid()
      modifies this, buckets
      ensures Valid() && queue == [] && totalSize == 0
      ensures buckets[..] == seq(HashSize, i => [])
      ensures hits == old(hits) && calls == old(calls)
      ensures maxHitsPerEntry == old(maxHitsPerEntry) && numEntries == old(numEntries)
    {
      while queue != []
        invariant Valid()
        invariant hits == old(hits) && calls == old(calls)
        invariant maxHitsPerEntry == old(maxHitsPerEntry) && numEntries == old(numEntries)
        decreases |queue|
      {
        DiscardOldest();
      }
      TableEmpty(seed);
    }
  }

  /** "AAAA" and "BBBB" as request bytes, "ok" as a reply. */
  const ReqA: seq<bv8> := [0x41, 0x41, 0x41, 0x41]
  const ReqB: seq<bv8> := [0x42, 0x42, 0x42, 0x42]
  const ReplyOk: seq<bv8> := [0x6f, 0x6b]

  /** A stored reply is found again under its own request and under no
   *  other. */
  method ScenarioStoreAndLookup(seed: bv32, now: int) returns (found: Option<seq<bv8>>, other: Option<seq<bv8>>)
    ensures found == Some(ReplyOk) && other == None
  {
    var c := new Cache(seed);
    c.Insert(ReqA, Some(ReplyOk), Some(now), true, true, true);
    var hit;
    hit, found := c.Check(ReqA, true);
    hit, other := c.Check(ReqB, true);
  }

  /** Storing a one-byte request other than [4] at time now, when every
   *  entry was stored at now and the table is far from full: nothing is
   *  swept. */
  method StoreAt(c: Cache, b: bv8, now: int)
    requires c.Valid() && b != 4 && c.totalSize <= 1000
    requires forall e :: e in c.queue ==> e.timein == now && e.req != [4]
    modifies c, c.buckets
    ensures c.Valid() && |c.queue| == |old(c.queue)| + 1
    ensures c.totalSize == old(c.totalSize) + EntrySize([b], Some(ReplyOk))
    ensures forall e :: e in c.queue ==> e.timein == now && e.req != [4]
  {
    ghost var q := c.queue;
    c.Insert([b], Some(ReplyOk), Some(now), true, true, true);
    assert c.queue == q + [c.queue[|q|]];
  }

  /** A fresh cache holding requests [1], [2] and [3], all stored at now. */
  method CacheOfThree(seed: bv32, now: int) returns (c: Cache)
    ensures fresh(c) && fresh(c.buckets) && c.Valid()
    ensures |c.queue| == 3 && forall e :: e in c.queue ==> e.timein == now && e.req != [4]
  {
    c := new Cache(seed);
    StoreAt(c, 1, now);
    StoreAt(c, 2, now);
    StoreAt(c, 3, now);
  }

  /**
   * Three entries stored at time now, then a fourth 121 seconds later: the
   * sweep evicts the three stale ones and leaves the fourth alone.
   */
  method CacheAfterStaleSweep(seed: bv32, now: int) returns (c: Cache)
    ensures fresh(c) && fresh(c.buckets) && c.Valid()
    ensures |c.queue| == 1 && fresh(c.queue[0]) && c.queue[0].req == [4] && c.queue[0].reply == ReplyOk
  {
    c := CacheOfThree(seed, now);
    AllStaleSwept(c.queue, now + 121, EntrySize([4], Some(ReplyOk)));
    c.Insert([4], Some(ReplyOk), Some(now + 121), true, true, true);
  }

  /** After the stale sweep only the fourth request is found. */
  method ScenarioStaleEviction(seed: bv32, now: int)
    returns (r1: Option<seq<bv8>>, r2: Option<seq<bv8>>, r3: Option<seq<bv8>>, r4: Option<seq<bv8>>)
    ensures r1 == None && r2 == None && r3 == None && r4 == Some(ReplyOk)
  {
    var c := CacheAfterStaleSweep(seed, now);
    var hit;
    hit, r1 := c.Check([1], true);
    hit, r2 := c.Check([2], true);
    hit, r3 := c.Check([3], true);
    hit, r4 := c.Check([4], true);
  }

  /**
   * An insert whose allocation fails still runs the sweep first: a stale
   * entry is evicted even though nothing new is stored.
   */
  method ScenarioAllocationFailure(seed: bv32, now: int) returns (before: nat, after: nat)
    ensures before == 1 && after == 0
  {
    var c := new Cache(seed);
    c.Insert(ReqA, Some(ReplyOk), Some(now), true, true, true);
    before := |c.queue|;
    AllStaleSwept(c.queue, now + StaleTime, EntrySize(ReqB, None));
    c.Insert(ReqB, None, Some(now + StaleTime), false, true, true);
    after := |c.queue|;
  }
}
