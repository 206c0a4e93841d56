/**
 * The abstract state of the KDC replay lookaside cache (src/kdc/replay.c)
 * and the facts about it that the cache operations rely on.
 *
 * The expiration queue (a TAILQ, oldest entry first) is a sequence of
 * entries.  The hash bucket i (a LIST, new entries pushed at the head) is
 * always Chain(queue, seed, i): the queue entries whose request hashes to
 * i, newest first.  Unlinking an entry from either list is Without.
 */
module LookasideSpec {
  import opened Wrappers
  import opened Murmur

  /** sizeof(struct entry) on an LP64 platform: two LIST and two TAILQ
   *  pointers, num_hits, timein and two krb5_data headers. */
  const EntryOverhead: nat := 72
  /** LOOKASIDE_MAX_SIZE */
  const MaxSize: nat := 10 * 1024 * 1024
  /** STALE_TIME: two minutes. */
  const StaleTime: int := 2 * 60

  /**
   * struct entry.  Only num_hits changes after insertion; a NULL reply is
   * stored as an empty one (the entry is zero-filled by calloc).
   */
  class Entry {
    var numHits: int
    const timein: int
    const req: seq<bv8>
    const reply: seq<bv8>

    constructor (timein: int, req: seq<bv8>, reply: seq<bv8>)
      ensures numHits == 0
      ensures this.timein == timein && this.req == req && this.reply == reply
    {
      numHits := 0;
      this.timein := timein;
      this.req := req;
      this.reply := reply;
    }
  }

  function Abs(x: int): int { if x < 0 then -x else x }

  /** STALE: the entry's insertion time is two minutes or more away from now,
   *  in either direction. */
  predicate Stale(timein: int, now: int) {
    Abs(timein - now) >= StaleTime
  }

  /** Staleness cuts both ways: a clock that moved back by two minutes or
   *  more also makes an entry stale. */
  lemma StaleIff(timein: int, now: int)
    ensures Stale(timein, now) <==> (now >= timein + StaleTime || now <= timein - StaleTime)
  {
  }

  /** entry_size: the rough footprint of an entry for req and rep, where rep
   *  may be NULL. */
  function EntrySize(req: seq<bv8>, rep: Option<seq<bv8>>): nat {
    EntryOverhead + |req| + (match rep case None => 0 case Some(r) => |r|)
  }

  /**
   * The size insert computes from its (possibly NULL) reply argument is the
   * size discard later computes from the stored reply, so total_size is
   * decremented by exactly what was added.
   */
  lemma StoredSizeMatches(req: seq<bv8>, rep: Option<seq<bv8>>)
    ensures EntrySize(req, rep) == EntrySize(req, Some(rep.GetOr([])))
    ensures EntrySize(req, rep) >= EntryOverhead + |req|
  {
  }

  /** The footprint discard_entry subtracts for a stored entry. */
  function Size(e: Entry): nat {
    EntrySize(e.req, Some(e.reply))
  }

  /** The sum of the footprints of the entries of q. */
  function SumSizes(q: seq<Entry>): nat
    decreases |q|
  {
    if q == [] then 0 else SumSizes(q[..|q| - 1]) + Size(q[|q| - 1])
  }

  /** No entry occurs twice in q. */
  predicate Distinct(q: seq<Entry>)
    decreases |q|
  {
    q == [] || (q[|q| - 1] !in q[..|q| - 1] && Distinct(q[..|q| - 1]))
  }

  /** Distinct means that any two positions hold different entries. */
  lemma {:induction false} DistinctIndices(q: seq<Entry>)
    ensures Distinct(q) <==> forall i, j :: 0 <= i < j < |q| ==> q[i] != q[j]
    decreases |q|
  {
    if q != [] {
      var pre, l := q[..|q| - 1], q[|q| - 1];
      DistinctIndices(pre);
      assert forall i :: 0 <= i < |pre| ==> pre[i] == q[i];
      assert l !in pre <==> forall i :: 0 <= i < |pre| ==> q[i] != l;
    }
  }

  /** q with x unlinked, the rest in their order. */
  function Without(s: seq<Entry>, x: Entry): seq<Entry>
    decreases |s|
  {
    if s == [] then []
    else Without(s[..|s| - 1], x) + (if s[|s| - 1] == x then [] else [s[|s| - 1]])
  }

  /** The entries of q whose request hashes to bucket i, newest first. */
  function Chain(q: seq<Entry>, seed: bv32, i: nat): seq<Entry>
    decreases |q|
  {
    if q == [] then []
    else
      var e := q[|q| - 1];
      (if BucketIndex(seed, e.req) == i then [e] else []) + Chain(q[..|q| - 1], seed, i)
  }

  /** The newest entry of q whose request equals req byte for byte. */
  function Newest(q: seq<Entry>, req: seq<bv8>): (r: Option<Entry>)
    ensures r.Some? ==> r.value in q && r.value.req == req
    ensures r.None? <==> forall e :: e in q ==> e.req != req
    decreases |q|
  {
    if q == [] then None
    else if q[|q| - 1].req == req then Some(q[|q| - 1])
    else Newest(q[..|q| - 1], req)
  }

  /** The first entry of a bucket whose request equals req: the bucket scan
   *  of find_entry. */
  function FirstMatch(b: seq<Entry>, req: seq<bv8>): (r: Option<Entry>)
    ensures r.Some? ==> r.value in b && r.value.req == req
    ensures r.None? <==> forall e :: e in b ==> e.req != req
    decreases |b|
  {
    if b == [] then None
    else if b[0].req == req then Some(b[0])
    else FirstMatch(b[1..], req)
  }

  // ---------------------------------------------------------------------
  // Concatenation and unlinking

  lemma {:induction false} SumConcat(a: seq<Entry>, b: seq<Entry>)
    ensures SumSizes(a + b) == SumSizes(a) + SumSizes(b)
    decreases |b|
  {
    if b != [] {
      assert (a + b)[..|a + b| - 1] == a + b[..|b| - 1];
      SumConcat(a, b[..|b| - 1]);
    } else {
      assert a + b == a;
    }
  }

  lemma {:induction false} WithoutConcat(a: seq<Entry>, b: seq<Entry>, x: Entry)
    ensures Without(a + b, x) == Without(a, x) + Without(b, x)
    decreases |b|
  {
    if b != [] {
      assert (a + b)[..|a + b| - 1] == a + b[..|b| - 1];
      WithoutConcat(a, b[..|b| - 1], x);
    } else {
      assert a + b == a;
    }
  }

  lemma {:induction false} ChainConcat(a: seq<Entry>, b: seq<Entry>, seed: bv32, i: nat)
    ensures Chain(a + b, seed, i) == Chain(b, seed, i) + Chain(a, seed, i)
    decreases |b|
  {
    if b == [] {
      assert a + b == a;
    } else {
      var b', l := b[..|b| - 1], b[|b| - 1];
      var c := if BucketIndex(seed, l.req) == i then [l] else [];
      assert (a + b)[..|a + b| - 1] == a + b' && (a + b)[|a + b| - 1] == l;
      calc {
        Chain(a + b, seed, i);
        c + Chain(a + b', seed, i);
        { ChainConcat(a, b', seed, i); }
        c + (Chain(b', seed, i) + Chain(a, seed, i));
        (c + Chain(b', seed, i)) + Chain(a, seed, i);
        Chain(b, seed, i) + Chain(a, seed, i);
      }
    }
  }

  /** Unlinking x keeps exactly the other elements. */
  lemma {:induction false} WithoutMembers(s: seq<Entry>, x: Entry)
    ensures forall y :: y in Without(s, x) <==> y in s && y != x
    decreases |s|
  {
    if s != [] {
      WithoutMembers(s[..|s| - 1], x);
      assert s == s[..|s| - 1] + [s[|s| - 1]];
    }
  }

  /** Unlinking an entry that is not there changes nothing (the no-op case). */
  lemma {:induction false} WithoutAbsent(s: seq<Entry>, x: Entry)
    requires x !in s
    ensures Without(s, x) == s
    decreases |s|
  {
    if s != [] {
      WithoutAbsent(s[..|s| - 1], x);
      assert s == s[..|s| - 1] + [s[|s| - 1]];
    }
  }

  /**
   * In a queue without duplicates, unlinking the entry at position k removes
   * that position and nothing else: every other entry stays, in its order.
   */
  lemma WithoutAt(s: seq<Entry>, k: nat)
    requires Distinct(s) && k < |s|
    ensures Without(s, s[k]) == s[..k] + s[k + 1..]
    ensures Distinct(Without(s, s[k]))
    ensures SumSizes(Without(s, s[k])) == SumSizes(s) - Size(s[k])
  {
    var pre, x, post := s[..k], s[k], s[k + 1..];
    SplitAt(s, k);
    DistinctRemove(s, k);
    WithoutSplit(pre, x, post);
    SumConcat(pre + [x], post);
    SumConcat(pre, [x]);
    SumConcat(pre, post);
    assert SumSizes([x]) == Size(x) by {
      assert [x][..0] == [];
    }
  }

  lemma SplitAt(s: seq<Entry>, k: nat)
    requires k < |s|
    ensures s == s[..k] + [s[k]] + s[k + 1..]
  {
  }

  lemma DistinctRemove(s: seq<Entry>, k: nat)
    requires Distinct(s) && k < |s|
    ensures s[k] !in s[..k] && s[k] !in s[k + 1..]
    ensures Distinct(s[..k] + s[k + 1..])
  {
    var r := s[..k] + s[k + 1..];
    DistinctIndices(s);
    DistinctIndices(r);
    forall i, j | 0 <= i < j < |r|
      ensures r[i] != r[j]
    {
      var i' := if i < k then i else i + 1;
      var j' := if j < k then j else j + 1;
      assert r[i] == s[i'] && r[j] == s[j'];
    }
  }

  lemma WithoutSplit(pre: seq<Entry>, x: Entry, post: seq<Entry>)
    requires x !in pre && x !in post
    ensures Without(pre + [x] + post, x) == pre + post
  {
    calc {
      Without(pre + [x] + post, x);
      { WithoutConcat(pre + [x], post, x); }
      Without(pre + [x], x) + Without(post, x);
      { WithoutConcat(pre, [x], x); WithoutAbsent(post, x); }
      Without(pre, x) + Without([x], x) + post;
      { WithoutAbsent(pre, x); assert [x][..0] == []; }
      pre + [] + post;
      { assert pre + [] == pre; }
      pre + post;
    }
  }

  // ---------------------------------------------------------------------
  // Buckets

  /** Bucket i holds exactly the queue entries that hash to i. */
  lemma {:induction false} ChainMembers(q: seq<Entry>, seed: bv32, i: nat)
    ensures forall e :: e in Chain(q, seed, i) <==> e in q && BucketIndex(seed, e.req) == i
    decreases |q|
  {
    if q != [] {
      ChainMembers(q[..|q| - 1], seed, i);
      assert q == q[..|q| - 1] + [q[|q| - 1]];
    }
  }

  /** Appending to the queue pushes the entry at the head of its own bucket
   *  and leaves every other bucket alone. */
  lemma ChainAppend(q: seq<Entry>, e: Entry, seed: bv32, i: nat)
    ensures Chain(q + [e], seed, i) == if BucketIndex(seed, e.req) == i then [e] + Chain(q, seed, i) else Chain(q, seed, i)
  {
    assert (q + [e])[..|q|] == q;
  }

  /** The contents of every bucket of a table whose expiration queue is q. */
  function Table(q: seq<Entry>, seed: bv32): seq<seq<Entry>> {
    seq(HashSize, i requires 0 <= i < HashSize => Chain(q, seed, i))
  }

  /** An empty queue means every bucket is empty. */
  lemma TableEmpty(seed: bv32)
    ensures Table([], seed) == seq(HashSize, i => [])
  {
  }

  /** Unlinking x from the queue changes only the bucket x hashes to, where
   *  x is unlinked too. */
  lemma TableUnlink(q: seq<Entry>, x: Entry, seed: bv32)
    ensures var h := BucketIndex(seed, x.req);
      Table(Without(q, x), seed) == Table(q, seed)[h := Without(Table(q, seed)[h], x)]
  {
    var h := BucketIndex(seed, x.req);
    forall i | 0 <= i < HashSize
      ensures Table(Without(q, x), seed)[i] == Table(q, seed)[h := Without(Table(q, seed)[h], x)][i]
    {
      UnlinkBuckets(q, x, seed, i);
    }
  }

  /** Appending e to the queue pushes it at the head of the bucket it
   *  hashes to and changes no other bucket. */
  lemma TableAppend(q: seq<Entry>, e: Entry, seed: bv32)
    ensures var h := BucketIndex(seed, e.req);
      Table(q + [e], seed) == Table(q, seed)[h := [e] + Table(q, seed)[h]]
  {
    var h := BucketIndex(seed, e.req);
    var t, t' := Table(q, seed), Table(q + [e], seed);
    forall i | 0 <= i < HashSize
      ensures t'[i] == t[h := [e] + t[h]][i]
    {
      ChainAppend(q, e, seed, i);
    }
  }

  /** Unlinking x from the queue unlinks it from its own bucket and leaves
   *  every other bucket alone. */
  lemma UnlinkBuckets(q: seq<Entry>, x: Entry, seed: bv32, i: nat)
    ensures Chain(Without(q, x), seed, i) ==
      if i == BucketIndex(seed, x.req) then Without(Chain(q, seed, i), x) else Chain(q, seed, i)
  {
    ChainWithout(q, x, seed, i);
    if i != BucketIndex(seed, x.req) {
      ChainMembers(q, seed, i);
      WithoutAbsent(Chain(q, seed, i), x);
    }
  }

  /** Unlinking x from the queue is unlinking it from its bucket. */
  lemma {:induction false} ChainWithout(q: seq<Entry>, x: Entry, seed: bv32, i: nat)
    ensures Chain(Without(q, x), seed, i) == Without(Chain(q, seed, i), x)
    decreases |q|
  {
    if q != [] {
      var pre, l := q[..|q| - 1], q[|q| - 1];
      assert q == pre + [l];
      ChainWithout(pre, x, seed, i);
      assert Without([l], x) == if l == x then [] else [l] by {
        assert [l][..0] == [];
      }
      assert Chain([l], seed, i) == if BucketIndex(seed, l.req) == i then [l] else [] by {
        assert [l][..0] == [];
      }
      WithoutConcat(pre, [l], x);
      ChainConcat(Without(pre, x), Without([l], x), seed, i);
      ChainConcat(pre, [l], seed, i);
      WithoutConcat(Chain([l], seed, i), Chain(pre, seed, i), x);
    }
  }

  /**
   * Scanning the bucket a request hashes to finds the newest queue entry
   * with those bytes: find_entry has no false negatives, and because the
   * bucket holds the newest entry first, it returns that one.
   */
  lemma {:induction false} FindInChain(q: seq<Entry>, seed: bv32, req: seq<bv8>)
    ensures FirstMatch(Chain(q, seed, BucketIndex(seed, req)), req) == Newest(q, req)
    decreases |q|
  {
    if q != [] {
      var pre, l := q[..|q| - 1], q[|q| - 1];
      var i := BucketIndex(seed, req);
      FindInChain(pre, seed, req);
      if BucketIndex(seed, l.req) == i {
        var c := Chain(pre, seed, i);
        assert Chain(q, seed, i) == [l] + c;
        assert ([l] + c)[1..] == c;
      } else {
        assert l.req != req;
        assert Chain(q, seed, i) == Chain(pre, seed, i);
      }
    }
  }

  // ---------------------------------------------------------------------
  // The insert sweep

  /** The sweep stops at the head r[0]: it is fresh and the new entry fits. */
  predicate Keeps(r: seq<Entry>, now: int, esize: nat) {
    r != [] && !Stale(r[0].timein, now) && SumSizes(r) + esize <= MaxSize
  }

  /**
   * How many entries the sweep of kdc_insert_lookaside discards from the
   * front of q: the first position at which Keeps holds, or all of q.
   */
  function SweepCount(q: seq<Entry>, now: int, esize: nat): (k: nat)
    ensures k <= |q|
    ensures forall j :: 0 <= j < k ==> !Keeps(q[j..], now, esize)
    ensures k < |q| ==> Keeps(q[k..], now, esize)
    decreases |q|
  {
    if q == [] || Keeps(q, now, esize) then 0
    else
      var k := 1 + SweepCount(q[1..], now, esize);
      assert forall j :: 1 <= j <= |q| ==> q[j..] == q[1..][j - 1..];
      k
  }

  /** The sweep goes on past position j when the entry there does not stop it. */
  lemma SweepNext(q: seq<Entry>, j: nat, now: int, esize: nat)
    requires j < |q| && j <= SweepCount(q, now, esize) && !Keeps(q[j..], now, esize)
    ensures j + 1 <= SweepCount(q, now, esize)
  {
  }

  /** The sweep ends at j when the queue is exhausted there or Keeps holds. */
  lemma SweepDone(q: seq<Entry>, j: nat, now: int, esize: nat)
    requires j <= |q| && j <= SweepCount(q, now, esize) && (j == |q| || Keeps(q[j..], now, esize))
    ensures j == SweepCount(q, now, esize)
  {
  }

  /** After the sweep either the survivors and the new entry fit within
   *  LOOKASIDE_MAX_SIZE, or nothing survived. */
  lemma SweepBound(q: seq<Entry>, now: int, esize: nat)
    ensures var k := SweepCount(q, now, esize);
      SumSizes(q[k..]) + esize <= MaxSize || k == |q|
    ensures var k := SweepCount(q, now, esize);
      k < |q| ==> !Stale(q[k].timein, now)
  {
  }

  /** When every entry is stale the sweep empties the queue. */
  lemma {:induction false} AllStaleSwept(q: seq<Entry>, now: int, esize: nat)
    requires forall j :: 0 <= j < |q| ==> Stale(q[j].timein, now)
    ensures SweepCount(q, now, esize) == |q|
    decreases |q|
  {
    if q != [] {
      AllStaleSwept(q[1..], now, esize);
    }
  }

  /** The hit counts of the entries of q, in queue order. */
  function HitCounts(q: seq<Entry>): (hs: seq<int>)
    reads q
    ensures |hs| == |q| && forall t :: 0 <= t < |q| ==> hs[t] == q[t].numHits
  {
    seq(|q|, t reads q requires 0 <= t < |q| => q[t].numHits)
  }

  /** The largest of m and the numbers in hs. */
  function MaxOf(m: int, hs: seq<int>): (r: int)
    ensures r >= m && forall t :: 0 <= t < |hs| ==> r >= hs[t]
    ensures r == m || exists t :: 0 <= t < |hs| && r == hs[t]
    decreases |hs|
  {
    if hs == [] then m else Max(MaxOf(m, hs[..|hs| - 1]), hs[|hs| - 1])
  }
}
