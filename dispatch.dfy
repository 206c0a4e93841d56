/**
 * The KDC packet dispatcher of src/kdc/dispatch.c: answer from the replay
 * lookaside cache when possible; otherwise classify the packet, decode and
 * process it, and cache the reply when processing succeeded.
 *
 * The message classifiers, the ASN.1 decoders and the request processors
 * are collaborators whose code is not part of this model; they are fields
 * of Kdc and the model only fixes how dispatch combines their results.
 */
module Dispatch {
  import opened Wrappers
  import opened Krb5Codes
  import opened LookasideSpec
  import opened Lookaside

  /** The sender's address, handed through to the processors unchanged. */
  datatype Addr = Addr(bytes: seq<bv8>)

  /** A decoded KDC-REQ; its structure belongs to the decoder. */
  datatype KdcReq = KdcReq(fields: seq<bv8>)

  /** What a decoder returns: an error code, and the request when the code is Ok. */
  datatype Decoded = Decoded(code: Code, req: KdcReq)

  /** What a processor returns: its error code and what it left in *response. */
  datatype Processed = Processed(code: Code, response: Option<seq<bv8>>)

  /** The collaborators of dispatch, and whether KRB4 support is compiled in. */
  datatype Kdc = Kdc(
    isTgsReq: seq<bv8> -> bool,
    isAsReq: seq<bv8> -> bool,
    decodeTgsReq: seq<bv8> -> Decoded,
    decodeAsReq: seq<bv8> -> Decoded,
    processTgsReq: (KdcReq, Addr) -> Processed,
    processAsReq: (KdcReq, Addr) -> Processed,
    processV4: (seq<bv8>, Addr) -> Processed,
    krb4: bool)

  /** The two KDC-REQ message kinds: KRB_TGS_REQ and KRB_AS_REQ. */
  datatype Kind = Tgs | As

  /** The observable steps dispatch takes, in order. */
  datatype Step =
    | CheckCache
    | Decode(kind: Kind)
    | Process(kind: Kind)
    | FreeReq(kind: Kind)
    | ProcessV4
    | InsertCache

  /** The result of the cache-miss path: return value, response, and steps. */
  datatype Outcome = Outcome(code: Code, response: Option<seq<bv8>>, steps: seq<Step>)

  /** The old-version test of the KRB4 branch: the first byte is 4. */
  predicate IsV4(kdc: Kdc, pkt: seq<bv8>) {
    kdc.krb4 && |pkt| > 0 && pkt[0] == 4
  }

  /** Decode a KDC-REQ of the given kind and, when that succeeds, process
   *  it and free the decoded request. */
  function Serve(kdc: Kdc, kind: Kind, pkt: seq<bv8>, from: Addr): Outcome {
    var d := if kind == Tgs then kdc.decodeTgsReq(pkt) else kdc.decodeAsReq(pkt);
    if d.code != Ok then Outcome(d.code, None, [Decode(kind)])
    else
      var p := if kind == Tgs then kdc.processTgsReq(d.req, from) else kdc.processAsReq(d.req, from);
      Outcome(p.code, p.response, [Decode(kind), Process(kind), FreeReq(kind)])
  }

  /**
   * The cache-miss path: TGS-REQ is tried first, then AS-REQ, then (with
   * KRB4) the old version, and anything else is KRB5KRB_AP_ERR_MSG_TYPE.
   */
  function Miss(kdc: Kdc, pkt: seq<bv8>, from: Addr): Outcome {
    if kdc.isTgsReq(pkt) then Serve(kdc, Tgs, pkt, from)
    else if kdc.isAsReq(pkt) then Serve(kdc, As, pkt, from)
    else if IsV4(kdc, pkt) then
      var p := kdc.processV4(pkt, from);
      Outcome(p.code, p.response, [ProcessV4])
    else Outcome(ApErrMsgType, None, [])
  }

  /**
   * dispatch.  On a cache hit (an entry for pkt exists and its reply could
   * be copied) it returns 0 with the cached reply and does nothing else.
   * Otherwise it follows Miss, and calls kdc_insert_lookaside with the
   * response exactly when the result is 0.
   */
  method Dispatch(cache: Cache, kdc: Kdc, pkt: seq<bv8>, from: Addr,
                  copyOk: bool, clock: Option<int>, allocOk: bool, copyReqOk: bool, copyReplyOk: bool)
    returns (retval: Code, response: Option<seq<bv8>>, ghost steps: seq<Step>)
    requires cache.Valid()
    modifies cache, cache.buckets, cache.queue
    ensures cache.Valid()
    ensures old(Newest(cache.queue, pkt)).Some? && copyOk ==>
      retval == Ok && response == Some(old(Newest(cache.queue, pkt)).value.reply)
      && steps == [CheckCache] && cache.queue == old(cache.queue)
    ensures !(old(Newest(cache.queue, pkt)).Some? && copyOk) ==>
      var o := Miss(kdc, pkt, from);
      retval == o.code && response == o.response
      && steps == [CheckCache] + o.steps + (if o.code == Ok then [InsertCache] else [])
    ensures retval != Ok ==> cache.queue == old(cache.queue)
    ensures InsertCache in steps <==> (retval == Ok && steps != [CheckCache])
    ensures retval == Ok && steps != [CheckCache] && clock.Some? && allocOk && copyReqOk
            && (response.None? || copyReplyOk) ==>
      Newest(cache.queue, pkt).Some? && Newest(cache.queue, pkt).value.reply == response.GetOr([])
  {
    var hit;
    hit, response := cache.Check(pkt, copyOk);
    if hit {
      // a hit: the reply is re-transmitted (the syslog line is not modelled)
      return Ok, response, [CheckCache];
    }
    ghost var missSteps;
    retval, response, missSteps := Classify(kdc, pkt, from);
    steps := [CheckCache] + missSteps;
    if retval == Ok {
      cache.Insert(pkt, response, clock, allocOk, copyReqOk, copyReplyOk);
      steps := steps + [InsertCache];
    }
  }

  /** The decode-and-process part of dispatch, after a cache miss. */
  method Classify(kdc: Kdc, pkt: seq<bv8>, from: Addr)
    returns (retval: Code, response: Option<seq<bv8>>, ghost steps: seq<Step>)
    ensures Outcome(retval, response, steps) == Miss(kdc, pkt, from)
  {
    response := None;
    steps := [];
    if kdc.isTgsReq(pkt) {
      var d := kdc.decodeTgsReq(pkt);
      retval := d.code;
      steps := steps + [Decode(Tgs)];
      if retval == Ok {
        var p := kdc.processTgsReq(d.req, from);
        retval, response := p.code, p.response;
        steps := steps + [Process(Tgs), FreeReq(Tgs)];
      }
    } else if kdc.isAsReq(pkt) {
      var d := kdc.decodeAsReq(pkt);
      retval := d.code;
      steps := steps + [Decode(As)];
      if retval == Ok {
        var p := kdc.processAsReq(d.req, from);
        retval, response := p.code, p.response;
        steps := steps + [Process(As), FreeReq(As)];
      }
    } else if kdc.krb4 && |pkt| > 0 && pkt[0] == 4 {
      var p := kdc.processV4(pkt, from);
      retval, response := p.code, p.response;
      steps := steps + [ProcessV4];
    } else {
      retval := ApErrMsgType;
    }
  }

  // ---------------------------------------------------------------------
  // Properties of the cache-miss path

  /** TGS-REQ takes precedence: an AS-REQ or old-version packet that also
   *  passes the TGS test is served as a TGS-REQ, and so on down. */
  lemma ClassificationOrder(kdc: Kdc, pkt: seq<bv8>, from: Addr)
    ensures var s := Miss(kdc, pkt, from).steps;
      (kdc.isTgsReq(pkt) <==> s != [] && s[0] == Decode(Tgs))
      && (!kdc.isTgsReq(pkt) && kdc.isAsReq(pkt) <==> s != [] && s[0] == Decode(As))
      && (!kdc.isTgsReq(pkt) && !kdc.isAsReq(pkt) && IsV4(kdc, pkt) <==> s == [ProcessV4])
      && (!kdc.isTgsReq(pkt) && !kdc.isAsReq(pkt) && !IsV4(kdc, pkt) <==> s == [])
  {
  }

  /** A decode failure is returned unchanged and the processor never runs. */
  lemma DecodeFailure(kdc: Kdc, kind: Kind, pkt: seq<bv8>, from: Addr)
    requires (if kind == Tgs then kdc.decodeTgsReq(pkt) else kdc.decodeAsReq(pkt)).code != Ok
    ensures var o := Serve(kdc, kind, pkt, from);
      o.code == (if kind == Tgs then kdc.decodeTgsReq(pkt) else kdc.decodeAsReq(pkt)).code
      && Process(kind) !in o.steps && FreeReq(kind) !in o.steps
  {
  }

  /** A request that decoded is freed exactly once, after processing,
   *  whatever the processor returned; one that did not decode is never
   *  freed. */
  lemma FreedOnce(kdc: Kdc, pkt: seq<bv8>, from: Addr, kind: Kind)
    ensures var s := Miss(kdc, pkt, from).steps;
      multiset(s)[FreeReq(kind)] == (if Process(kind) in s then 1 else 0)
      && (Process(kind) in s ==> |s| >= 2 && s[|s| - 1] == FreeReq(kind) && s[|s| - 2] == Process(kind))
  {
    var s := Miss(kdc, pkt, from).steps;
    if kdc.isTgsReq(pkt) {
      ServeFreesOnce(kdc, Tgs, pkt, from, kind);
    } else if kdc.isAsReq(pkt) {
      ServeFreesOnce(kdc, As, pkt, from, kind);
    } else {
      assert s == [ProcessV4] || s == [];
    }
  }

  lemma ServeFreesOnce(kdc: Kdc, k: Kind, pkt: seq<bv8>, from: Addr, kind: Kind)
    ensures var s := Serve(kdc, k, pkt, from).steps;
      multiset(s)[FreeReq(kind)] == (if Process(kind) in s then 1 else 0)
      && (Process(kind) in s ==> |s| >= 2 && s[|s| - 1] == FreeReq(kind) && s[|s| - 2] == Process(kind))
  {
    var s := Serve(kdc, k, pkt, from).steps;
    if |s| == 1 {
      assert s == [Decode(k)];
      assert multiset(s) == multiset{Decode(k)};
    } else {
      assert s == [Decode(k), Process(k), FreeReq(k)];
      assert multiset(s) == multiset{Decode(k), Process(k), FreeReq(k)};
    }
  }

  /** dispatch returns 0 or the code of exactly one of: the decoder, the
   *  processor that ran, or the message-type check. */
  lemma ReturnSources(kdc: Kdc, pkt: seq<bv8>, from: Addr)
    ensures var o := Miss(kdc, pkt, from);
      var k := if kdc.isTgsReq(pkt) then Tgs else As;
      var d := if k == Tgs then kdc.decodeTgsReq(pkt) else kdc.decodeAsReq(pkt);
      (Decode(k) in o.steps && Process(k) !in o.steps ==> o.code == d.code && o.code != Ok)
      && (Process(k) in o.steps ==>
            o.code == (if k == Tgs then kdc.processTgsReq(d.req, from) else kdc.processAsReq(d.req, from)).code)
      && (o.steps == [ProcessV4] ==> o.code == kdc.processV4(pkt, from).code)
      && (o.steps == [] ==> o.code == ApErrMsgType)
  {
  }
}
