/** The reference webhook receiver: a handler that verifies, deduplicates and then acts, and the
    bounded first-in-first-out log of delivery ids it deduplicates with. */
module Receiver {
  import opened Base

  // ---------------------------------------------------------------- deduplication by recency

  /** The last min(limit, |accepted|) ids accepted. */
  function Recent<T>(limit: nat, accepted: seq<T>): seq<T> {
    if |accepted| <= limit then accepted else accepted[|accepted| - limit..]
  }

  /** The accepted ids once `id` has been presented too. */
  function Present<T(==)>(limit: nat, accepted: seq<T>, id: T): seq<T> {
    if id in Recent(limit, accepted) then accepted else accepted + [id]
  }

  function PresentAll<T(==)>(limit: nat, ids: seq<T>): seq<T> {
    if ids == [] then [] else Present(limit, PresentAll(limit, ids[..|ids| - 1]), ids[|ids| - 1])
  }

  /** Any two acceptances of one id have at least `limit` acceptances of other ids between them. */
  ghost predicate Spaced<T>(limit: nat, accepted: seq<T>) {
    forall i, j :: 0 <= i < j < |accepted| && accepted[i] == accepted[j] ==> j - i > limit
  }

  lemma RecentIndex<T>(limit: nat, accepted: seq<T>, id: T)
    ensures id in Recent(limit, accepted) <==>
              exists i :: 0 <= i < |accepted| && |accepted| - i <= limit && accepted[i] == id
  {
    var r := Recent(limit, accepted);
    var offset := |accepted| - |r|;
    if id in r {
      var k :| 0 <= k < |r| && r[k] == id;
      assert accepted[offset + k] == id;
    }
    if i :| 0 <= i < |accepted| && |accepted| - i <= limit && accepted[i] == id {
      assert r[i - offset] == id;
    }
  }

  lemma PresentKeepsSpaced<T>(limit: nat, accepted: seq<T>, id: T)
    requires Spaced(limit, accepted)
    ensures Spaced(limit, Present(limit, accepted, id))
  {
    RecentIndex(limit, accepted, id);
  }

  lemma {:induction false} PresentAllSpaced<T>(limit: nat, ids: seq<T>)
    ensures Spaced(limit, PresentAll(limit, ids))
    ensures forall id :: id in ids ==> id in PresentAll(limit, ids)
  {
    if ids == [] {
      assert PresentAll(limit, ids) == [];
    } else {
      var before, last := ids[..|ids| - 1], ids[|ids| - 1];
      assert ids == before + [last];
      PresentAllSpaced(limit, before);
      PresentKeepsSpaced(limit, PresentAll(limit, before), last);
    }
  }

  /** Presented after `before`, an id already accepted is still among the last `limit` accepted. */
  predicate Remembered<T(==)>(limit: nat, before: seq<T>, presented: T, id: T) {
    presented == id && id in PresentAll(limit, before) ==> id in Recent(limit, PresentAll(limit, before))
  }

  /** Whenever an id already accepted is presented again, it is remembered. */
  ghost predicate RepeatsRemembered<T>(limit: nat, ids: seq<T>, id: T) {
    forall n :: 0 <= n < |ids| ==> Remembered(limit, ids[..n], ids[n], id)
  }

  /** One more presentation acts on `id` iff it is of `id` and the log has forgotten it or never knew it. */
  lemma PresentCounts<T>(limit: nat, accepted: seq<T>, presented: T, id: T)
    ensures Count(Present(limit, accepted, presented), id) ==
              Count(accepted, id) + (if presented == id && id !in Recent(limit, accepted) then 1 else 0)
    ensures (Count(accepted, id) > 0) <==> id in accepted
    ensures id in Recent(limit, accepted) ==> id in accepted
  {
    CountPositive(accepted, id);
    RecentIndex(limit, accepted, id);
    assert (accepted + [presented])[..|accepted|] == accepted;
  }

  lemma RepeatsSplit<T>(limit: nat, before: seq<T>, presented: T, id: T)
    ensures RepeatsRemembered(limit, before + [presented], id) <==>
              RepeatsRemembered(limit, before, id) && Remembered(limit, before, presented, id)
  {
    var ids := before + [presented];
    forall n | 0 <= n < |before| ensures ids[..n] == before[..n] && ids[n] == before[n] {
    }
    assert ids[..|before|] == before && ids[|before|] == presented;
    if RepeatsRemembered(limit, ids, id) {
      forall n | 0 <= n < |before| ensures Remembered(limit, before[..n], before[n], id) {
        assert Remembered(limit, ids[..n], ids[n], id);
      }
      assert Remembered(limit, ids[..|before|], ids[|before|], id);
    } else {
      var n :| 0 <= n < |ids| && !Remembered(limit, ids[..n], ids[n], id);
      assert n < |before| ==> !Remembered(limit, before[..n], before[n], id);
    }
  }

  lemma OneMorePresentation<T>(limit: nat, before: seq<T>, presented: T, id: T)
    requires Count(PresentAll(limit, before), id) <= 1 <==> RepeatsRemembered(limit, before, id)
    ensures Count(PresentAll(limit, before + [presented]), id) <= 1 <==>
              RepeatsRemembered(limit, before + [presented], id)
  {
    PresentCounts(limit, PresentAll(limit, before), presented, id);
    RepeatsSplit(limit, before, presented, id);
  }

  lemma NothingPresented<T>(limit: nat, id: T)
    ensures Count(PresentAll(limit, []), id) == 0 && RepeatsRemembered(limit, [], id)
  {
  }

  /** Over any sequence of presentations an id acts at most once exactly when its repeats are remembered. */
  lemma {:induction false} ActsOnceIff<T>(limit: nat, ids: seq<T>, id: T)
    ensures Count(PresentAll(limit, ids), id) <= 1 <==> RepeatsRemembered(limit, ids, id)
  {
    if ids == [] {
      NothingPresented(limit, id);
    } else {
      var before, last := ids[..|ids| - 1], ids[|ids| - 1];
      assert ids == before + [last];
      ActsOnceIff(limit, before, id);
      OneMorePresentation(limit, before, last, id);
    }
  }

  /** An id whose first acceptance is followed by at most `limit` others acted exactly once. */
  lemma {:induction false} OnceWhileRemembered<T>(limit: nat, accepted: seq<T>, id: T, first: nat)
    requires Spaced(limit, accepted)
    requires first < |accepted| && accepted[first] == id
    requires forall i :: 0 <= i < first ==> accepted[i] != id
    requires |accepted| - 1 - first <= limit
    ensures Count(accepted, id) == 1
  {
    assert forall j :: first < j < |accepted| ==> accepted[j] != id;
    CountSingle(accepted, id, first);
  }

  lemma {:induction false} CountSingle<T>(s: seq<T>, x: T, at: nat)
    requires at < |s| && s[at] == x
    requires forall i :: 0 <= i < |s| && i != at ==> s[i] != x
    ensures Count(s, x) == 1
  {
    var n := |s| - 1;
    if at == n {
      CountPositive(s[..n], x);
    } else {
      CountSingle(s[..n], x, at);
    }
  }

  /** Acting again on a repeat happens exactly when `limit` or more ids were accepted since. */
  lemma RepeatActsIff<T>(limit: nat, accepted: seq<T>, id: T)
    ensures Present(limit, accepted, id) != accepted <==>
              forall i :: 0 <= i < |accepted| && accepted[i] == id ==> |accepted| - 1 - i >= limit
  {
    RecentIndex(limit, accepted, id);
    if Present(limit, accepted, id) != accepted {
      assert id !in Recent(limit, accepted);
    } else {
      assert |accepted + [id]| == |accepted| + 1;
    }
  }

  // ---------------------------------------------------------------- deliveryLog

  function SetOf(order: seq<string>): set<string> { set id | id in order }

  lemma SetLosesFirst(order: seq<string>)
    requires order != [] && Distinct(order)
    ensures SetOf(order[1..]) == SetOf(order) - {order[0]} && Distinct(order[1..])
  {
    assert order == [order[0]] + order[1..];
  }

  class DeliveryLog {
    const limit: nat
    var ids: set<string>
    var order: seq<string>
    ghost var accepted: seq<string>  // every id First ever answered true for

    ghost predicate Valid()
      reads this
    {
      && order == Recent(limit, accepted)
      && ids == SetOf(order)
      && Distinct(order)
      && Spaced(limit, accepted)
    }

    constructor (limit: nat)
      ensures Valid() && accepted == [] && this.limit == limit
    {
      this.limit := limit;
      ids, order, accepted := {}, [], [];
    }

    /** Reports whether this delivery id is new, and records it. */
    method First(id: string) returns (isNew: bool)
      requires Valid()
      modifies this
      ensures Valid()
      ensures isNew <==> id !in Recent(limit, old(accepted))
      ensures accepted == Present(limit, old(accepted), id)
      ensures |order| <= limit
    {
      if id in ids {
        return false;
      }
      PresentKeepsSpaced(limit, accepted, id);
      ids := ids + {id};
      order := order + [id];
      accepted := accepted + [id];
      if |order| > limit {
        SetLosesFirst(order);
        ids := ids - {order[0]};
        order := order[1..];
      }
      return true;
    }
  }

  // ---------------------------------------------------------------- Handler

  const MAX_BODY_BYTES: nat := 65536

  datatype Event = Event(tenantId: string, entryId: string, contentType: string, locale: string)

  /** HMAC-SHA256 as an ideal function: one digest per (secret, body) pair. */
  datatype Digest = Mac(secret: string, body: string) | OtherBytes | NotHex

  /** The signature header, split at its first '='; a header without one is all digest. */
  datatype Signature = Signature(scheme: Option<string>, digest: Digest)

  datatype Request = Request(
    httpMethod: string,
    body: Option<string>,  // None: reading it failed
    signature: Signature,
    delivery: string,
    eventType: string)

  datatype Verdict = Refuse(code: int) | Ignore | Consider(event: Event)

  function Limited(body: string): string {
    if |body| <= MAX_BODY_BYTES then body else body[..MAX_BODY_BYTES]
  }

  /** Everything ServeHTTP decides before it consults the delivery log, in its order. */
  function Judge(secret: string, parse: string -> Option<Event>, r: Request): Verdict {
    if r.httpMethod != "POST" then Refuse(405)
    else if r.body.None? then Refuse(500)
    else
      var body := Limited(r.body.value);
      if r.signature.digest != Mac(secret, body) then Refuse(401)
      else if r.delivery == "" || r.eventType == "" then Refuse(400)
      else
        var ev := parse(body);
        if ev.None? || ev.value.tenantId == "" then Ignore else Consider(ev.value)
  }

  /** The request HTTPWebhookSender builds for one outbox row. */
  function Sent(secret: string, eventType: string, deliveryId: string, body: string): Request {
    Request("POST", Some(body), Signature(Some("sha256"), Mac(secret, body)), deliveryId, eventType)
  }

  /** A signed delivery is considered by its receiver exactly when the body fits, the two headers are
      present and the body parses to an event that names its tenant. */
  lemma SentIsConsideredIff(secret: string, parse: string -> Option<Event>,
                            eventType: string, deliveryId: string, body: string)
    ensures Judge(secret, parse, Sent(secret, eventType, deliveryId, body)).Consider? <==>
              && |body| <= MAX_BODY_BYTES && deliveryId != "" && eventType != ""
              && parse(body).Some? && parse(body).value.tenantId != ""
  {
    var r := Sent(secret, eventType, deliveryId, body);
    if |body| > MAX_BODY_BYTES {
      assert |Limited(body)| != |body|;
      assert r.signature.digest != Mac(secret, Limited(body));
    }
  }

  /** What the receiver reads of a body, and what it must be signed over: the first 65536 bytes. */
  ghost predicate GenuineBody(secret: string, r: Request, body: string) {
    && r.body.Some? && body <= r.body.value
    && |body| == (if |r.body.value| < 65536 then |r.body.value| else 65536)
    && r.signature.digest == Mac(secret, body)
  }

  /** The request proves knowledge of the secret: the digest is the MAC of the body as far as it is read. */
  ghost predicate Genuine(secret: string, r: Request) {
    exists body :: GenuineBody(secret, r, body)
  }

  lemma GenuineIff(secret: string, r: Request)
    ensures Genuine(secret, r) <==> r.body.Some? && r.signature.digest == Mac(secret, Limited(r.body.value))
  {
    if r.body.Some? && r.signature.digest == Mac(secret, Limited(r.body.value)) {
      assert GenuineBody(secret, r, Limited(r.body.value));
    }
    if body :| GenuineBody(secret, r, body) {
      assert body == Limited(r.body.value);
    }
  }

  // ---------------------------------------------------------------- any sequence of requests

  /** What a receiver has done: the ids it accepted, and its calls of act with delivery id, type and event. */
  datatype Receipts = Receipts(accepted: seq<string>, acted: seq<(string, string, Event)>)

  function Received(secret: string, parse: string -> Option<Event>, limit: nat, s: Receipts, r: Request): Receipts {
    var v := Judge(secret, parse, r);
    if !v.Consider? || r.delivery in Recent(limit, s.accepted) then s
    else Receipts(s.accepted + [r.delivery], s.acted + [(r.delivery, r.eventType, v.event)])
  }

  function ReceivedAll(secret: string, parse: string -> Option<Event>, limit: nat, rs: seq<Request>): Receipts {
    if rs == [] then Receipts([], [])
    else Received(secret, parse, limit, ReceivedAll(secret, parse, limit, rs[..|rs| - 1]), rs[|rs| - 1])
  }

  ghost function GenuineOnly(secret: string, rs: seq<Request>): seq<Request> {
    if rs == [] then []
    else GenuineOnly(secret, rs[..|rs| - 1]) + (if Genuine(secret, rs[|rs| - 1]) then [rs[|rs| - 1]] else [])
  }

  /** Requests that do not prove the secret leave no trace, in whatever order they are mixed among the others:
      no action, and no id remembered that would make a genuine delivery look like a repeat. */
  lemma {:induction false} ForgeriesChangeNothing(secret: string, parse: string -> Option<Event>, limit: nat, rs: seq<Request>)
    ensures ReceivedAll(secret, parse, limit, rs) == ReceivedAll(secret, parse, limit, GenuineOnly(secret, rs))
  {
    if rs != [] {
      var before, last := rs[..|rs| - 1], rs[|rs| - 1];
      var genuine := GenuineOnly(secret, before);
      ForgeriesChangeNothing(secret, parse, limit, before);
      GenuineIff(secret, last);
      assert (genuine + [last])[..|genuine|] == genuine;
      assert genuine + [] == genuine;
    }
  }

  class Handler {
    const secret: string
    const parse: string -> Option<Event>
    const seen: DeliveryLog
    var acted: seq<(string, string, Event)>

    ghost predicate Valid()
      reads this, seen
    {
      seen.Valid() && |acted| == |seen.accepted| &&
      forall i :: 0 <= i < |acted| ==> acted[i].0 == seen.accepted[i]
    }

    ghost function Snapshot(): Receipts
      reads this, seen
    {
      Receipts(seen.accepted, acted)
    }

    constructor (secret: string, parse: string -> Option<Event>, seen: DeliveryLog)
      requires seen.Valid() && seen.accepted == []
      ensures Valid() && acted == []
      ensures this.secret == secret && this.parse == parse && this.seen == seen
    {
      this.secret, this.parse, this.seen := secret, parse, seen;
      acted := [];
    }

    /** Answers 200 to everything genuine, and acts on it the first time its id is remembered as new. */
    method ServeHTTP(r: Request) returns (code: int)
      requires Valid()
      modifies this, seen
      ensures Valid()
      ensures code == (if Judge(secret, parse, r).Refuse? then Judge(secret, parse, r).code else 200)
      ensures Snapshot() == Received(secret, parse, seen.limit, old(Snapshot()), r)
      // what that comes to, whoever sent the request
      ensures code == 200 <==> r.httpMethod == "POST" && Genuine(secret, r) && r.delivery != "" && r.eventType != ""
      ensures code == 405 <==> r.httpMethod != "POST"
      ensures code == 500 <==> r.httpMethod == "POST" && r.body.None?
      ensures code == 401 <==> r.httpMethod == "POST" && r.body.Some? && !Genuine(secret, r)
      ensures code == 400 <==> r.httpMethod == "POST" && Genuine(secret, r) && (r.delivery == "" || r.eventType == "")
      ensures acted != old(acted) <==>
                && code == 200 && r.delivery !in Recent(seen.limit, old(seen.accepted))
                && exists body :: GenuineBody(secret, r, body) && parse(body).Some? && parse(body).value.tenantId != ""
      ensures acted != old(acted) ==>
                exists body :: GenuineBody(secret, r, body) && parse(body).Some?
                               && acted == old(acted) + [(r.delivery, r.eventType, parse(body).value)]
    {
      GenuineIff(secret, r);
      if r.httpMethod != "POST" {
        return 405;
      }
      if r.body.None? {
        return 500;
      }
      var body := Limited(r.body.value);
      if r.signature.digest != Mac(secret, body) {
        return 401;
      }
      if r.delivery == "" || r.eventType == "" {
        return 400;
      }
      var ev := parse(body);
      if ev.None? || ev.value.tenantId == "" {
        return 200;
      }
      var isNew := seen.First(r.delivery);
      if !isNew {
        return 200;
      }
      assert |seen.accepted| == |old(seen.accepted)| + 1;
      acted := acted + [(r.delivery, r.eventType, ev.value)];
      return 200;
    }
  }
}
