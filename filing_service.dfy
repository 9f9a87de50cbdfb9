/**
 * The poller: it holds the two validators between polls, puts the matching
 * conditional headers on each request, takes the validators of every response
 * whatever its status, and reads the body of a 200 response with the entry
 * extractor, handing every filing it builds to the store.
 */
module Service {
  import opened Options
  import opened ConditionalRequest
  import AtomExtract
  import Entity

  /** What one request comes back with: a failure of the transport, or a response. */
  datatype Reply =
    | TransportError
    | Response(status: int, headers: seq<Header>, body: seq<AtomExtract.Event>)

  class FilingService {
    /** The entity tag of the last response that carried one, or null. */
    var lastEtag: Option<string>
    /** The modification date of the last response that carried one, or null. */
    var lastModified: Option<string>
    /** Every row handed to the store so far, in the order handed over. */
    var dispatched: seq<Entity.Row>

    /** The two validators as a value. */
    function Held(): Validators
      reads this
    {
      Validators(lastEtag, lastModified)
    }

    /** A new service holds no validator and has stored nothing. */
    constructor ()
      ensures Held() == NoValidators && dispatched == []
    {
      lastEtag, lastModified := None, None;
      dispatched := [];
    }

    /** The conditional headers the next request carries. */
    method RequestHeaders() returns (hs: seq<Header>)
      ensures hs == ConditionalHeaders(Held())
    {
      hs := [];
      if lastEtag.Some? {
        hs := hs + [("If-None-Match", lastEtag.value)];
      }
      if lastModified.Some? {
        hs := hs + [("If-Modified-Since", lastModified.value)];
      }
    }

    /**
     * A response arrives: each validator is replaced by the response's header
     * when it has one; then, for status 200 only, the body is read and the
     * filings built from it are handed to the store, including those of the
     * entries closed before a malformed point.
     */
    method OnResponse(status: int, headers: seq<Header>, body: seq<AtomExtract.Event>)
      modifies this
      ensures Held() == Observe(old(Held()), headers)
      ensures dispatched == old(dispatched)
        + (if status == 200 then AtomExtract.Rows(AtomExtract.Extract(body)) else [])
    {
      var etag := FirstValue(headers, "etag");
      if etag.Some? {
        lastEtag := etag;
      }
      var modified := FirstValue(headers, "last-modified");
      if modified.Some? {
        lastModified := modified;
      }
      if status == 200 {
        var saved, failed := AtomExtract.ParseAndSave(body);
        dispatched := dispatched + saved;
      } else {
        assert dispatched + [] == dispatched;
      }
    }

    /**
     * One poll: the request goes out with the conditional headers of the
     * validators held, and its reply is taken in. A transport failure changes
     * nothing.
     */
    method PollOnce(reply: Reply) returns (sent: seq<Header>)
      modifies this
      ensures sent == ConditionalHeaders(old(Held()))
      ensures reply.TransportError? ==> Held() == old(Held()) && dispatched == old(dispatched)
      ensures reply.Response? ==> Held() == Observe(old(Held()), reply.headers)
      ensures reply.Response? ==>
                dispatched == old(dispatched)
                  + (if reply.status == 200 then AtomExtract.Rows(AtomExtract.Extract(reply.body)) else [])
    {
      sent := RequestHeaders();
      if reply.Response? {
        OnResponse(reply.status, reply.headers, reply.body);
      }
    }
  }

  /** What a poller goes through: the headers of each request and the state after each reply. */
  datatype Poll = Poll(sent: seq<Header>, held: Validators, stored: seq<Entity.Row>)

  /**
   * A 304 reply (or any status but 200) stores nothing, yet still updates the
   * validators, and the next request carries the updated ones.
   */
  method NotModifiedThenPoll(headers: seq<Header>, body: seq<AtomExtract.Event>, next: Reply)
    returns (first: Poll, second: Poll)
    ensures first.stored == [] && first.sent == []
    ensures first.held == Observe(NoValidators, headers)
    ensures second.sent == ConditionalHeaders(Observe(NoValidators, headers))
  {
    var service := new FilingService();
    var sent := service.PollOnce(Response(304, headers, body));
    first := Poll(sent, service.Held(), service.dispatched);
    sent := service.PollOnce(next);
    second := Poll(sent, service.Held(), service.dispatched);
  }
}
