/**
 * The signaling server's state and request handlers: one store object whose
 * map of sessions every handler reads and updates in place.
 */
module Server {
  import opened Wrappers
  import opened Sessions
  import opened Validation
  import opened Protocol
  import ProtocolProperties

  class SessionStore {
    /** The process-wide map from share id to session. */
    var sessions: Store

    ghost predicate Valid()
      reads this
    {
      WellFormedStore(sessions)
    }

    /** The store at process start holds no session. */
    constructor ()
      ensures Valid() && sessions == map[]
    {
      sessions := map[];
    }

    /**
     * Get-or-create: returns the session for `id`, inserting an empty one
     * first when the id is new.
     */
    method GetSession(id: ShareId) returns (session: Session)
      requires Valid()
      modifies this
      ensures Valid()
      ensures sessions == GetOrCreate(old(sessions), id)
      ensures id in sessions && session == sessions[id]
      ensures id in old(sessions) ==> sessions == old(sessions)
    {
      if id !in sessions {
        sessions := sessions[id := EmptySession];
      }
      session := sessions[id];
    }

    /** The offer endpoint. */
    method Offer(body: Body) returns (r: Response)
      requires Valid()
      modifies this
      ensures Valid()
      ensures Step(r, sessions) == HandleSdp(old(sessions), body, OfferField)
    {
      r := PublishOrFetchSdp(body, OfferField);
    }

    /** The answer endpoint. */
    method Answer(body: Body) returns (r: Response)
      requires Valid()
      modifies this
      ensures Valid()
      ensures Step(r, sessions) == HandleSdp(old(sessions), body, AnswerField)
    {
      r := PublishOrFetchSdp(body, AnswerField);
    }

    /**
     * The shared body of the offer and answer endpoints: validate, create the
     * session, then overwrite the field with a truthy payload or report it.
     */
    method PublishOrFetchSdp(body: Body, field: SdpField) returns (r: Response)
      requires Valid()
      modifies this
      ensures Valid()
      ensures Step(r, sessions) == HandleSdp(old(sessions), body, field)
    {
      ProtocolProperties.SdpPreservesWellFormed(sessions, body, field);
      var checked := ValidateJson(body, [IdKey]);
      if checked.Failure? {
        return BadRequest(checked.error);
      }
      var data := checked.value;
      var id := data[IdKey];
      var sdp := Payload(data, SdpKey);
      var session := GetSession(id);
      if Truthy(sdp) {
        WriteAfterGetOrCreate(old(sessions), id, field.Set(session, sdp));
        sessions := sessions[id := field.Set(session, sdp)];
        return Ok;
      }
      var current := field.Get(session);
      if Truthy(current) {
        return Sdp(current.value);
      }
      return NotFound(field.NotFoundMessage());
    }

    /**
     * The candidate endpoint: append a truthy candidate, or hand back the
     * whole list and clear it.
     */
    method Candidate(body: Body) returns (r: Response)
      requires Valid()
      modifies this
      ensures Valid()
      ensures Step(r, sessions) == HandleCandidate(old(sessions), body)
    {
      ProtocolProperties.CandidatePreservesWellFormed(sessions, body);
      var checked := ValidateJson(body, [IdKey]);
      if checked.Failure? {
        return BadRequest(checked.error);
      }
      var data := checked.value;
      var id := data[IdKey];
      var candidate := Payload(data, CandidateKey);
      var session := GetSession(id);
      if Truthy(candidate) {
        WriteAfterGetOrCreate(old(sessions), id, session.(candidates := session.candidates + [candidate.value]));
        sessions := sessions[id := session.(candidates := session.candidates + [candidate.value])];
        return Ok;
      }
      var drained := session.candidates;
      WriteAfterGetOrCreate(old(sessions), id, session.(candidates := []));
      sessions := sessions[id := session.(candidates := [])];
      return Candidates(drained);
    }

    /** Discards every session. */
    method Reset() returns (r: Response)
      modifies this
      ensures Valid()
      ensures Step(r, sessions) == ResetAll()
    {
      sessions := map[];
      r := Ok;
    }

    /** The debugging view of one session, created if absent. */
    method SessionInfo(id: ShareId) returns (r: Response)
      requires Valid()
      modifies this
      ensures Valid()
      ensures Step(r, sessions) == Inspect(old(sessions), id)
    {
      var session := GetSession(id);
      r := Snapshot(session);
    }
  }

  /** A peer polls for an answer, publishes its offer and reads it back; a reset forgets it. */
  method PollPublishReset()
  {
    var store := new SessionStore();
    var poll: Json := map["id" := "room"];
    var publish: Json := map["id" := "room", "sdp" := "v=0"];
    ProtocolProperties.AcceptedRequestReachesHandler(store.sessions, poll, AnswerField);
    var r := store.Answer(Some(poll));
    assert r == NotFound("No answer found");
    ProtocolProperties.AcceptedRequestReachesHandler(store.sessions, publish, OfferField);
    r := store.Offer(Some(publish));
    assert r == Ok;
    ProtocolProperties.AcceptedRequestReachesHandler(store.sessions, poll, OfferField);
    r := store.Offer(Some(poll));
    assert r == Sdp("v=0");
    r := store.Reset();
    ProtocolProperties.AcceptedRequestReachesHandler(store.sessions, poll, OfferField);
    r := store.Offer(Some(poll));
    assert r == NotFound("No offer found");
  }
}
