/**
 * The exchange protocol as functions on the store: each handler maps the store
 * before a request to its response and the store after it.
 */
module Protocol {
  import opened Wrappers
  import opened Sessions
  import opened Validation

  /** A handler's JSON reply, one constructor per reply shape. */
  datatype Response =
    | Ok                                  // {"ok": true}
    | Sdp(sdp: string)                    // {"sdp": ...}
    | NotFound(error: string)             // {"error": ...} with 404
    | Candidates(candidates: seq<string>) // {"candidates": [...]}
    | Snapshot(session: Session)          // the whole session record
    | BadRequest(description: string)     // an abort with 400

  function StatusCode(r: Response): int
  {
    match r
    case NotFound(_) => 404
    case BadRequest(_) => 400
    case _ => 200
  }

  /** The two publish-or-fetch fields of a session. */
  datatype SdpField = OfferField | AnswerField
  {
    function Get(s: Session): Option<string>
    {
      match this
      case OfferField => s.offer
      case AnswerField => s.answer
    }

    function Set(s: Session, sdp: Option<string>): Session
    {
      match this
      case OfferField => s.(offer := sdp)
      case AnswerField => s.(answer := sdp)
    }

    function NotFoundMessage(): string
    {
      match this
      case OfferField => "No offer found"
      case AnswerField => "No answer found"
    }
  }

  /** A response together with the store it leaves behind. */
  datatype Step = Step(response: Response, sessions: Store)

  const IdKey: string := "id"
  const SdpKey: string := "sdp"
  const CandidateKey: string := "candidate"

  /** A dictionary `get`: the value under `key`, or None. */
  function Payload(data: Json, key: string): Option<string>
  {
    if key in data then Some(data[key]) else None
  }

  /**
   * Offer or answer for a validated request: a truthy payload overwrites the
   * field; otherwise the field is reported, or a 404 when it is falsy. The
   * session is created first in either case.
   */
  function PublishOrFetch(st: Store, id: ShareId, field: SdpField, sdp: Option<string>): (r: Step)
    ensures r.sessions.Keys == st.Keys + {id}
    ensures forall k :: k in st && k != id ==> r.sessions[k] == st[k]
    ensures r.sessions[id].candidates == Lookup(st, id).candidates
    ensures r.response == Ok <==> Truthy(sdp)
    ensures r.response == Ok || r.response.Sdp? || r.response == NotFound(field.NotFoundMessage())
    ensures !Truthy(sdp) ==> r.sessions == GetOrCreate(st, id)
  {
    var session := Lookup(st, id);
    if Truthy(sdp) then Step(Ok, st[id := field.Set(session, sdp)])
    else if Truthy(field.Get(session)) then Step(Sdp(field.Get(session).value), GetOrCreate(st, id))
    else Step(NotFound(field.NotFoundMessage()), GetOrCreate(st, id))
  }

  /**
   * Candidates for a validated request: a truthy payload is appended;
   * otherwise the whole list is returned and the stored list is cleared.
   */
  function AppendOrDrain(st: Store, id: ShareId, candidate: Option<string>): (r: Step)
    ensures r.sessions.Keys == st.Keys + {id}
    ensures forall k :: k in st && k != id ==> r.sessions[k] == st[k]
    ensures r.sessions[id].offer == Lookup(st, id).offer && r.sessions[id].answer == Lookup(st, id).answer
    ensures r.response == Ok <==> Truthy(candidate)
    ensures r.response == Ok || r.response.Candidates?
    ensures r.response.Candidates? ==> r.sessions[id].candidates == []
  {
    var session := Lookup(st, id);
    if Truthy(candidate) then Step(Ok, st[id := session.(candidates := session.candidates + [candidate.value])])
    else Step(Candidates(session.candidates), st[id := session.(candidates := [])])
  }

  /** The session snapshot for `id`, created if absent. */
  function Inspect(st: Store, id: ShareId): (r: Step)
    ensures r.response.Snapshot? && id in r.sessions && r.response.session == r.sessions[id]
    ensures r.sessions.Keys == st.Keys + {id}
    ensures forall k :: k in st ==> r.sessions[k] == st[k]
  {
    Step(Snapshot(Lookup(st, id)), GetOrCreate(st, id))
  }

  /** Discards every session. */
  function ResetAll(): (r: Step)
    ensures forall id :: id !in r.sessions
    ensures StatusCode(r.response) == 200
  {
    Step(Ok, map[])
  }

  /** The offer or answer endpoint: validation, then PublishOrFetch. */
  function HandleSdp(st: Store, body: Body, field: SdpField): (r: Step)
    ensures r.response.BadRequest? <==> Validated(body, [IdKey]).Failure?
    ensures r.response.BadRequest? ==> r.sessions == st && StatusCode(r.response) == 400
    ensures !r.response.BadRequest? ==> body.Some? && IdKey in body.value && body.value[IdKey] in r.sessions
  {
    match Validated(body, [IdKey])
    case Failure(e) => Step(BadRequest(e), st)
    case Success(data) => PublishOrFetch(st, data[IdKey], field, Payload(data, SdpKey))
  }

  /** The candidate endpoint: validation, then AppendOrDrain. */
  function HandleCandidate(st: Store, body: Body): (r: Step)
    ensures r.response.BadRequest? <==> Validated(body, [IdKey]).Failure?
    ensures r.response.BadRequest? ==> r.sessions == st && StatusCode(r.response) == 400
    ensures !r.response.BadRequest? ==> body.Some? && IdKey in body.value && body.value[IdKey] in r.sessions
  {
    match Validated(body, [IdKey])
    case Failure(e) => Step(BadRequest(e), st)
    case Success(data) => AppendOrDrain(st, data[IdKey], Payload(data, CandidateKey))
  }
}
