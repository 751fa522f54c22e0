# Signaling session store — a Dafny model

This project models the WebRTC signaling core of a small peer-to-peer file
sharing server. Two browser peers choose a share id out of band. Through the
server they then exchange an SDP offer, an SDP answer and a stream of ICE
candidates. The server keeps one process-wide map from share id to a session
record `{offer, answer, candidates}`. Its request handlers work on that map:

- `get_session` looks a share id up, and creates an empty session if the id is new.
- `validate_json` refuses a missing or empty JSON body, or a body without a
  required key, with 400 and a description. This happens before any session is touched.
- `offer` / `answer` publish or fetch. A truthy `sdp` overwrites the field and
  the last write wins. Without one, the handler returns the field, or 404 with
  "No offer found" / "No answer found".
- `candidate` appends or drains. A truthy `candidate` is appended. Without one,
  the handler returns the whole list in arrival order and clears it.
- `session_info` returns the session record, creating it if absent.
- `reset` discards every session.

Files:

- `wrappers.dfy`: `Option` and `Result`.
- `sessions.dfy`: the `Session` value, the `Store` map, Python truthiness of
  payloads (`Truthy`: `None` and `""` are falsy), get-or-create as a function
  (`GetOrCreate`), and the store invariant (`WellFormedStore`: every stored
  payload is non-empty).
- `validation.dfy`: `validate_json`. `Validated` is the function, and
  `ValidateJson` is the loop over the required keys, proved equal to it.
- `protocol.dfy`: the `Response` datatype, with HTTP status via `StatusCode`.
  It also has one function per handler that maps the store before a request
  to the response and the store after it. Offer and answer share
  `PublishOrFetch`, parameterised by `SdpField`.
- `properties.dfy`: the lemmas that state what the protocol promises.
- `server.dfy`: the class `SessionStore`, with the `sessions` map as a field.
  It has one method per endpoint (`modifies this`), each proved to produce
  exactly the response and new store of its handler function and to keep the
  invariant. A small client method walks through poll, publish, fetch and reset.

Two places where the source's own text suggests more than its code does. The
model follows the code in both:

- `session_info` (server.py:92-96) is documented as getting "the current state
  of a session (for debugging)". It goes through `get_session` at server.py:95,
  so it creates the session when it is absent, and so does `Inspect`.
- `lock` (server.py:19) guards only the map: the lookup and insert in
  `get_session` (server.py:26) and the replacement in `reset` (server.py:88).
  The field updates at server.py:51, 64, 77 and 80-81 run outside it. The model
  is sequential, so it claims nothing about atomic drains or appends (see Left out).

## Model

| member | source | states |
|---|---|---|
| Sessions.GetOrCreate | server.py:25-33 | afterwards the id is present; a new id gets `{offer: None, answer: None, candidates: []}`; the key set grows by at most that id; every existing session is kept; well-formedness is preserved |
| Validation.MissingKey | server.py:39-41 | reports no key exactly when every required key is in the body; a reported key is required and absent |
| Validation.MissingKeyIsFirst | server.py:39-41 | the reported key is the first absent one in the order of the required keys: all keys before it are present |
| Validation.Validated | server.py:35-42 | accepts exactly a present, non-empty body holding every required key, and returns that body; a null or empty body is refused with "Missing JSON body."; otherwise the refusal is "Missing required field: k" for some required key k the body lacks |
| Validation.ValidateJson | server.py:35-42 | the key-by-key loop returns exactly what `Validated` decides |
| Protocol.HandleSdp | server.py:44-68 | the offer and answer endpoints: validation, then `PublishOrFetch` on `data['id']` with `data.get('sdp')`; refuses with 400 exactly when validation fails, and then leaves the store unchanged; an accepted request's id is in the store afterwards (detailed in RejectedBeforeAnyState and AcceptedRequestReachesHandler) |
| Protocol.HandleCandidate | server.py:70-82 | the candidate endpoint: validation, then `AppendOrDrain` on `data['id']` with `data.get('candidate')`; refuses with 400 exactly when validation fails, and then leaves the store unchanged; an accepted request's id is in the store afterwards (detailed in RejectedBeforeAnyState and AcceptedRequestReachesHandler) |
| Protocol.PublishOrFetch | server.py:47-55 | one field of a validated offer or answer request (server.py:60-68 for the answer): the key set gains only the id, other sessions and the candidates are kept, the response is Ok exactly when the payload is truthy, and is otherwise the stored sdp or 404 with the field's message; a fetch changes the store only by get-or-create (detailed in PublishOverwritesField, FetchReportsField, LastWriteWins, FetchOfUnseenId) |
| Protocol.AppendOrDrain | server.py:73-82 | a validated candidate request: the key set gains only the id, other sessions and offer and answer are kept, the response is Ok exactly when the candidate is truthy and is otherwise the drained list, after which the stored list is empty (detailed in AppendExtends, DrainTakesAll, NoCandidateLostOrDuplicated) |
| Protocol.Inspect | server.py:92-96 | the response is a snapshot of the session now stored under the id; the key set gains only the id and every existing session is kept (detailed in InspectIsSnapshot) |
| Protocol.ResetAll | server.py:84-90 | no session is left, and the status is 200 (detailed in ResetForgetsEverything) |
| ProtocolProperties.RejectedBeforeAnyState | server.py:35-47 | a JSON body that is null or an empty object, or one without `id`, gets 400 with the matching description from the offer, answer and candidate handlers, and the store is unchanged (no session is created) |
| ProtocolProperties.AcceptedRequestReachesHandler | server.py:44-49 | a body holding `id` passes validation, and the handler acts on `data['id']` with the `sdp` / `candidate` payload that `data.get` gives |
| ProtocolProperties.PublishOverwritesField | server.py:50-52 | publishing a truthy sdp answers Ok and sets that field; the other field, the candidates and every other session are unchanged; only the published id can be added |
| ProtocolProperties.LastWriteWins | server.py:50-55 | publishing A then B, then fetching, returns B |
| ProtocolProperties.FetchReportsField | server.py:53-55 | without a truthy sdp, no field changes (the store only gains the session if absent); a set field is returned, an unset one gives 404 with the field's message |
| ProtocolProperties.FetchOfUnseenId | server.py:49-55 | fetching for a never-seen id gives 404 "No offer/answer found", leaves an empty session for that id, and a later publish succeeds |
| ProtocolProperties.AppendExtends | server.py:76-78 | a truthy candidate makes the list the old list plus that candidate and answers Ok; offer, answer and other sessions are unchanged |
| ProtocolProperties.DrainTakesAll | server.py:79-82 | without a truthy candidate, the response is exactly the old list in order; the stored list becomes empty; offer, answer and other sessions are unchanged; an immediate second drain returns [] |
| ProtocolProperties.AppendAllExtends | server.py:76-78 | appending candidates one by one leaves the old list followed by all of them in order, with offer and answer unchanged |
| ProtocolProperties.DrainReturnsEverythingAppended | server.py:70-82 | after any number of appends, one drain returns the earlier list followed by every appended candidate in append order, and a second drain returns [] |
| ProtocolProperties.CandidateStepAccounts | server.py:76-82 | for one candidate request, what it returns followed by what stays stored equals the old list followed by what it posts |
| ProtocolProperties.NoCandidateLostOrDuplicated | server.py:70-82 | over any sequence of appends and drains on one id, the drained batches followed by what remains stored equal the initial list followed by every appended candidate, in order: nothing is lost or returned twice |
| ProtocolProperties.ResetForgetsEverything | server.py:84-90 | reset answers Ok and empties the map; afterwards a fetch for any id gives 404, a drain gives [], and a publish acts on a fresh empty session |
| ProtocolProperties.InspectIsSnapshot | server.py:92-96 | inspection returns the stored session, or an empty one that it creates for a new id; it changes no existing session, and inspecting twice equals inspecting once |
| ProtocolProperties.SdpPreservesWellFormed | server.py:44-68 | the offer and answer endpoints keep every stored offer, answer and candidate non-empty |
| ProtocolProperties.CandidatePreservesWellFormed | server.py:70-82 | the candidate endpoint keeps every stored candidate non-empty (it appends only truthy ones) |
| ProtocolProperties.InspectPreservesWellFormed | server.py:92-96 | inspection keeps the store well formed (it only adds an empty session) |
| ProtocolProperties.OfferScenario | server.py:44-55 | publishing "OFFER1" for "abc" answers Ok, and a fetch then returns "OFFER1" |
| ProtocolProperties.CandidateScenario | server.py:70-82 | with no candidates pending, appending "c1" and "c2" answers Ok twice; the drains that follow return ["c1", "c2"] and then [] |
| Server.SessionStore.constructor | server.py:17-19 | the store starts with no session |
| Server.SessionStore.GetSession | server.py:25-33 | the map becomes `GetOrCreate` of the old map, and the returned session is the one stored under the id |
| Server.SessionStore.Offer | server.py:44-55 | the response and new map are those of the offer handler on the old map; the invariant is kept |
| Server.SessionStore.Answer | server.py:57-68 | the response and new map are those of the answer handler on the old map; the invariant is kept |
| Server.SessionStore.PublishOrFetchSdp | server.py:44-68 | validation, get-or-create, then overwrite or report one field, matching `HandleSdp` on the old map |
| Server.SessionStore.Candidate | server.py:70-82 | the response and new map are those of the candidate handler on the old map (append, or copy then clear) |
| Server.SessionStore.Reset | server.py:84-90 | the map becomes empty and the response is Ok |
| Server.SessionStore.SessionInfo | server.py:92-96 | the response and new map are those of `Inspect` on the old map |

## Left out

- Concurrency and `threading.Lock`: the model runs requests one at a time. The
  source mutates session fields outside the lock (server.py:51, 64, 77, 80-81),
  and a reset between `get_session` and such a mutation would update an
  orphaned record. The model claims nothing about atomic drains or appends
  under races.
- Sessions are values in the map rather than shared mutable dictionaries. The
  reference that `get_session` returns only matters under the concurrency
  left out above.
- Flask plumbing (routing, CORS, `jsonify`, `abort`, `app.run`): responses are
  the `Response` datatype, and `StatusCode` gives the HTTP status.
- JSON typing: bodies are `Option<map<string, string>>`. `None` stands for a
  JSON body that parses to `null` (or to another falsy value), which server.py:37-38
  refuses with "Missing JSON body.", as does an empty object. The model leaves
  out non-object bodies, non-string ids and payloads (numbers, `false`, nested
  values, whose truthiness differs), and a JSON null stored under `sdp` or
  `candidate` (which acts like an absent field). Only the absent/empty
  distinction is kept.
- Requests without a JSON body: reading `request.json` (server.py:36) makes the
  framework refuse a request whose Content-Type is not JSON, or whose body does
  not parse, with its own status and message before server.py:37 runs. This is
  not modelled.
- Upload, download and URL routes (server.py:98-132) and static file serving
  (server.py:134-141): file system and network I/O outside the signaling core.
