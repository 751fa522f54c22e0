/**
 * What the exchange protocol promises, stated and proved about the handler
 * functions of module Protocol.
 */
module ProtocolProperties {
  import opened Wrappers
  import opened Sessions
  import opened Validation
  import opened Protocol

  // ---------------------------------------------------------------- validation

  /**
   * A request whose JSON body is null or empty, or has no id, is refused with 400
   * and a description of the problem, and the store is left exactly as it was
   * (no session is created).
   */
  lemma RejectedBeforeAnyState(st: Store, body: Body, field: SdpField)
    ensures (body.None? || body.value == map[]) ==>
              && HandleSdp(st, body, field) == Step(BadRequest(MissingBody), st)
              && HandleCandidate(st, body) == Step(BadRequest(MissingBody), st)
    ensures body.Some? && body.value != map[] && IdKey !in body.value ==>
              && HandleSdp(st, body, field) == Step(BadRequest(MissingField(IdKey)), st)
              && HandleCandidate(st, body) == Step(BadRequest(MissingField(IdKey)), st)
    ensures Validated(body, [IdKey]).Failure? ==>
              && StatusCode(HandleSdp(st, body, field).response) == 400
              && StatusCode(HandleCandidate(st, body).response) == 400
              && HandleSdp(st, body, field).sessions == st
              && HandleCandidate(st, body).sessions == st
  {
  }

  /** A request that passes validation is answered by the handler for its id. */
  lemma AcceptedRequestReachesHandler(st: Store, data: Json, field: SdpField)
    requires IdKey in data
    ensures HandleSdp(st, Some(data), field) == PublishOrFetch(st, data[IdKey], field, Payload(data, SdpKey))
    ensures HandleCandidate(st, Some(data)) == AppendOrDrain(st, data[IdKey], Payload(data, CandidateKey))
  {
    assert data != map[];
  }

  // ---------------------------------------------------------- offer and answer

  /**
   * Publishing a truthy payload sets that field of the session and answers
   * Ok; the other field, the candidates and every other session are kept.
   */
  lemma PublishOverwritesField(st: Store, id: ShareId, field: SdpField, sdp: Option<string>)
    requires Truthy(sdp)
    ensures var s := PublishOrFetch(st, id, field, sdp);
      && s.response == Ok
      && s.sessions.Keys == st.Keys + {id}
      && field.Get(s.sessions[id]) == sdp
      && s.sessions[id].candidates == Lookup(st, id).candidates
      && (field == OfferField ==> s.sessions[id].answer == Lookup(st, id).answer)
      && (field == AnswerField ==> s.sessions[id].offer == Lookup(st, id).offer)
      && forall k :: k in st && k != id ==> s.sessions[k] == st[k]
  {
  }

  /** Last write wins: after publishing `a` and then `b`, a fetch returns `b`. */
  lemma LastWriteWins(st: Store, id: ShareId, field: SdpField, a: Option<string>, b: Option<string>, q: Option<string>)
    requires Truthy(a) && Truthy(b) && !Truthy(q)
    ensures var st1 := PublishOrFetch(st, id, field, a).sessions;
            var st2 := PublishOrFetch(st1, id, field, b).sessions;
            PublishOrFetch(st2, id, field, q).response == Sdp(b.value)
  {
    var st1 := PublishOrFetch(st, id, field, a).sessions;
    PublishOverwritesField(st, id, field, a);
    PublishOverwritesField(st1, id, field, b);
  }

  /**
   * A fetch changes no field: the store only gains the session if it was
   * absent. It reports the field's value when set, and 404 with the field's
   * message when unset.
   */
  lemma FetchReportsField(st: Store, id: ShareId, field: SdpField, q: Option<string>)
    requires WellFormedStore(st) && !Truthy(q)
    ensures var s := PublishOrFetch(st, id, field, q);
      && s.sessions == GetOrCreate(st, id)
      && (field.Get(Lookup(st, id)).Some? ==> s.response == Sdp(field.Get(Lookup(st, id)).value))
      && (field.Get(Lookup(st, id)).None? ==> s.response == NotFound(field.NotFoundMessage()))
      && (s.response.Sdp? || StatusCode(s.response) == 404)
  {
  }

  /**
   * A fetch for a share id never seen answers 404, not an error, and leaves
   * an empty session behind; publishing to that id then succeeds.
   */
  lemma FetchOfUnseenId(st: Store, id: ShareId, field: SdpField, q: Option<string>, sdp: Option<string>)
    requires id !in st && !Truthy(q) && Truthy(sdp)
    ensures var s := PublishOrFetch(st, id, field, q);
      && s.response == NotFound(field.NotFoundMessage())
      && StatusCode(s.response) == 404
      && s.sessions == st[id := EmptySession]
      && PublishOrFetch(s.sessions, id, field, sdp).response == Ok
  {
  }

  // ---------------------------------------------------------------- candidates

  /**
   * Posting a truthy candidate appends it to the session's list and answers
   * Ok; offer, answer and every other session are kept.
   */
  lemma AppendExtends(st: Store, id: ShareId, c: Option<string>)
    requires Truthy(c)
    ensures var s := AppendOrDrain(st, id, c);
      && s.response == Ok
      && s.sessions.Keys == st.Keys + {id}
      && s.sessions[id].candidates == Lookup(st, id).candidates + [c.value]
      && s.sessions[id].offer == Lookup(st, id).offer
      && s.sessions[id].answer == Lookup(st, id).answer
      && forall k :: k in st && k != id ==> s.sessions[k] == st[k]
  {
  }

  /**
   * A drain returns exactly the stored list, in order, and empties it;
   * offer, answer and every other session are kept, and a second drain
   * returns the empty list.
   */
  lemma DrainTakesAll(st: Store, id: ShareId, c: Option<string>)
    requires !Truthy(c)
    ensures var s := AppendOrDrain(st, id, c);
      && s.response == Candidates(Lookup(st, id).candidates)
      && s.sessions.Keys == st.Keys + {id}
      && s.sessions[id].candidates == []
      && s.sessions[id].offer == Lookup(st, id).offer
      && s.sessions[id].answer == Lookup(st, id).answer
      && (forall k :: k in st && k != id ==> s.sessions[k] == st[k])
      && AppendOrDrain(s.sessions, id, c).response == Candidates([])
  {
  }

  /** The store after posting each of `cs`, in order, as a candidate for `id`. */
  function AppendAll(st: Store, id: ShareId, cs: seq<string>): Store
    decreases |cs|
  {
    if cs == [] then st else AppendAll(AppendOrDrain(st, id, Some(cs[0])).sessions, id, cs[1..])
  }

  lemma {:induction false} AppendAllExtends(st: Store, id: ShareId, cs: seq<string>)
    requires forall i :: 0 <= i < |cs| ==> cs[i] != ""
    decreases |cs|
    ensures var s := Lookup(st, id);
            Lookup(AppendAll(st, id, cs), id) == s.(candidates := s.candidates + cs)
  {
    var s := Lookup(st, id);
    if cs == [] {
      assert s.candidates + cs == s.candidates;
    } else {
      var st1 := AppendOrDrain(st, id, Some(cs[0])).sessions;
      AppendAllExtends(st1, id, cs[1..]);
      assert cs == [cs[0]] + cs[1..];
      assert s.candidates + [cs[0]] + cs[1..] == s.candidates + cs;
    }
  }

  /**
   * Drain completeness: after any number of appends with no drain between
   * them, one drain returns the earlier list followed by every appended
   * candidate in append order, and an immediate second drain returns [].
   */
  lemma DrainReturnsEverythingAppended(st: Store, id: ShareId, cs: seq<string>)
    requires forall i :: 0 <= i < |cs| ==> cs[i] != ""
    ensures var d := AppendOrDrain(AppendAll(st, id, cs), id, None);
      && d.response == Candidates(Lookup(st, id).candidates + cs)
      && Lookup(d.sessions, id).candidates == []
      && AppendOrDrain(d.sessions, id, None).response == Candidates([])
  {
    AppendAllExtends(st, id, cs);
  }

  /** The list a drain hands back; nothing for any other response. */
  function Drained(r: Response): seq<string>
  {
    if r.Candidates? then r.candidates else []
  }

  /** The candidate values a sequence of candidate requests publishes, in order. */
  function Posted(trace: seq<Option<string>>): seq<string>
  {
    if trace == [] then []
    else PostedBy(trace[0]) + Posted(trace[1..])
  }

  /**
   * Runs the candidate requests of `trace` for `id`, in order: the final
   * store, and everything the drains among them returned, concatenated.
   */
  function RunCandidates(st: Store, id: ShareId, trace: seq<Option<string>>): (Store, seq<string>)
    decreases |trace|
  {
    if trace == [] then (st, [])
    else
      var step := AppendOrDrain(st, id, trace[0]);
      var rest := RunCandidates(step.sessions, id, trace[1..]);
      (rest.0, Drained(step.response) + rest.1)
  }

  /** The candidate value one request publishes: the payload if truthy. */
  function PostedBy(c: Option<string>): seq<string>
  {
    if Truthy(c) then [c.value] else []
  }

  /**
   * One candidate request accounts for every entry: what it hands back
   * followed by what stays stored is the old list followed by what it posts.
   */
  lemma CandidateStepAccounts(st: Store, id: ShareId, c: Option<string>)
    ensures var step := AppendOrDrain(st, id, c);
            Drained(step.response) + Lookup(step.sessions, id).candidates
              == Lookup(st, id).candidates + PostedBy(c)
  {
    var before := Lookup(st, id).candidates;
    if !Truthy(c) {
      assert before + [] == before;
    }
  }

  /**
   * No loss and no duplication: over any sequence of appends and drains,
   * what the drains returned followed by what is still stored is exactly
   * what was stored at the start followed by every appended candidate, in
   * order.
   */
  lemma {:induction false} NoCandidateLostOrDuplicated(st: Store, id: ShareId, trace: seq<Option<string>>)
    decreases |trace|
    ensures var run := RunCandidates(st, id, trace);
            run.1 + Lookup(run.0, id).candidates == Lookup(st, id).candidates + Posted(trace)
  {
    var before := Lookup(st, id).candidates;
    if trace == [] {
      assert before + [] == before;
    } else {
      var step := AppendOrDrain(st, id, trace[0]);
      var rest := RunCandidates(step.sessions, id, trace[1..]);
      var handed, kept := Drained(step.response), Lookup(step.sessions, id).candidates;
      var tail, posted, later := Lookup(rest.0, id).candidates, PostedBy(trace[0]), Posted(trace[1..]);
      assert RunCandidates(st, id, trace) == (rest.0, handed + rest.1);
      assert Posted(trace) == posted + later;
      CandidateStepAccounts(st, id, trace[0]);
      NoCandidateLostOrDuplicated(step.sessions, id, trace[1..]);
      Regroup(handed, rest.1, tail, kept, later, before, posted);
    }
  }

  /** Concatenation regrouped: the sequence step of the proof above. */
  lemma Regroup(handed: seq<string>, drained: seq<string>, tail: seq<string>, kept: seq<string>,
                later: seq<string>, before: seq<string>, posted: seq<string>)
    requires handed + kept == before + posted
    requires drained + tail == kept + later
    ensures handed + drained + tail == before + (posted + later)
  {
    calc {
      handed + drained + tail;
      handed + (drained + tail);
      handed + (kept + later);
      (handed + kept) + later;
      (before + posted) + later;
      before + (posted + later);
    }
  }

  // ------------------------------------------------------- reset and inspect

  /**
   * After a reset no session exists: fetching an offer or answer for any id
   * answers 404, a drain answers [], and a publish to an id acts on a fresh
   * empty session.
   */
  lemma ResetForgetsEverything(id: ShareId, field: SdpField, q: Option<string>, c: Option<string>, sdp: Option<string>)
    requires !Truthy(q) && !Truthy(c) && Truthy(sdp)
    ensures ResetAll().response == Ok && ResetAll().sessions == map[]
    ensures PublishOrFetch(ResetAll().sessions, id, field, q).response == NotFound(field.NotFoundMessage())
    ensures AppendOrDrain(ResetAll().sessions, id, c).response == Candidates([])
    ensures PublishOrFetch(ResetAll().sessions, id, field, sdp).sessions == map[id := field.Set(EmptySession, sdp)]
  {
  }

  /**
   * Inspection returns the stored session (an empty one for an unseen id),
   * changes no existing session, and inspecting twice is the same as once.
   */
  lemma InspectIsSnapshot(st: Store, id: ShareId)
    ensures var s := Inspect(st, id);
      && (id in st ==> s == Step(Snapshot(st[id]), st))
      && (id !in st ==> s == Step(Snapshot(EmptySession), st[id := EmptySession]))
      && Inspect(s.sessions, id) == s
  {
  }

  // ----------------------------------------------------------------- invariant

  /** The offer and answer endpoints keep the store well formed: a stored sdp is never empty. */
  lemma SdpPreservesWellFormed(st: Store, body: Body, field: SdpField)
    requires WellFormedStore(st)
    ensures WellFormedStore(HandleSdp(st, body, field).sessions)
  {
  }

  /** The candidate endpoint keeps the store well formed: no stored candidate is empty. */
  lemma CandidatePreservesWellFormed(st: Store, body: Body)
    requires WellFormedStore(st)
    ensures WellFormedStore(HandleCandidate(st, body).sessions)
  {
    match Validated(body, [IdKey])
    case Failure(_) =>
    case Success(data) =>
      var s := Lookup(st, data[IdKey]);
      var c := Payload(data, CandidateKey);
      if Truthy(c) {
        var s' := s.(candidates := s.candidates + [c.value]);
        assert forall i :: 0 <= i < |s'.candidates| ==> s'.candidates[i] != "" by {
          forall i | 0 <= i < |s'.candidates| ensures s'.candidates[i] != "" {
            if i < |s.candidates| { assert s'.candidates[i] == s.candidates[i]; }
          }
        }
      }
  }

  /** Inspection keeps the store well formed: it only adds an empty session. */
  lemma InspectPreservesWellFormed(st: Store, id: ShareId)
    requires WellFormedStore(st)
    ensures WellFormedStore(Inspect(st, id).sessions)
  {
  }

  // ----------------------------------------------------------------- scenario

  /** One peer publishes an offer for "abc"; the other fetches it. */
  lemma OfferScenario(st: Store)
    ensures var s1 := HandleSdp(st, Some(map["id" := "abc", "sdp" := "OFFER1"]), OfferField);
            var s2 := HandleSdp(s1.sessions, Some(map["id" := "abc"]), OfferField);
            s1.response == Ok && s2.response == Sdp("OFFER1")
  {
    var publish: Json := map["id" := "abc", "sdp" := "OFFER1"];
    var poll: Json := map["id" := "abc"];
    AcceptedRequestReachesHandler(st, publish, OfferField);
    PublishOverwritesField(st, "abc", OfferField, Some("OFFER1"));
    var st1 := HandleSdp(st, Some(publish), OfferField).sessions;
    AcceptedRequestReachesHandler(st1, poll, OfferField);
  }

  /**
   * One peer posts candidates "c1" and "c2" for a session with none pending;
   * the other drains twice and gets both, in order, then nothing.
   */
  lemma CandidateScenario(st: Store)
    requires Lookup(st, "abc").candidates == []
    ensures var s3 := HandleCandidate(st, Some(map["id" := "abc", "candidate" := "c1"]));
            var s4 := HandleCandidate(s3.sessions, Some(map["id" := "abc", "candidate" := "c2"]));
            var s5 := HandleCandidate(s4.sessions, Some(map["id" := "abc"]));
            var s6 := HandleCandidate(s5.sessions, Some(map["id" := "abc"]));
            && s3.response == Ok && s4.response == Ok
            && s5.response == Candidates(["c1", "c2"]) && s6.response == Candidates([])
  {
    var post1: Json := map["id" := "abc", "candidate" := "c1"];
    var post2: Json := map["id" := "abc", "candidate" := "c2"];
    var poll: Json := map["id" := "abc"];
    AcceptedRequestReachesHandler(st, post1, OfferField);
    AppendExtends(st, "abc", Some("c1"));
    var st3 := HandleCandidate(st, Some(post1)).sessions;
    assert [] + ["c1"] == ["c1"];
    AcceptedRequestReachesHandler(st3, post2, OfferField);
    AppendExtends(st3, "abc", Some("c2"));
    var st4 := HandleCandidate(st3, Some(post2)).sessions;
    assert ["c1"] + ["c2"] == ["c1", "c2"];
    AcceptedRequestReachesHandler(st4, poll, OfferField);
    DrainTakesAll(st4, "abc", None);
  }
}
