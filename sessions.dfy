/**
 * The session store's data: one signaling session per caller-chosen share id,
 * and the lazy get-or-create access to it.
 */
module Sessions {
  import opened Wrappers

  /** The opaque key two peers agree on out of band. */
  type ShareId = string

  /**
   * Python truthiness of an optional string payload: a missing field, a JSON
   * null and the empty string are all falsy.
   */
  predicate Truthy(p: Option<string>)
  {
    p.Some? && p.value != ""
  }

  /** The signaling state of one share id. */
  datatype Session = Session(offer: Option<string>, answer: Option<string>, candidates: seq<string>)

  /** What a first reference to a share id creates. */
  const EmptySession: Session := Session(None, None, [])

  /** The process-wide map from share id to session. */
  type Store = map<ShareId, Session>

  /**
   * Handlers only ever store truthy payloads, so a stored offer or answer is
   * either unset or non-empty, and no stored candidate is empty.
   */
  predicate WellFormed(s: Session)
  {
    && (s.offer.Some? ==> s.offer.value != "")
    && (s.answer.Some? ==> s.answer.value != "")
    && forall i :: 0 <= i < |s.candidates| ==> s.candidates[i] != ""
  }

  predicate WellFormedStore(st: Store)
  {
    forall id :: id in st ==> WellFormed(st[id])
  }

  /** The session a request for `id` sees: the stored one, or a new empty one. */
  function Lookup(st: Store, id: ShareId): Session
  {
    if id in st then st[id] else EmptySession
  }

  /**
   * The store after a get-or-create of `id`: the key is present afterwards, a
   * new key gets an empty session, and every existing entry is kept as it was.
   */
  function GetOrCreate(st: Store, id: ShareId): (st': Store)
    ensures id in st' && st'[id] == Lookup(st, id)
    ensures st'.Keys == st.Keys + {id}
    ensures forall k :: k in st ==> st'[k] == st[k]
    ensures id !in st ==> st'[id] == EmptySession
    ensures WellFormedStore(st) ==> WellFormedStore(st')
  {
    if id in st then st else st[id := EmptySession]
  }

  /** Writing a session after a get-or-create is the same as writing it directly. */
  lemma WriteAfterGetOrCreate(st: Store, id: ShareId, s: Session)
    ensures GetOrCreate(st, id)[id := s] == st[id := s]
  {
  }
}
