/** Which retained events a bootstrap carries, as a property of the selection. */
module Bootstrap {
  import opened Sequences
  import opened Sorting
  import opened Protocol
  import opened Registry
  import opened Restart

  const BOOTSTRAP_MAX_EVENTS := 256
  const BOOTSTRAP_EVENTS_PER_ACTIVE_SESSION := 1

  predicate Older(a: Event, b: Event) {
    a.occurredAt < b.occurredAt || (a.occurredAt == b.occurredAt && a.sequence <= b.sequence)
  }

  function OldestFirst(): Order<Event> { (a: Event, b: Event) => Older(a, b) }

  function NewestFirst(): Order<Event> { (a: Event, b: Event) => Older(b, a) }

  function LatestActivityFirst(): Order<Session> { (a: Session, b: Session) => a.lastEventAt >= b.lastEventAt }

  lemma TimeOrders()
    ensures Preorder(OldestFirst()) && Preorder(NewestFirst()) && Preorder(LatestActivityFirst())
  {
  }

  predicate Retained(r: Registry, e: Event) { e.sessionId in r.events && e in r.events[e.sessionId] }

  /** The latest event of an active or unresolved session. */
  predicate Reserved(r: Registry, e: Event) {
    && e.sessionId in r.sessions && RestorePriority(r.sessions[e.sessionId]) == 0
    && EventsFor(r, e.sessionId) != [] && e == EventsFor(r, e.sessionId)[|EventsFor(r, e.sessionId)| - 1]
  }

  ghost predicate DistinctIds(s: seq<Event>) { forall i, j :: 0 <= i < j < |s| ==> s[i].id != s[j].id }

  /** Everything a bootstrap promises about its events. */
  ghost predicate Selection(r: Registry, sel: seq<Event>) {
    && |sel| <= BOOTSTRAP_MAX_EVENTS
    && DistinctIds(sel)
    && Ordered(sel, OldestFirst())
    && (forall e :: e in sel ==> Retained(r, e))
    && (forall e :: Reserved(r, e) ==> e in sel)
    && Recent(r, sel)
  }

  /** Nothing is left out while there is room, and what is left out is no newer than anything that is
      in without being reserved. */
  ghost predicate Recent(r: Registry, sel: seq<Event>) {
    forall e :: Retained(r, e) && e !in sel ==>
      |sel| == BOOTSTRAP_MAX_EVENTS && forall f :: f in sel ==> Reserved(r, f) || Older(e, f)
  }

  lemma RetainedById(idFor: IdFor, r: Registry, a: Event, b: Event)
    requires RegistryOk(idFor, r) && Retained(r, a) && Retained(r, b) && a.id == b.id
    ensures a == b
  {
    var i :| 0 <= i < |r.events[a.sessionId]| && r.events[a.sessionId][i] == a;
    var j :| 0 <= j < |r.events[b.sessionId]| && r.events[b.sessionId][j] == b;
    assert EventAt(r.events, a.sessionId, i) && EventAt(r.events, b.sessionId, j);
  }

  lemma DistinctByIds(idFor: IdFor, r: Registry, s: seq<Event>)
    requires RegistryOk(idFor, r) && forall e :: e in s ==> Retained(r, e)
    ensures DistinctIds(s) <==> Distinct(s)
  {
    forall i, j | 0 <= i < j < |s| ensures s[i].id == s[j].id <==> s[i] == s[j] {
      if s[i].id == s[j].id { RetainedById(idFor, r, s[i], s[j]); }
    }
  }
}
