/** The bounded session registry as a value: sessions, external-key index and event windows. */
module Registry {
  import opened Options
  import opened Protocol

  datatype Registry = Registry(
    sessions: map<string, Session>, index: map<string, string>, events: map<string, seq<Event>>,
    idempotency: set<string>)

  /** How a source and its own session id are hashed into a session id. */
  type IdFor = (AgentSource, string) -> string

  ghost predicate Injective(idFor: IdFor) {
    forall s1, x1, s2, x2 :: idFor(s1, x1) == idFor(s2, x2) ==> s1 == s2 && x1 == x2
  }

  // ---------------------------------------------------------------- external keys

  function SourceName(source: AgentSource): string {
    match source
    case Cursor => "Cursor"
    case ClaudeCode => "ClaudeCode"
    case Codex => "Codex"
    case Gemini => "Gemini"
    case AntigravityCli => "AntigravityCli"
    case CopilotCli => "CopilotCli"
    case Qwen => "Qwen"
    case Generic => "Generic"
    case Unknown => "Unknown"
  }

  function ExternalKey(source: AgentSource, externalId: string): string {
    SourceName(source) + ":" + externalId
  }

  function KeyOf(s: Session): string { ExternalKey(s.source, s.externalId) }

  lemma SourceNames(a: AgentSource, b: AgentSource)
    ensures ':' !in SourceName(a)
    ensures SourceName(a) == SourceName(b) ==> a == b
  {
    var x, y := SourceName(a), SourceName(b);
    assert x[0] == y[0] && x[1] == y[1] && |x| == |y| ==> a == b;
  }

  lemma SplitAtColon(a: string, x: string, b: string, y: string)
    requires ':' !in a && ':' !in b && a + ":" + x == b + ":" + y
    ensures a == b && x == y
  {
    var s, t := a + ":" + x, b + ":" + y;
    assert s[|a|] == ':' && t[|b|] == ':';
    assert forall k :: 0 <= k < |a| ==> s[k] == a[k] && a[k] in a;
    assert forall k :: 0 <= k < |b| ==> t[k] == b[k] && b[k] in b;
    assert |a| == |b|;
    assert s[..|a|] == a && t[..|b|] == b && s[|a| + 1..] == x && t[|b| + 1..] == y;
  }

  /** Keys of different sources or different external ids never collide. */
  lemma ExternalKeyInjective(a: AgentSource, x: string, b: AgentSource, y: string)
    requires ExternalKey(a, x) == ExternalKey(b, y)
    ensures a == b && x == y
  {
    SourceNames(a, b);
    SourceNames(b, a);
    SplitAtColon(SourceName(a), x, SourceName(b), y);
  }

  // ---------------------------------------------------------------- invariant

  /** Consecutive sequence numbers, all of one session, at most the window size, never empty. */
  predicate WindowOk(id: string, w: seq<Event>) {
    && 0 < |w| <= MAX_EVENTS_PER_SESSION
    && (forall i :: 0 <= i < |w| ==> w[i].sessionId == id && w[i].sequence == w[0].sequence + i)
    && w[0].sequence >= 1
  }

  /** `index` is the inverse of `keys`, so both are bijections. */
  ghost predicate Inverts(keys: map<string, string>, index: map<string, string>) {
    && (forall id :: id in keys ==> keys[id] in index && index[keys[id]] == id)
    && (forall k :: k in index ==> index[k] in keys && keys[index[k]] == k)
  }

  function Keys(sessions: map<string, Session>): map<string, string> {
    map id | id in sessions :: KeyOf(sessions[id])
  }

  ghost predicate IndexExact(r: Registry) { Inverts(Keys(r.sessions), r.index) }

  predicate Minted(idFor: IdFor, s: Session) {
    s.id == idFor(s.source, s.externalId) && Bounded(s.externalId, MAX_EXTERNAL_SESSION_ID_LEN)
  }

  ghost predicate IdsMinted(idFor: IdFor, r: Registry) {
    forall id :: id in r.sessions ==> r.sessions[id].id == id && Minted(idFor, r.sessions[id])
  }

  ghost predicate EventsOk(r: Registry) {
    && (forall id :: id in r.events ==> id in r.sessions && WindowOk(id, r.events[id]))
    && DistinctEvents(r.events)
  }

  predicate EventAt(events: map<string, seq<Event>>, id: string, i: int) {
    id in events && 0 <= i < |events[id]|
  }

  /** No two retained events share an id. */
  ghost predicate DistinctEvents(events: map<string, seq<Event>>) {
    forall a, i, b, j :: EventAt(events, a, i) && EventAt(events, b, j) && events[a][i].id == events[b][j].id ==>
      a == b && i == j
  }

  ghost predicate RegistryOk(idFor: IdFor, r: Registry) {
    |r.sessions| <= MAX_SESSIONS && IdsMinted(idFor, r) && IndexExact(r) && EventsOk(r)
  }

  const EMPTY := Registry(map[], map[], map[], {})

  // ---------------------------------------------------------------- operations

  function Resolve(r: Registry, source: AgentSource, externalId: string): Option<Session> {
    var k := ExternalKey(source, externalId);
    if k in r.index && r.index[k] in r.sessions then Some(r.sessions[r.index[k]]) else None
  }

  function EventsFor(r: Registry, id: string): seq<Event> {
    if id in r.events then r.events[id] else []
  }

  function NextSequence(r: Registry, id: string): nat {
    var w := EventsFor(r, id);
    if w == [] then 1 else w[|w| - 1].sequence + 1
  }

  /** The newest events that fit the window. */
  function Cap(w: seq<Event>): seq<Event> {
    if |w| > MAX_EVENTS_PER_SESSION then w[|w| - MAX_EVENTS_PER_SESSION..] else w
  }

  /** upsert_session, for a session whose external id is valid. */
  function Put(r: Registry, s: Session): Registry {
    r.(index := r.index[KeyOf(s) := s.id], sessions := r.sessions[s.id := s])
  }

  function Remove(r: Registry, id: string): Registry
    requires id in r.sessions
  {
    r.(sessions := r.sessions - {id}, index := r.index - {KeyOf(r.sessions[id])}, events := r.events - {id})
  }

  datatype AppendError = UnknownSession | WrongSequence

  /** append_event: refused unless the session is known and the sequence is the next one. */
  function Append(r: Registry, e: Event): (Registry, Option<AppendError>) {
    if e.sessionId !in r.sessions then (r, Some(UnknownSession))
    else
      var w := EventsFor(r, e.sessionId);
      if e.sequence != NextSequence(r, e.sessionId)
      then (r.(events := r.events[e.sessionId := w]), Some(WrongSequence))
      else (r.(events := r.events[e.sessionId := Cap(w + [e])]), None)
  }

  function TerminalAge(s: Session): int {
    if s.endedAt.Some? then s.endedAt.value else s.lastEventAt
  }

  /** A terminal session than which no terminal session ended earlier. */
  predicate IsOldestTerminal(r: Registry, id: string) {
    && id in r.sessions && IsTerminal(r.sessions[id].status)
    && forall other :: other in r.sessions && IsTerminal(r.sessions[other].status) ==>
         TerminalAge(r.sessions[id]) <= TerminalAge(r.sessions[other])
  }

  predicate HasTerminal(r: Registry) {
    exists id :: id in r.sessions && IsTerminal(r.sessions[id].status)
  }

  // ---------------------------------------------------------------- invariant preserved

  predicate SameIdentity(a: Session, b: Session) {
    a.id == b.id && a.source == b.source && a.externalId == b.externalId
  }

  lemma PutKeeps(idFor: IdFor, r: Registry, s: Session)
    requires RegistryOk(idFor, r) && s.id in r.sessions && SameIdentity(r.sessions[s.id], s)
    ensures RegistryOk(idFor, Put(r, s))
    ensures Put(r, s) == r.(sessions := r.sessions[s.id := s])
  {
    ReplaceSessionsKeeps(idFor, r, r.sessions[s.id := s]);
    KeyStays(Keys(r.sessions), r.index, s.id, KeyOf(s));
  }

  lemma KeyStays(keys: map<string, string>, index: map<string, string>, id: string, key: string)
    requires Inverts(keys, index) && id in keys && keys[id] == key
    ensures index[key := id] == index
  {
  }

  /** Replacing sessions by others of the same identity keeps the registry. */
  lemma ReplaceSessionsKeeps(idFor: IdFor, r: Registry, sessions: map<string, Session>)
    requires RegistryOk(idFor, r) && sessions.Keys == r.sessions.Keys
    requires forall id :: id in sessions ==> SameIdentity(r.sessions[id], sessions[id])
    ensures RegistryOk(idFor, r.(sessions := sessions))
  {
    SameKeys(r.sessions, sessions);
    EventsStay(r, r.(sessions := sessions));
    assert |sessions| == |sessions.Keys|;
  }

  lemma SameKeys(a: map<string, Session>, b: map<string, Session>)
    requires a.Keys == b.Keys && forall id :: id in a ==> SameIdentity(a[id], b[id])
    ensures Keys(a) == Keys(b)
  {
    forall id | id in a ensures KeyOf(a[id]) == KeyOf(b[id]) { }
  }

  lemma NewIdIsNew(idFor: IdFor, r: Registry, source: AgentSource, externalId: string)
    requires Injective(idFor) && RegistryOk(idFor, r) && ExternalKey(source, externalId) !in r.index
    ensures idFor(source, externalId) !in r.sessions
  {
    var id := idFor(source, externalId);
    assert forall i :: i in r.sessions ==> Keys(r.sessions)[i] in r.index;
  }

  lemma InvertsAdd(keys: map<string, string>, index: map<string, string>, id: string, key: string)
    requires Inverts(keys, index) && id !in keys && key !in index
    ensures Inverts(keys[id := key], index[key := id])
  {
  }

  lemma InvertsDrop(keys: map<string, string>, index: map<string, string>, id: string)
    requires Inverts(keys, index) && id in keys
    ensures Inverts(keys - {id}, index - {keys[id]})
  {
  }

  lemma InsertKeeps(idFor: IdFor, r: Registry, s: Session)
    requires Injective(idFor) && RegistryOk(idFor, r) && |r.sessions| < MAX_SESSIONS
    requires KeyOf(s) !in r.index && Minted(idFor, s)
    ensures s.id !in r.sessions && RegistryOk(idFor, Put(r, s))
  {
    NewIdIsNew(idFor, r, s.source, s.externalId);
    InsertUnder(idFor, r, s);
  }

  lemma InsertUnder(idFor: IdFor, r: Registry, s: Session)
    requires RegistryOk(idFor, r) && |r.sessions| < MAX_SESSIONS && s.id !in r.sessions
    requires KeyOf(s) !in r.index && Minted(idFor, s)
    ensures RegistryOk(idFor, Put(r, s))
  {
    InsertIndex(r, s);
    InsertCounts(r, s);
    InsertIds(idFor, r, s);
    EventsStay(r, Put(r, s));
  }

  lemma InsertCounts(r: Registry, s: Session)
    requires s.id !in r.sessions
    ensures |Put(r, s).sessions| == |r.sessions| + 1
  {
    assert Put(r, s).sessions.Keys == r.sessions.Keys + {s.id};
  }

  lemma InsertIds(idFor: IdFor, r: Registry, s: Session)
    requires IdsMinted(idFor, r) && Minted(idFor, s)
    ensures IdsMinted(idFor, Put(r, s))
  {
  }

  lemma EventsStay(r: Registry, after: Registry)
    requires EventsOk(r) && after.events == r.events && r.sessions.Keys <= after.sessions.Keys
    ensures EventsOk(after)
  {
  }

  lemma InsertIndex(r: Registry, s: Session)
    requires IndexExact(r) && s.id !in r.sessions && KeyOf(s) !in r.index
    ensures IndexExact(Put(r, s))
  {
    InvertsAdd(Keys(r.sessions), r.index, s.id, KeyOf(s));
    assert Keys(Put(r, s).sessions) == Keys(r.sessions)[s.id := KeyOf(s)];
  }

  lemma RemoveKeeps(idFor: IdFor, r: Registry, id: string)
    requires RegistryOk(idFor, r) && id in r.sessions
    ensures RegistryOk(idFor, Remove(r, id)) && |Remove(r, id).sessions| == |r.sessions| - 1
  {
    var after := Remove(r, id);
    assert after.sessions.Keys == r.sessions.Keys - {id};
    InvertsDrop(Keys(r.sessions), r.index, id);
    assert Keys(after.sessions) == Keys(r.sessions) - {id};
  }

  ghost predicate FreshEventId(r: Registry, uuid: nat) {
    forall a, i :: EventAt(r.events, a, i) ==> r.events[a][i].id != uuid
  }

  lemma CapWindow(id: string, w: seq<Event>)
    requires |w| >= 1 && w[0].sequence >= 1
    requires forall i :: 0 <= i < |w| ==> w[i].sessionId == id && w[i].sequence == w[0].sequence + i
    ensures WindowOk(id, Cap(w))
    ensures Cap(w) != [] && Cap(w)[|Cap(w)| - 1] == w[|w| - 1]
  {
  }

  /** The core's own sequence number is never refused, and keeps every window well formed. */
  lemma AppendKeeps(idFor: IdFor, r: Registry, e: Event)
    requires RegistryOk(idFor, r) && e.sessionId in r.sessions && FreshEventId(r, e.id)
    requires e.sequence == NextSequence(r, e.sessionId)
    ensures Append(r, e).1.None? && RegistryOk(idFor, Append(r, e).0)
    ensures EventsFor(Append(r, e).0, e.sessionId) == Cap(EventsFor(r, e.sessionId) + [e])
  {
    var id := e.sessionId;
    var w := EventsFor(r, id);
    var longer := w + [e];
    forall i | 0 <= i < |longer| ensures longer[i].sessionId == id && longer[i].sequence == longer[0].sequence + i {
      if w != [] { assert WindowOk(id, w); }
    }
    CapWindow(id, longer);
    var after := Append(r, e).0;
    assert after.sessions == r.sessions && after.index == r.index;
    AppendKeepsDistinct(r.events, id, e);
  }

  lemma AppendKeepsDistinct(events: map<string, seq<Event>>, id: string, e: Event)
    requires DistinctEvents(events) && forall a, i :: EventAt(events, a, i) ==> events[a][i].id != e.id
    ensures DistinctEvents(events[id := Cap((if id in events then events[id] else []) + [e])])
  {
    var w := if id in events then events[id] else [];
    var window := Cap(w + [e]);
    var after := events[id := window];
    var drop := |w| + 1 - |window|;
    forall a, i, b, j | EventAt(after, a, i) && EventAt(after, b, j) && after[a][i].id == after[b][j].id
      ensures a == b && i == j
    {
      assert a == id ==> after[a][i] == (w + [e])[i + drop];
      assert b == id ==> after[b][j] == (w + [e])[j + drop];
      assert EventAt(events, a, if a == id then i + drop else i) || (a == id && i + drop == |w|);
      assert EventAt(events, b, if b == id then j + drop else j) || (b == id && j + drop == |w|);
    }
  }
}
