/** The replicated part of the state, and what each stream payload does to it. */
module Views {
  import opened Options
  import opened Sequences
  import opened Protocol

  /** Sessions without their last-event time and metric, adapters in order, settings. */
  datatype View = View(sessions: map<string, Session>, adapters: seq<Adapter>, settings: Settings)

  /** Fields that change on the host without a frame are left out of the view. */
  function Replicated(s: Session): Session { s.(lastEventAt := 0, metric := None) }

  function ReplicatedAll(sessions: map<string, Session>): map<string, Session> {
    map id | id in sessions :: Replicated(sessions[id])
  }

  /** Later sessions of a list win. */
  function Indexed(list: seq<Session>): map<string, Session> {
    if list == [] then map[] else
      var last := list[|list| - 1];
      Indexed(list[..|list| - 1])[last.id := last]
  }

  predicate HasSource(adapters: seq<Adapter>, source: AgentSource) {
    exists a :: a in adapters && a.source == source
  }

  /** Every adapter of that source is replaced; a new source goes to the end. */
  function MergeAdapter(adapters: seq<Adapter>, a: Adapter): seq<Adapter> {
    if HasSource(adapters, a.source)
    then seq(|adapters|, i requires 0 <= i < |adapters| => if adapters[i].source == a.source then a else adapters[i])
    else adapters + [a]
  }

  function ApplyPayload(v: View, p: Payload): View {
    match p
    case FullSnapshot(s) => View(ReplicatedAll(Indexed(s.sessions)), s.adapters, s.settings)
    case SessionUpsert(s) => v.(sessions := v.sessions[s.id := Replicated(s)])
    case SessionRemove(id) => v.(sessions := v.sessions - {id})
    case SettingsChanged(settings) => v.(settings := settings)
    case IntegrationChanged(a) => v.(adapters := MergeAdapter(v.adapters, a))
    case _ => v
  }

  function Fold(v: View, payloads: seq<Payload>): View {
    if payloads == [] then v
    else ApplyPayload(Fold(v, payloads[..|payloads| - 1]), payloads[|payloads| - 1])
  }

  lemma FoldSnoc(v: View, payloads: seq<Payload>, p: Payload)
    ensures Fold(v, payloads + [p]) == ApplyPayload(Fold(v, payloads), p)
  {
    assert (payloads + [p])[..|payloads|] == payloads;
  }

  lemma {:induction false} FoldConcat(v: View, a: seq<Payload>, b: seq<Payload>)
    ensures Fold(v, a + b) == Fold(Fold(v, a), b)
  {
    if b == [] {
      assert a + b == a;
    } else {
      var init, last := b[..|b| - 1], b[|b| - 1];
      FoldConcat(v, a, init);
      assert a + b == (a + init) + [last];
      FoldSnoc(v, a + init, last);
    }
  }

  // ---------------------------------------------------------------- events told

  function EventsIn(payloads: seq<Payload>): seq<Event> {
    if payloads == [] then []
    else
      var last := payloads[|payloads| - 1];
      EventsIn(payloads[..|payloads| - 1]) + (if last.SessionEvent? then [last.event] else [])
  }

  lemma EventsInSnoc(payloads: seq<Payload>, p: Payload)
    ensures EventsIn(payloads + [p]) == EventsIn(payloads) + (if p.SessionEvent? then [p.event] else [])
  {
    assert (payloads + [p])[..|payloads|] == payloads;
  }

  lemma {:induction false} EventsInConcat(a: seq<Payload>, b: seq<Payload>)
    ensures EventsIn(a + b) == EventsIn(a) + EventsIn(b)
  {
    if b == [] {
      assert a + b == a;
    } else {
      var init, last := b[..|b| - 1], b[|b| - 1];
      EventsInConcat(a, init);
      assert (a + b)[..|a + b| - 1] == a + init;
      Regroup(EventsIn(a), EventsIn(init), if last.SessionEvent? then [last.event] else []);
    }
  }

  lemma {:induction false} NoEventsIn(payloads: seq<Payload>)
    requires forall p :: p in payloads ==> !p.SessionEvent?
    ensures EventsIn(payloads) == []
  {
    if payloads != [] { NoEventsIn(payloads[..|payloads| - 1]); }
  }
}
