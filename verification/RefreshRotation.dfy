/** Which refresh token an exchange of a delegated session sends: exactly when it is the latest one issued. */
module RefreshRotation {
  import opened Common
  import opened Broker

  // ----- What happened in a run -----

  /** The event is a refresh for the session that is granted a new refresh token. */
  ghost predicate Grants(s: State, e: Event, configured: int, sid: string) {
    Possible(s, e, configured) && e.Refresh? && s.exchanges[e.i].request.sid == sid && NextPc(s, e, configured).Updating?
  }

  /**
   * For each session the token it was created with, the last exchange granted a new token and the last one that
   * stored its token; for each exchange the token it was granted, and the last storer when it read its session.
   */
  datatype History = History(first: map<string, string>, grantee: map<string, nat>, storer: map<string, nat>,
                             granted: map<nat, string>, basis: map<nat, Option<nat>>)

  function Get<K, V>(m: map<K, V>, k: K): Option<V> {
    if k in m then Some(m[k]) else None
  }

  ghost function NextHistory(h: History, s: State, e: Event, configured: int): History
    requires Possible(s, e, configured)
  {
    match e
    case Create(sid, session, _) => h.(first := h.first[sid := session.refreshToken])
    case Read(i) => h.(basis := h.basis[i := Get(h.storer, s.exchanges[i].request.sid)])
    case Refresh(i, _) =>
      var pc := NextPc(s, e, configured);
      if pc.Updating?
      then h.(granted := h.granted[i := pc.next], grantee := h.grantee[s.exchanges[i].request.sid := i])
      else h
    case Update(i) => h.(storer := h.storer[s.exchanges[i].request.sid := i])
    case _ => h
  }

  const NOTHING := History(map[], map[], map[], map[], map[])

  /** The history of the first n events of a run. */
  ghost function HistoryAfter(states: seq<State>, events: seq<Event>, configured: int, n: nat): History
    requires Run(states, events, configured) && n < |states|
  {
    if n == 0 then NOTHING
    else NextHistory(HistoryAfter(states, events, configured, n - 1), states[n - 1], events[n - 1], configured)
  }

  /** The last exchange that was granted a new token for the session before event n, if one was. */
  ghost function LastGranted(states: seq<State>, events: seq<Event>, configured: int, n: nat, sid: string): Option<nat>
    requires Run(states, events, configured) && n < |states|
  {
    Get(HistoryAfter(states, events, configured, n).grantee, sid)
  }

  /** The last exchange that stored its token for the session before event n, if one did. */
  ghost function LastStored(states: seq<State>, events: seq<Event>, configured: int, n: nat, sid: string): Option<nat>
    requires Run(states, events, configured) && n < |states|
  {
    Get(HistoryAfter(states, events, configured, n).storer, sid)
  }

  /** The identity provider issues no token twice for a session. */
  ghost predicate NeverReissues(states: seq<State>, events: seq<Event>, configured: int)
    requires Run(states, events, configured)
  {
    && (forall j, k, sid :: 0 <= j < k < |events| && Grants(states[j], events[j], configured, sid) &&
                            Grants(states[k], events[k], configured, sid) ==>
          events[j].answer.next != events[k].answer.next)
    && (forall j, k :: 0 <= j < |events| && 0 <= k < |events| && events[j].Create? &&
                       Grants(states[k], events[k], configured, events[j].sid) ==>
          events[k].answer.next != Some(events[j].session.refreshToken))
  }

  // ----- Invariants of the history -----

  function Token(h: History, sid: string, who: Option<nat>): Option<string> {
    if who.None? then Get(h.first, sid) else Get(h.granted, who.value)
  }

  ghost predicate Known(s: State, h: History, sid: string, who: Option<nat>) {
    who.Some? ==> who.value in h.granted && who.value < |s.exchanges| && s.exchanges[who.value].request.sid == sid
  }

  /** An exchange has been granted a token exactly when it stores or has stored one. */
  ghost predicate GrantsOk(s: State, h: History) {
    && (forall j :: j in h.granted ==>
          j < |s.exchanges| && (s.exchanges[j].pc.Updating? || s.exchanges[j].pc.Succeeded?))
    && (forall j :: 0 <= j < |s.exchanges| && s.exchanges[j].pc.Updating? ==>
          j in h.granted && h.granted[j] == s.exchanges[j].pc.next)
  }

  function Sids(s: State): set<string> {
    set c | c in s.creations :: c.sid
  }

  /** The sessions of the history are those created. */
  ghost predicate SessionsOk(s: State, h: History) {
    h.first.Keys == s.latest.Keys == Sids(s)
  }

  /** Who was granted a token for a session, and who stored one, is an exchange of that session. */
  ghost predicate ActorsOk(s: State, h: History) {
    && (forall sid :: sid in h.grantee ==> Known(s, h, sid, Some(h.grantee[sid])))
    && (forall sid :: sid in h.storer ==> Known(s, h, sid, Some(h.storer[sid])))
  }

  /** The latest token is the last one granted, and the stored one that of the last storer. */
  ghost predicate TokensOk(s: State, h: History) {
    && (forall sid :: sid in s.latest ==> Some(s.latest[sid]) == Token(h, sid, Get(h.grantee, sid)))
    && (forall sid :: sid in s.table ==> Some(s.table[sid].refreshToken) == Token(h, sid, Get(h.storer, sid)))
  }

  ghost predicate ReadOk(s: State, h: History, i: nat)
    requires i < |s.exchanges|
  {
    var x := s.exchanges[i];
    x.pc.Checking? || x.pc.Refreshing? ==>
      && i in h.basis && Known(s, h, x.request.sid, h.basis[i])
      && Some(x.pc.record.refreshToken) == Token(h, x.request.sid, h.basis[i])
  }

  ghost predicate ReadsOk(s: State, h: History) {
    forall i :: 0 <= i < |s.exchanges| ==> ReadOk(s, h, i)
  }

  ghost predicate HistoryOk(s: State, h: History) {
    GrantsOk(s, h) && SessionsOk(s, h) && ActorsOk(s, h) && TokensOk(s, h) && ReadsOk(s, h)
  }

  /** What the invariants of the table say about an event: a created session is new, and a refreshed one was created. */
  ghost predicate Placed(s: State, h: History, e: Event) {
    && (e.Create? ==> e.sid !in h.grantee && e.sid !in h.storer)
    && (e.Refresh? && e.i < |s.exchanges| ==> s.exchanges[e.i].request.sid in Sids(s))
  }

  lemma EventsArePlaced(s: State, h: History, e: Event, configured: int)
    requires Possible(s, e, configured) && ExchangesOk(s) && GrantsOk(s, h) && ActorsOk(s, h)
    ensures Placed(s, h, e)
  {
    if e.Refresh? {
      assert ExchangeOk(s, s.exchanges[e.i]);
    }
    forall sid | sid in h.grantee || sid in h.storer ensures sid in Sids(s) {
      KnownIsCreated(s, h, sid, if sid in h.grantee then h.grantee[sid] else h.storer[sid]);
    }
  }

  lemma KnownIsCreated(s: State, h: History, sid: string, j: nat)
    requires ExchangesOk(s) && GrantsOk(s, h) && Known(s, h, sid, Some(j))
    ensures sid in Sids(s)
  {
    assert ExchangeOk(s, s.exchanges[j]);
  }

  lemma GrantedStep(s: State, h: History, e: Event, configured: int, j: nat)
    requires Possible(s, e, configured) && j in NextHistory(h, s, e, configured).granted
    requires j in h.granted ==> j < |s.exchanges| && (s.exchanges[j].pc.Updating? || s.exchanges[j].pc.Succeeded?)
    ensures var t := After(s, e, configured);
            j < |t.exchanges| && (t.exchanges[j].pc.Updating? || t.exchanges[j].pc.Succeeded?)
  {
  }

  lemma UpdatingStep(s: State, h: History, e: Event, configured: int, j: nat)
    requires Possible(s, e, configured)
    requires j < |After(s, e, configured).exchanges| && After(s, e, configured).exchanges[j].pc.Updating?
    requires j < |s.exchanges| && s.exchanges[j].pc.Updating? ==> j in h.granted && h.granted[j] == s.exchanges[j].pc.next
    ensures var g := NextHistory(h, s, e, configured);
            j in g.granted && g.granted[j] == After(s, e, configured).exchanges[j].pc.next
  {
  }

  lemma GrantsOkStep(s: State, h: History, e: Event, configured: int)
    requires Possible(s, e, configured) && GrantsOk(s, h)
    ensures GrantsOk(After(s, e, configured), NextHistory(h, s, e, configured))
  {
    var t, g := After(s, e, configured), NextHistory(h, s, e, configured);
    forall j | j in g.granted
      ensures j < |t.exchanges| && (t.exchanges[j].pc.Updating? || t.exchanges[j].pc.Succeeded?)
    {
      GrantedStep(s, h, e, configured, j);
    }
    forall j | 0 <= j < |t.exchanges| && t.exchanges[j].pc.Updating?
      ensures j in g.granted && g.granted[j] == t.exchanges[j].pc.next
    {
      UpdatingStep(s, h, e, configured, j);
    }
  }

  lemma SessionsOkStep(s: State, h: History, e: Event, configured: int)
    requires Possible(s, e, configured) && SessionsOk(s, h) && Placed(s, h, e)
    ensures SessionsOk(After(s, e, configured), NextHistory(h, s, e, configured))
  {
    var t := After(s, e, configured);
    if e.Create? {
      assert Sids(t) == Sids(s) + {e.sid};
    } else {
      assert t.creations == s.creations;
    }
  }

  lemma KnownStays(s: State, h: History, e: Event, configured: int, sid: string, j: nat)
    requires Possible(s, e, configured) && Known(s, h, sid, Some(j))
    ensures Known(After(s, e, configured), NextHistory(h, s, e, configured), sid, Some(j))
  {
  }

  lemma GranteeKnown(s: State, h: History, e: Event, configured: int, sid: string)
    requires Possible(s, e, configured) && sid in NextHistory(h, s, e, configured).grantee
    requires sid in h.grantee ==> Known(s, h, sid, Some(h.grantee[sid]))
    ensures var g := NextHistory(h, s, e, configured); Known(After(s, e, configured), g, sid, Some(g.grantee[sid]))
  {
    if sid in h.grantee { KnownStays(s, h, e, configured, sid, h.grantee[sid]); }
  }

  lemma StorerKnown(s: State, h: History, e: Event, configured: int, sid: string)
    requires Possible(s, e, configured) && sid in NextHistory(h, s, e, configured).storer
    requires sid in h.storer ==> Known(s, h, sid, Some(h.storer[sid]))
    requires e.Update? && e.i < |s.exchanges| ==> e.i in h.granted
    ensures var g := NextHistory(h, s, e, configured); Known(After(s, e, configured), g, sid, Some(g.storer[sid]))
  {
    if sid in h.storer { KnownStays(s, h, e, configured, sid, h.storer[sid]); }
  }

  lemma ActorsOkStep(s: State, h: History, e: Event, configured: int)
    requires Possible(s, e, configured) && GrantsOk(s, h) && ActorsOk(s, h)
    ensures ActorsOk(After(s, e, configured), NextHistory(h, s, e, configured))
  {
    var t, g := After(s, e, configured), NextHistory(h, s, e, configured);
    forall sid | sid in g.grantee ensures Known(t, g, sid, Some(g.grantee[sid])) {
      GranteeKnown(s, h, e, configured, sid);
    }
    forall sid | sid in g.storer ensures Known(t, g, sid, Some(g.storer[sid])) {
      StorerKnown(s, h, e, configured, sid);
    }
  }

  /** What an exchange may do about its token: store the one it was granted, or be granted its first. */
  ghost predicate ActsOk(s: State, h: History, e: Event) {
    && (e.Update? && e.i < |s.exchanges| && s.exchanges[e.i].pc.Updating? ==>
          e.i in h.granted && h.granted[e.i] == s.exchanges[e.i].pc.next)
    && (e.Refresh? && e.i < |s.exchanges| && s.exchanges[e.i].pc.Refreshing? ==> e.i !in h.granted)
  }

  /** Only the session's creation and grants change what its latest token is. */
  lemma LatestStep(s: State, h: History, e: Event, configured: int, sid: string)
    requires Possible(s, e, configured) && ActsOk(s, h, e) && (e.Create? && e.sid == sid ==> sid !in h.grantee)
    requires sid in s.latest ==> Some(s.latest[sid]) == Token(h, sid, Get(h.grantee, sid))
    requires sid in h.grantee ==> h.grantee[sid] in h.granted
    requires sid in After(s, e, configured).latest
    ensures var g := NextHistory(h, s, e, configured);
            Some(After(s, e, configured).latest[sid]) == Token(g, sid, Get(g.grantee, sid))
  {
  }

  /** Only the session's creation and updates change what its stored token is. */
  lemma StoredStep(s: State, h: History, e: Event, configured: int, sid: string)
    requires Possible(s, e, configured) && ActsOk(s, h, e) && (e.Create? && e.sid == sid ==> sid !in h.storer)
    requires sid in s.table ==> Some(s.table[sid].refreshToken) == Token(h, sid, Get(h.storer, sid))
    requires sid in h.storer ==> h.storer[sid] in h.granted
    requires sid in After(s, e, configured).table
    ensures var g := NextHistory(h, s, e, configured);
            Some(After(s, e, configured).table[sid].refreshToken) == Token(g, sid, Get(g.storer, sid))
  {
  }

  /** What is known of an exchange's token never changes. */
  lemma TokenStays(s: State, h: History, e: Event, configured: int, sid: string, who: Option<nat>)
    requires Possible(s, e, configured) && GrantsOk(s, h) && Known(s, h, sid, who) && sid in Sids(s)
    ensures var g := NextHistory(h, s, e, configured);
            Token(g, sid, who) == Token(h, sid, who) && Known(After(s, e, configured), g, sid, who)
  {
    if who.Some? { KnownStays(s, h, e, configured, sid, who.value); }
  }

  predicate HasRead(x: Exchange) {
    x.pc.Checking? || x.pc.Refreshing?
  }

  lemma ReadStep(s: State, h: History, i: nat, configured: int, sid: string, who: Option<nat>)
    requires Possible(s, Read(i), configured) && sid == s.exchanges[i].request.sid && who == Get(h.storer, sid)
    requires sid in s.table ==> Known(s, h, sid, who) && Some(s.table[sid].refreshToken) == Token(h, sid, who)
    ensures ReadOk(After(s, Read(i), configured), NextHistory(h, s, Read(i), configured), i)
  {
    var t := After(s, Read(i), configured);
    assert t.exchanges[i].pc == if sid in s.table then Checking(s.table[sid]) else Failed(NotFound);
    if who.Some? && sid in s.table { KnownStays(s, h, Read(i), configured, sid, who.value); }
  }

  /** Once it has read, an exchange keeps the record and what it is based on, until it is granted a token or is over. */
  lemma ReadKept(s: State, h: History, e: Event, configured: int, i: nat)
    requires Possible(s, e, configured) && i < |s.exchanges| && HasRead(s.exchanges[i])
    ensures var t, g := After(s, e, configured), NextHistory(h, s, e, configured);
            && i < |t.exchanges| && t.exchanges[i].request == s.exchanges[i].request
            && (HasRead(t.exchanges[i]) ==> t.exchanges[i].pc.record == s.exchanges[i].pc.record)
            && (i in h.basis ==> i in g.basis && g.basis[i] == h.basis[i])
  {
  }

  lemma NewlyRead(s: State, e: Event, configured: int, i: nat)
    requires Possible(s, e, configured) && i < |After(s, e, configured).exchanges|
    requires HasRead(After(s, e, configured).exchanges[i])
    ensures i < |s.exchanges| && (HasRead(s.exchanges[i]) || e == Read(i))
  {
  }

  lemma ReadsOkStep(s: State, h: History, e: Event, configured: int)
    requires Possible(s, e, configured) && ExchangesOk(s) && HistoryOk(s, h)
    ensures ReadsOk(After(s, e, configured), NextHistory(h, s, e, configured))
  {
    var t, g := After(s, e, configured), NextHistory(h, s, e, configured);
    forall i | 0 <= i < |t.exchanges| && HasRead(t.exchanges[i]) ensures ReadOk(t, g, i) {
      NewlyRead(s, e, configured, i);
      if e == Read(i) {
        var sid := s.exchanges[i].request.sid;
        if sid in h.storer { assert Known(s, h, sid, Some(h.storer[sid])); }
        ReadStep(s, h, i, configured, sid, Get(h.storer, sid));
      } else {
        assert ReadOk(s, h, i) && ExchangeOk(s, s.exchanges[i]);
        ReadKept(s, h, e, configured, i);
        TokenStays(s, h, e, configured, s.exchanges[i].request.sid, h.basis[i]);
      }
    }
  }

  lemma HistoryOkStep(s: State, h: History, e: Event, configured: int)
    requires Possible(s, e, configured) && ExchangesOk(s) && HistoryOk(s, h)
    ensures HistoryOk(After(s, e, configured), NextHistory(h, s, e, configured))
  {
    var t, g := After(s, e, configured), NextHistory(h, s, e, configured);
    EventsArePlaced(s, h, e, configured);
    GrantsOkStep(s, h, e, configured);
    SessionsOkStep(s, h, e, configured);
    ActorsOkStep(s, h, e, configured);
    ReadsOkStep(s, h, e, configured);
    assert ActsOk(s, h, e);
    forall sid | sid in t.latest ensures Some(t.latest[sid]) == Token(g, sid, Get(g.grantee, sid)) {
      if sid in h.grantee { assert Known(s, h, sid, Some(h.grantee[sid])); }
      LatestStep(s, h, e, configured, sid);
    }
    forall sid | sid in t.table ensures Some(t.table[sid].refreshToken) == Token(g, sid, Get(g.storer, sid)) {
      if sid in h.storer { assert Known(s, h, sid, Some(h.storer[sid])); }
      StoredStep(s, h, e, configured, sid);
    }
  }

  lemma {:induction false} RunHistoryOk(states: seq<State>, events: seq<Event>, configured: int, n: nat)
    requires Run(states, events, configured) && n < |states|
    ensures HistoryOk(states[n], HistoryAfter(states, events, configured, n)) && Inv(states[n], configured)
  {
    RunInv(states, events, configured, n);
    if n > 0 {
      RunHistoryOk(states, events, configured, n - 1);
      HistoryOkStep(states[n - 1], HistoryAfter(states, events, configured, n - 1), events[n - 1], configured);
    }
  }

  // ----- Tokens tell exchanges apart -----

  /** The event grants the exchange a new refresh token. */
  ghost predicate GrantsTo(s: State, e: Event, configured: int, j: nat) {
    && Possible(s, e, configured) && e.Refresh? && e.i == j && NextPc(s, e, configured).Updating?
  }

  lemma GrantedOrBefore(s: State, h: History, e: Event, configured: int, j: nat)
    requires Possible(s, e, configured) && j in NextHistory(h, s, e, configured).granted
    ensures var token := NextHistory(h, s, e, configured).granted[j];
            || (j in h.granted && h.granted[j] == token)
            || (GrantsTo(s, e, configured, j) && e.answer.Granted? && e.answer.next == Some(token))
  {
  }

  /** A token an exchange was granted is the answer to a refresh of its own. */
  lemma {:induction false} GrantedByEvent(states: seq<State>, events: seq<Event>, configured: int, n: nat, j: nat)
    returns (k: nat)
    requires Run(states, events, configured) && n < |states|
    requires j in HistoryAfter(states, events, configured, n).granted
    ensures k < n && GrantsTo(states[k], events[k], configured, j) && events[k].answer.Granted?
    ensures events[k].answer.next == Some(HistoryAfter(states, events, configured, n).granted[j])
  {
    var h := HistoryAfter(states, events, configured, n - 1);
    GrantedOrBefore(states[n - 1], h, events[n - 1], configured, j);
    if j in h.granted && h.granted[j] == HistoryAfter(states, events, configured, n).granted[j] {
      k := GrantedByEvent(states, events, configured, n - 1, j);
    } else {
      k := n - 1;
    }
  }

  lemma CreatedOrBefore(s: State, h: History, e: Event, configured: int, sid: string)
    requires Possible(s, e, configured) && sid in NextHistory(h, s, e, configured).first
    ensures var token := NextHistory(h, s, e, configured).first[sid];
            || (sid in h.first && h.first[sid] == token)
            || (e.Create? && e.sid == sid && e.session.refreshToken == token)
  {
  }

  lemma {:induction false} CreatedByEvent(states: seq<State>, events: seq<Event>, configured: int, n: nat, sid: string)
    returns (k: nat)
    requires Run(states, events, configured) && n < |states|
    requires sid in HistoryAfter(states, events, configured, n).first
    ensures k < n && events[k].Create? && events[k].sid == sid
    ensures events[k].session.refreshToken == HistoryAfter(states, events, configured, n).first[sid]
  {
    var h := HistoryAfter(states, events, configured, n - 1);
    CreatedOrBefore(states[n - 1], h, events[n - 1], configured, sid);
    if sid in h.first && h.first[sid] == HistoryAfter(states, events, configured, n).first[sid] {
      k := CreatedByEvent(states, events, configured, n - 1, sid);
    } else {
      k := n - 1;
    }
  }

  lemma RequestStays(s: State, e: Event, configured: int, j: nat)
    requires Possible(s, e, configured) && j < |s.exchanges|
    ensures j < |After(s, e, configured).exchanges| && After(s, e, configured).exchanges[j].request == s.exchanges[j].request
  {
  }

  lemma {:induction false} RequestsStay(states: seq<State>, events: seq<Event>, configured: int, k: nat, n: nat, j: nat)
    requires Run(states, events, configured) && k <= n < |states| && j < |states[k].exchanges|
    ensures j < |states[n].exchanges| && states[n].exchanges[j].request == states[k].exchanges[j].request
    decreases n
  {
    if k < n {
      RequestsStay(states, events, configured, k, n - 1, j);
      RequestStays(states[n - 1], events[n - 1], configured, j);
    }
  }

  /** Without reissues, the tokens of two exchanges of a session differ, and differ from the one it was created with. */
  lemma TokensDiffer(states: seq<State>, events: seq<Event>, configured: int, n: nat, sid: string,
                     a: Option<nat>, b: Option<nat>)
    requires Run(states, events, configured) && NeverReissues(states, events, configured) && n < |states|
    requires var s, h := states[n], HistoryAfter(states, events, configured, n);
             sid in h.first && Known(s, h, sid, a) && Known(s, h, sid, b) && a != b
    ensures var h := HistoryAfter(states, events, configured, n); Token(h, sid, a) != Token(h, sid, b)
  {
    if a.Some? && b.Some? {
      GrantsDiffer(states, events, configured, n, sid, a.value, b.value);
    } else if a.Some? {
      GrantIsNotFirst(states, events, configured, n, sid, a.value);
    } else {
      GrantIsNotFirst(states, events, configured, n, sid, b.value);
    }
  }

  lemma GrantsDiffer(states: seq<State>, events: seq<Event>, configured: int, n: nat, sid: string, a: nat, b: nat)
    requires Run(states, events, configured) && NeverReissues(states, events, configured) && n < |states| && a != b
    requires var s, h := states[n], HistoryAfter(states, events, configured, n);
             Known(s, h, sid, Some(a)) && Known(s, h, sid, Some(b))
    ensures var h := HistoryAfter(states, events, configured, n); h.granted[a] != h.granted[b]
  {
    var j := GrantedByEvent(states, events, configured, n, a);
    var k := GrantedByEvent(states, events, configured, n, b);
    RequestsStay(states, events, configured, j, n, a);
    RequestsStay(states, events, configured, k, n, b);
    assert Grants(states[j], events[j], configured, sid) && Grants(states[k], events[k], configured, sid);
  }

  lemma GrantIsNotFirst(states: seq<State>, events: seq<Event>, configured: int, n: nat, sid: string, a: nat)
    requires Run(states, events, configured) && NeverReissues(states, events, configured) && n < |states|
    requires var s, h := states[n], HistoryAfter(states, events, configured, n);
             sid in h.first && Known(s, h, sid, Some(a))
    ensures var h := HistoryAfter(states, events, configured, n); h.granted[a] != h.first[sid]
  {
    var j := CreatedByEvent(states, events, configured, n, sid);
    var k := GrantedByEvent(states, events, configured, n, a);
    RequestsStay(states, events, configured, k, n, a);
    assert Grants(states[k], events[k], configured, events[j].sid);
  }

  // ----- When the token sent is the latest -----

  lemma SentIsLatestNow(states: seq<State>, events: seq<Event>, configured: int, n: nat, i: nat)
    requires Run(states, events, configured) && NeverReissues(states, events, configured) && n < |states|
    requires i < |states[n].exchanges| && states[n].exchanges[i].pc.Refreshing?
    ensures var x, h := states[n].exchanges[i], HistoryAfter(states, events, configured, n);
            && i in h.basis
            && (IsLatest(states[n], x.request.sid, x.pc.record.refreshToken) <==> h.basis[i] == Get(h.grantee, x.request.sid))
  {
    var s, h := states[n], HistoryAfter(states, events, configured, n);
    var sid := s.exchanges[i].request.sid;
    RunHistoryOk(states, events, configured, n);
    assert ReadOk(s, h, i) && ExchangeOk(s, s.exchanges[i]);
    assert sid in Sids(s);
    if h.basis[i] != Get(h.grantee, sid) {
      TokensDiffer(states, events, configured, n, sid, h.basis[i], Get(h.grantee, sid));
    }
  }

  /** An exchange reads once. */
  lemma {:induction false} ReadsOnce(states: seq<State>, events: seq<Event>, configured: int, r: nat, n: nat, i: nat)
    requires Run(states, events, configured) && r < n < |states| && events[r] == Read(i)
    ensures i < |states[n].exchanges| && !states[n].exchanges[i].pc.Reading?
    ensures n < |events| ==> events[n] != Read(i)
    decreases n
  {
    assert states[n] == After(states[n - 1], events[n - 1], configured);
    if r < n - 1 {
      ReadsOnce(states, events, configured, r, n - 1, i);
      StaysPastReading(states[n - 1], events[n - 1], configured, i);
    } else {
      assert Possible(states[r], events[r], configured);
    }
    if n < |events| { assert Possible(states[n], events[n], configured); }
  }

  lemma StaysPastReading(s: State, e: Event, configured: int, i: nat)
    requires Possible(s, e, configured) && i < |s.exchanges| && !s.exchanges[i].pc.Reading?
    ensures i < |After(s, e, configured).exchanges| && !After(s, e, configured).exchanges[i].pc.Reading?
  {
  }

  /** What an exchange's record is based on is who had stored a token when it read. */
  lemma {:induction false} BasisIsLastStored(states: seq<State>, events: seq<Event>, configured: int, r: nat, n: nat, i: nat)
    requires Run(states, events, configured) && r < n < |states| && events[r] == Read(i)
    requires i < |states[n].exchanges| && HasRead(states[n].exchanges[i])
    ensures var h := HistoryAfter(states, events, configured, n);
            i < |states[r].exchanges| && i in h.basis &&
            h.basis[i] == LastStored(states, events, configured, r, states[r].exchanges[i].request.sid)
    decreases n
  {
    assert Possible(states[r], events[r], configured);
    if r < n - 1 {
      ReadsOnce(states, events, configured, r, n - 1, i);
      NewlyRead(states[n - 1], events[n - 1], configured, i);
      BasisIsLastStored(states, events, configured, r, n - 1, i);
      ReadKept(states[n - 1], HistoryAfter(states, events, configured, n - 1), events[n - 1], configured, i);
    }
  }

  ghost predicate NoGrantBetween(states: seq<State>, events: seq<Event>, configured: int, r: nat, n: nat, sid: string)
    requires n <= |events| && n <= |states|
  {
    forall k :: r < k < n ==> !Grants(states[k], events[k], configured, sid)
  }

  lemma GranteeStep(s: State, h: History, e: Event, configured: int, sid: string)
    requires Possible(s, e, configured) && GrantsOk(s, h)
    ensures var g := NextHistory(h, s, e, configured);
            && h.granted.Keys <= g.granted.Keys
            && (!Grants(s, e, configured, sid) ==> Get(g.grantee, sid) == Get(h.grantee, sid))
            && (Grants(s, e, configured, sid) ==> Get(g.grantee, sid) == Some(e.i) && e.i !in h.granted)
  {
  }

  lemma NoGrantSplits(states: seq<State>, events: seq<Event>, configured: int, r: nat, n: nat, sid: string)
    requires r < n - 1 && n <= |events| && n <= |states|
    ensures NoGrantBetween(states, events, configured, r, n, sid) <==>
            NoGrantBetween(states, events, configured, r, n - 1, sid) &&
            !Grants(states[n - 1], events[n - 1], configured, sid)
  {
  }

  /** What a history h has become: the same last grantee, or one who had been granted nothing in h. */
  predicate Since(h: History, g: History, sid: string, quiet: bool) {
    && h.granted.Keys <= g.granted.Keys
    && (quiet ==> Get(g.grantee, sid) == Get(h.grantee, sid))
    && (!quiet ==> sid in g.grantee && g.grantee[sid] !in h.granted)
  }

  lemma SinceStep(h: History, states: seq<State>, events: seq<Event>, configured: int, n: nat, sid: string, quiet: bool)
    requires Run(states, events, configured) && n < |events|
    requires Since(h, HistoryAfter(states, events, configured, n), sid, quiet)
    ensures Since(h, HistoryAfter(states, events, configured, n + 1), sid,
                  quiet && !Grants(states[n], events[n], configured, sid))
  {
    RunHistoryOk(states, events, configured, n);
    GranteeStep(states[n], HistoryAfter(states, events, configured, n), events[n], configured, sid);
  }

  /** Grants since event r, and only they, make someone the last grantee who had been granted nothing by then. */
  lemma {:induction false} GranteeSince(states: seq<State>, events: seq<Event>, configured: int, r: nat, n: nat, sid: string)
    requires Run(states, events, configured) && r < n <= |events| && !Grants(states[r], events[r], configured, sid)
    ensures Since(HistoryAfter(states, events, configured, r), HistoryAfter(states, events, configured, n), sid,
                  NoGrantBetween(states, events, configured, r, n, sid))
    decreases n
  {
    var h, quiet := HistoryAfter(states, events, configured, r), true;
    if r < n - 1 {
      GranteeSince(states, events, configured, r, n - 1, sid);
      NoGrantSplits(states, events, configured, r, n, sid);
      quiet := NoGrantBetween(states, events, configured, r, n - 1, sid);
    }
    SinceStep(h, states, events, configured, n - 1, sid, quiet);
  }

  /**
   * However exchanges interleave, a refresh sends the latest token of its session exactly when no exchange of the
   * session has been granted a new one since it read, and what it read had been stored by the last one granted one.
   */
  lemma SendsLatestExactly(states: seq<State>, events: seq<Event>, configured: int, r: nat, n: nat, i: nat)
    requires Run(states, events, configured) && NeverReissues(states, events, configured)
    requires r < n < |events| && events[r] == Read(i) && events[n].Refresh? && events[n].i == i
    ensures i < |states[r].exchanges| && i < |states[n].exchanges| && states[n].exchanges[i].pc.Refreshing?
    ensures var x, sid := states[n].exchanges[i], states[r].exchanges[i].request.sid;
            IsLatest(states[n], x.request.sid, x.pc.record.refreshToken) <==>
            && NoGrantBetween(states, events, configured, r, n, sid)
            && LastStored(states, events, configured, r, sid) == LastGranted(states, events, configured, r, sid)
  {
    assert Possible(states[r], events[r], configured) && Possible(states[n], events[n], configured);
    var sid := states[r].exchanges[i].request.sid;
    RequestsStay(states, events, configured, r, n, i);
    SentIsLatestNow(states, events, configured, n, i);
    BasisIsLastStored(states, events, configured, r, n, i);
    GranteeSince(states, events, configured, r, n, sid);
    RunHistoryOk(states, events, configured, r);
    var h := HistoryAfter(states, events, configured, r);
    if sid in h.storer { assert Known(states[r], h, sid, Some(h.storer[sid])); }
  }

  /** An exchange that overlaps with one that is granted a new token between its read and its refresh sends an old one. */
  lemma OverlappingSendsStale(states: seq<State>, events: seq<Event>, configured: int, r: nat, k: nat, n: nat, i: nat)
    requires Run(states, events, configured) && NeverReissues(states, events, configured)
    requires r < k < n < |events| && events[r] == Read(i) && events[n].Refresh? && events[n].i == i
    requires i < |states[r].exchanges| && Grants(states[k], events[k], configured, states[r].exchanges[i].request.sid)
    ensures i < |states[n].exchanges| && states[n].exchanges[i].pc.Refreshing?
    ensures var x := states[n].exchanges[i]; !IsLatest(states[n], x.request.sid, x.pc.record.refreshToken)
  {
    SendsLatestExactly(states, events, configured, r, n, i);
  }
}
