/** Creating a session and exchanging a token as one call each, and their place among the interleaved events. */
module BrokerCalls {
  import opened Common
  import opened Broker

  datatype CallError = StoreUnavailable | RefreshTokenRequired | Rejected(failure: Failure)

  // ----- One exchange that nothing interrupts -----

  /** The table after the exchange and how it ends, when it runs at one time with one answer of the identity provider. */
  function Exchanged(table: Table, valid: bool, request: Request, now: Time, answer: Answer): (r: (Table, Pc))
    ensures r.1.Succeeded? || r.1.Failed?
  {
    if !valid then (table, Failed(InvalidToken))
    else if request.sid !in table then (table, Failed(NotFound))
    else
      var checked := AfterCheck(table[request.sid], request, now);
      if checked.Deleting? then (table - {request.sid}, Failed(Expired))
      else if checked.Failed? then (table, checked)
      else
        var refreshed := AfterRefresh(checked, answer);
        if refreshed.Updating? then
          (TokenUpdated(table, request.sid, refreshed.next),
           Succeeded(refreshed.record, refreshed.checkedAt, refreshed.access))
        else (table, refreshed)
  }

  method CreateDelegatedBrokerSession(store: DelegatedSessionStore, sid: string, subject: string, userId: string,
                                      sessionId: string, realm: string, catalog: string, audience: string,
                                      refreshToken: string, now: Time, configured: int)
    returns (r: Result<Claims, CallError>)
    modifies store`table
    ensures r.Ok? <==> refreshToken != "" && store.started
    ensures r.Err? ==> store.table == old(store.table)
    ensures r.Ok? ==> r.value == Claims(sid, now + Lifetime(configured))
    ensures r.Ok? ==> store.table == old(store.table)[sid := Session(subject, userId, sessionId, realm, catalog, audience,
                                                                     refreshToken, now + Lifetime(configured))]
  {
    if refreshToken == "" {
      return Err(RefreshTokenRequired);
    }
    var ttl := if configured > 300 then configured else 300;
    var expiresAt := now + ttl;
    var put := store.PutSession(sid, Session(subject, userId, sessionId, realm, catalog, audience, refreshToken, expiresAt));
    if put.Err? {
      return Err(StoreUnavailable);
    }
    return Ok(Claims(sid, expiresAt));
  }

  /** The access token, or why there is none; a store that is not started fails every exchange with a valid token. */
  method ExchangeTokenForPolaris(store: DelegatedSessionStore, token: Claims, valid: bool, userId: string,
                                 sessionId: string, realm: string, now: Time, answer: Answer)
    returns (r: Result<string, CallError>)
    modifies store`table
    ensures valid && !store.started ==> r == Err(StoreUnavailable) && store.table == old(store.table)
    ensures !valid || store.started ==>
              var request := Request(token.sid, userId, sessionId, realm);
              var (after, end) := Exchanged(old(store.table), valid, request, now, answer);
              && store.table == after
              && r == if end.Succeeded? then Ok(end.access) else Err(Rejected(end.failure))
  {
    if !valid {
      return Err(Rejected(InvalidToken));
    }
    var got := store.GetSession(token.sid);
    if got.Err? {
      return Err(StoreUnavailable);
    }
    if got.value.None? {
      return Err(Rejected(NotFound));
    }
    var record := got.value.value;
    if record.expiresAt <= now {
      var _ := store.DeleteSession(token.sid);
      return Err(Rejected(Expired));
    }
    if record.userId != userId || record.sessionId != sessionId || record.realm != realm {
      return Err(Rejected(IdentityMismatch));
    }
    if answer.Refused? || answer.access == "" {
      return Err(Rejected(RefreshFailed));
    }
    if answer.next.Some? && answer.next.value != "" {
      var _ := store.UpdateRefreshToken(token.sid, answer.next.value);
    }
    return Ok(answer.access);
  }

  // ----- Calls are runs of events -----

  /** How far an exchange is from its end. */
  function StepsLeft(pc: Pc): nat {
    match pc
    case Reading => 4
    case Checking(_) => 3
    case Deleting(_) => 1
    case Refreshing(_, _) => 2
    case Updating(_, _, _, _) => 1
    case _ => 0
  }

  function NextEvent(pc: Pc, i: nat, answer: Answer): Event
    requires StepsLeft(pc) > 0
  {
    match pc
    case Reading => Read(i)
    case Checking(_) => Check(i)
    case Deleting(_) => Delete(i)
    case Refreshing(_, _) => Refresh(i, answer)
    case _ => Update(i)
  }

  lemma ExchangeSteps(s: State, i: nat, answer: Answer, configured: int)
    requires i < |s.exchanges| && StepsLeft(s.exchanges[i].pc) > 0
    ensures var e := NextEvent(s.exchanges[i].pc, i, answer);
            && Possible(s, e, configured) && i < |After(s, e, configured).exchanges|
            && StepsLeft(After(s, e, configured).exchanges[i].pc) < StepsLeft(s.exchanges[i].pc)
  {
  }

  /** The state when exchange i has taken all its remaining steps and nothing else has happened. */
  ghost function Drive(s: State, i: nat, answer: Answer, configured: int): State
    requires i < |s.exchanges|
    decreases StepsLeft(s.exchanges[i].pc)
  {
    if StepsLeft(s.exchanges[i].pc) == 0 then s
    else
      ExchangeSteps(s, i, answer, configured);
      Drive(After(s, NextEvent(s.exchanges[i].pc, i, answer), configured), i, answer, configured)
  }

  lemma OverIsOver(s: State, i: nat, answer: Answer, configured: int)
    requires i < |s.exchanges| && StepsLeft(s.exchanges[i].pc) == 0
    ensures Drive(s, i, answer, configured) == s
  {
  }

  lemma DriveStep(s: State, i: nat, answer: Answer, configured: int)
    requires i < |s.exchanges| && StepsLeft(s.exchanges[i].pc) > 0
    ensures var e := NextEvent(s.exchanges[i].pc, i, answer);
            && Possible(s, e, configured) && i < |After(s, e, configured).exchanges|
            && Drive(s, i, answer, configured) == Drive(After(s, e, configured), i, answer, configured)
            && After(s, e, configured).table == NextTable(s, e, configured)
            && After(s, e, configured).clock == s.clock
            && After(s, e, configured).exchanges[i] == s.exchanges[i].(pc := NextPc(s, e, configured))
  {
    ExchangeSteps(s, i, answer, configured);
  }

  lemma DriveFromRefreshing(s: State, i: nat, answer: Answer, configured: int)
    requires i < |s.exchanges| && s.exchanges[i].pc.Refreshing?
    ensures var d, x := Drive(s, i, answer, configured), s.exchanges[i];
            var refreshed := AfterRefresh(x.pc, answer);
            && i < |d.exchanges|
            && d.exchanges[i].pc == (if refreshed.Updating?
                 then Succeeded(refreshed.record, refreshed.checkedAt, refreshed.access) else refreshed)
            && d.table == if refreshed.Updating? then TokenUpdated(s.table, x.request.sid, refreshed.next) else s.table
  {
    DriveStep(s, i, answer, configured);
    var t := After(s, Refresh(i, answer), configured);
    if t.exchanges[i].pc.Updating? {
      DriveStep(t, i, answer, configured);
      OverIsOver(After(t, Update(i), configured), i, answer, configured);
    } else {
      OverIsOver(t, i, answer, configured);
    }
  }

  lemma DriveFromChecking(s: State, i: nat, answer: Answer, configured: int)
    requires i < |s.exchanges| && s.exchanges[i].pc.Checking? && s.exchanges[i].request.sid in s.table
    requires s.exchanges[i].pc.record == s.table[s.exchanges[i].request.sid]
    ensures var d := Drive(s, i, answer, configured);
            && i < |d.exchanges|
            && (d.table, d.exchanges[i].pc) == Exchanged(s.table, true, s.exchanges[i].request, s.clock, answer)
  {
    DriveStep(s, i, answer, configured);
    var t := After(s, Check(i), configured);
    if t.exchanges[i].pc.Deleting? {
      DriveStep(t, i, answer, configured);
      OverIsOver(After(t, Delete(i), configured), i, answer, configured);
    } else if t.exchanges[i].pc.Failed? {
      OverIsOver(t, i, answer, configured);
    } else {
      DriveFromRefreshing(t, i, answer, configured);
    }
  }

  /** An exchange that is begun and then takes its steps without interruption does what the call does. */
  lemma CallIsRun(s: State, token: Claims, userId: string, sessionId: string, realm: string, answer: Answer, configured: int)
    ensures var request, i := Request(token.sid, userId, sessionId, realm), |s.exchanges|;
            var valid := token in s.signed && token.exp > s.clock && token.sid != "";
            var begun := After(s, Begin(token, userId, sessionId, realm), configured);
            && i < |begun.exchanges| && i < |Drive(begun, i, answer, configured).exchanges|
            && var d := Drive(begun, i, answer, configured);
               (d.table, d.exchanges[i].pc) == Exchanged(s.table, valid, request, s.clock, answer)
  {
    var i := |s.exchanges|;
    var begun := After(s, Begin(token, userId, sessionId, realm), configured);
    if begun.exchanges[i].pc.Reading? {
      DriveStep(begun, i, answer, configured);
      var t := After(begun, Read(i), configured);
      if t.exchanges[i].pc.Checking? {
        DriveFromChecking(t, i, answer, configured);
      } else {
        OverIsOver(t, i, answer, configured);
      }
    } else {
      OverIsOver(begun, i, answer, configured);
    }
  }

  // ----- How an exchange ends -----

  /** Exactly when an exchange succeeds, with which access token, how it fails otherwise, and what it leaves in the table. */
  lemma ExchangedExactly(table: Table, valid: bool, request: Request, now: Time, answer: Answer)
    ensures var (after, end) := Exchanged(table, valid, request, now, answer);
            var found := valid && request.sid in table;
            var live := found && now < table[request.sid].expiresAt;
            var own := live && table[request.sid].userId == request.userId &&
                       table[request.sid].sessionId == request.sessionId && table[request.sid].realm == request.realm;
            var refreshed := own && answer.Granted? && answer.access != "";
            && (end.Succeeded? <==> refreshed) && (end.Succeeded? ==> end.access == answer.access)
            && (end == Failed(InvalidToken) <==> !valid)
            && (end == Failed(NotFound) <==> valid && request.sid !in table)
            && (end == Failed(Expired) <==> found && !live)
            && (end == Failed(IdentityMismatch) <==> live && !own)
            && (end == Failed(RefreshFailed) <==> own && !refreshed)
            && (forall sid :: sid != request.sid ==>
                  (sid in after <==> sid in table) && (sid in table ==> after[sid] == table[sid]))
            && (request.sid in after <==> request.sid in table && !(found && !live))
            && (request.sid in after ==>
                  after[request.sid] ==
                  if refreshed && answer.next.Some? && answer.next.value != ""
                  then table[request.sid].(refreshToken := answer.next.value) else table[request.sid])
  {
  }

  // ----- The access token of a success -----

  /** The access token an exchange has been granted, if it has one. */
  function AccessOf(pc: Pc): Option<string> {
    match pc
    case Updating(_, _, access, _) => Some(access)
    case Succeeded(_, _, access) => Some(access)
    case _ => None
  }

  lemma AccessComesFrom(s: State, e: Event, configured: int, i: nat)
    requires Possible(s, e, configured) && i < |After(s, e, configured).exchanges|
    requires AccessOf(After(s, e, configured).exchanges[i].pc).Some?
    ensures var access := AccessOf(After(s, e, configured).exchanges[i].pc);
            || (i < |s.exchanges| && AccessOf(s.exchanges[i].pc) == access)
            || (e.Refresh? && e.i == i && e.answer.Granted? && access == Some(e.answer.access))
  {
  }

  lemma {:induction false} AccessIsGranted(states: seq<State>, events: seq<Event>, configured: int, n: nat, i: nat)
    requires Run(states, events, configured) && n < |states|
    requires i < |states[n].exchanges| && AccessOf(states[n].exchanges[i].pc).Some?
    ensures exists m :: 0 <= m < n && events[m].Refresh? && events[m].i == i && events[m].answer.Granted? &&
                        AccessOf(states[n].exchanges[i].pc) == Some(events[m].answer.access)
  {
    if n > 0 {
      assert states[n] == After(states[n - 1], events[n - 1], configured);
      AccessComesFrom(states[n - 1], events[n - 1], configured, i);
      if i < |states[n - 1].exchanges| && AccessOf(states[n - 1].exchanges[i].pc) == AccessOf(states[n].exchanges[i].pc) {
        AccessIsGranted(states, events, configured, n - 1, i);
      }
    }
  }

  /** Over every run, an exchange that succeeds hands out the access token granted to its own refresh. */
  lemma SuccessHasItsAccess(states: seq<State>, events: seq<Event>, configured: int, n: nat, i: nat)
    requires Run(states, events, configured) && n < |states|
    requires i < |states[n].exchanges| && states[n].exchanges[i].pc.Succeeded?
    ensures exists m :: 0 <= m < n && events[m].Refresh? && events[m].i == i && events[m].answer.Granted? &&
                        states[n].exchanges[i].pc.access == events[m].answer.access
  {
    AccessIsGranted(states, events, configured, n, i);
  }
}
