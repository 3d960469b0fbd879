/** Delegated broker sessions: the session table, and exchanges that interleave over it. */
module Broker {
  import opened Common

  type Time = int

  datatype Session = Session(subject: string, userId: string, sessionId: string, realm: string, catalog: string,
                             audience: string, refreshToken: string, expiresAt: Time)

  type Table = map<string, Session>

  // ----- The session table -----

  function TokenUpdated(table: Table, sid: string, token: string): Table {
    if sid in table then table[sid := table[sid].(refreshToken := token)] else table
  }

  datatype StoreError = NotInitialized

  class DelegatedSessionStore {
    var table: Table
    var started: bool

    constructor ()
      ensures table == map[] && !started
    {
      table := map[];
      started := false;
    }

    method Startup()
      modifies this`started
      ensures started
    {
      started := true;
    }

    /** An upsert: every column is replaced. */
    method PutSession(sid: string, session: Session) returns (r: Result<(), StoreError>)
      modifies this`table
      ensures r.Ok? <==> started
      ensures table == if started then old(table)[sid := session] else old(table)
    {
      if !started {
        return Err(NotInitialized);
      }
      table := table[sid := session];
      return Ok(());
    }

    method GetSession(sid: string) returns (r: Result<Option<Session>, StoreError>)
      ensures r.Ok? <==> started
      ensures r.Ok? ==> (r.value.Some? <==> sid in table) && (sid in table ==> r.value == Some(table[sid]))
    {
      if !started {
        return Err(NotInitialized);
      }
      return Ok(if sid in table then Some(table[sid]) else None);
    }

    /** An update of no row is not an error. */
    method UpdateRefreshToken(sid: string, token: string) returns (r: Result<(), StoreError>)
      modifies this`table
      ensures r.Ok? <==> started
      ensures table == if started then TokenUpdated(old(table), sid, token) else old(table)
      ensures table.Keys == old(table).Keys
    {
      if !started {
        return Err(NotInitialized);
      }
      if sid in table {
        table := table[sid := table[sid].(refreshToken := token)];
      }
      return Ok(());
    }

    method DeleteSession(sid: string) returns (r: Result<(), StoreError>)
      modifies this`table
      ensures r.Ok? <==> started
      ensures table == if started then old(table) - {sid} else old(table)
    {
      if !started {
        return Err(NotInitialized);
      }
      table := table - {sid};
      return Ok(());
    }
  }

  // ----- Lifetimes -----

  /** A session lives for the configured time, but at least five minutes. */
  function Lifetime(configured: int): int {
    if configured > 300 then configured else 300
  }

  /** `clamp_requested_ttl`: an absent or zero request asks for the maximum. */
  function ClampRequestedTtl(minimum: int, maximum: int, requested: Option<int>): int {
    var wanted := if requested.None? || requested.value == 0 then maximum else requested.value;
    var capped := if wanted < maximum then wanted else maximum;
    if minimum > capped then minimum else capped
  }

  /** A session lives as long as configured, but at least five minutes. */
  lemma LifetimeIsLongEnough(configured: int)
    ensures Lifetime(configured) >= configured && Lifetime(configured) >= 5 * 60
    ensures Lifetime(configured) == configured || (Lifetime(configured) == 5 * 60 && configured < 5 * 60)
  {
  }

  /** A request inside the bounds is granted as it is, and one outside gets the nearest bound. */
  lemma ClampIsNearest(minimum: int, maximum: int, requested: Option<int>, other: int)
    requires 0 < minimum <= maximum && minimum <= other <= maximum
    ensures var granted := ClampRequestedTtl(minimum, maximum, requested);
            && minimum <= granted <= maximum
            && (requested.None? || requested.value == 0 ==> granted == maximum)
            && (requested.Some? && requested.value != 0 ==>
                  if granted <= requested.value then requested.value - granted <= if other <= requested.value
                    then requested.value - other else other - requested.value
                  else granted - requested.value <= other - requested.value)
  {
  }

  // ----- Exchanges -----

  /** The claims of a broker session token that the exchange uses. */
  datatype Claims = Claims(sid: string, exp: Time)

  datatype Request = Request(sid: string, userId: string, sessionId: string, realm: string)

  datatype Failure = InvalidToken | NotFound | Expired | IdentityMismatch | RefreshFailed

  /** Where an exchange stands; `record` is the session as it was read, `checkedAt` the time of the expiry check. */
  datatype Pc =
    | Reading
    | Checking(record: Session)
    | Deleting(record: Session)
    | Refreshing(record: Session, checkedAt: Time)
    | Updating(record: Session, checkedAt: Time, access: string, next: string)
    | Succeeded(record: Session, checkedAt: Time, access: string)
    | Failed(failure: Failure)

  datatype Exchange = Exchange(request: Request, pc: Pc)

  /** What was put into the table for a new session, and when its lifetime began. */
  datatype Creation = Creation(sid: string, session: Session, at: Time)

  /**
   * The table, the clock, the exchanges begun so far, and a history: all creations, all tokens signed,
   * and the latest refresh token that the identity provider has issued for each session.
   */
  datatype State = State(table: Table, clock: Time, exchanges: seq<Exchange>, creations: set<Creation>,
                         signed: set<Claims>, latest: map<string, string>)

  /** What the identity provider answers to a refresh: an error, or an access token with perhaps a new refresh token. */
  datatype Answer = Refused | Granted(access: string, next: Option<string>)

  datatype Event =
    | Tick(time: Time)
    | Create(sid: string, session: Session, at: Time)
    | Begin(token: Claims, userId: string, sessionId: string, realm: string)
    | Read(i: nat)
    | Check(i: nat)
    | Delete(i: nat)
    | Refresh(i: nat, answer: Answer)
    | Update(i: nat)

  /** Ids of new sessions are fresh, their expiry is their creation time plus the lifetime, and time moves on. */
  ghost predicate Possible(s: State, e: Event, configured: int) {
    match e
    case Tick(time) => time >= s.clock
    case Create(sid, session, at) =>
      && (forall c :: c in s.creations ==> c.sid != sid)
      && at <= s.clock && session.refreshToken != "" && session.expiresAt == at + Lifetime(configured)
    case Begin(_, _, _, _) => true
    case Read(i) => i < |s.exchanges| && s.exchanges[i].pc.Reading?
    case Check(i) => i < |s.exchanges| && s.exchanges[i].pc.Checking?
    case Delete(i) => i < |s.exchanges| && s.exchanges[i].pc.Deleting?
    case Refresh(i, _) => i < |s.exchanges| && s.exchanges[i].pc.Refreshing?
    case Update(i) => i < |s.exchanges| && s.exchanges[i].pc.Updating?
  }

  predicate Matches(record: Session, request: Request) {
    record.userId == request.userId && record.sessionId == request.sessionId && record.realm == request.realm
  }

  function AfterCheck(record: Session, request: Request, clock: Time): Pc {
    if record.expiresAt <= clock then Deleting(record)
    else if !Matches(record, request) then Failed(IdentityMismatch)
    else Refreshing(record, clock)
  }

  function AfterRefresh(pc: Pc, answer: Answer): Pc
    requires pc.Refreshing?
  {
    match answer
    case Refused => Failed(RefreshFailed)
    case Granted(access, next) =>
      if access == "" then Failed(RefreshFailed)
      else if next.Some? && next.value != "" then Updating(pc.record, pc.checkedAt, access, next.value)
      else Succeeded(pc.record, pc.checkedAt, access)
  }

  /** Where an exchange stands after its own step. */
  ghost function NextPc(s: State, e: Event, configured: int): Pc
    requires Possible(s, e, configured) && !e.Tick? && !e.Create? && !e.Begin?
  {
    var x := s.exchanges[e.i];
    match e
    case Read(_) => if x.request.sid in s.table then Checking(s.table[x.request.sid]) else Failed(NotFound)
    case Check(_) => AfterCheck(x.pc.record, x.request, s.clock)
    case Delete(_) => Failed(Expired)
    case Refresh(_, answer) => AfterRefresh(x.pc, answer)
    case Update(_) => Succeeded(x.pc.record, x.pc.checkedAt, x.pc.access)
  }

  ghost function NextTable(s: State, e: Event, configured: int): Table
    requires Possible(s, e, configured)
  {
    match e
    case Create(sid, session, _) => s.table[sid := session]
    case Delete(i) => s.table - {s.exchanges[i].request.sid}
    case Update(i) => TokenUpdated(s.table, s.exchanges[i].request.sid, s.exchanges[i].pc.next)
    case _ => s.table
  }

  ghost function NextLatest(s: State, e: Event, configured: int): map<string, string>
    requires Possible(s, e, configured)
  {
    match e
    case Create(sid, session, _) => s.latest[sid := session.refreshToken]
    case Refresh(i, _) =>
      var pc := NextPc(s, e, configured);
      if pc.Updating? then s.latest[s.exchanges[i].request.sid := pc.next] else s.latest
    case _ => s.latest
  }

  ghost function NextExchanges(s: State, e: Event, configured: int): seq<Exchange>
    requires Possible(s, e, configured)
  {
    match e
    case Tick(_) => s.exchanges
    case Create(_, _, _) => s.exchanges
    case Begin(token, userId, sessionId, realm) =>
      var valid := token in s.signed && token.exp > s.clock && token.sid != "";
      s.exchanges + [Exchange(Request(token.sid, userId, sessionId, realm), if valid then Reading else Failed(InvalidToken))]
    case _ => s.exchanges[e.i := s.exchanges[e.i].(pc := NextPc(s, e, configured))]
  }

  ghost function After(s: State, e: Event, configured: int): State
    requires Possible(s, e, configured)
  {
    State(NextTable(s, e, configured),
          if e.Tick? then e.time else s.clock,
          NextExchanges(s, e, configured),
          if e.Create? then s.creations + {Creation(e.sid, e.session, e.at)} else s.creations,
          if e.Create? then s.signed + {Claims(e.sid, e.session.expiresAt)} else s.signed,
          NextLatest(s, e, configured))
  }

  // ----- Invariants -----

  /** The record is the created session, but for its refresh token. */
  predicate SameBinding(record: Session, session: Session) {
    record == session.(refreshToken := record.refreshToken)
  }

  ghost predicate CreatedAs(s: State, sid: string, record: Session) {
    exists c :: c in s.creations && c.sid == sid && SameBinding(record, c.session)
  }

  ghost predicate CreationsOk(s: State, configured: int) {
    && (forall c :: c in s.creations ==> c.at <= s.clock && c.session.expiresAt == c.at + Lifetime(configured))
    && (forall c, d :: c in s.creations && d in s.creations && c.sid == d.sid ==> c == d)
  }

  ghost predicate TableOk(s: State) {
    forall sid :: sid in s.table ==> CreatedAs(s, sid, s.table[sid])
  }

  ghost predicate ExchangeOk(s: State, x: Exchange) {
    match x.pc
    case Reading => true
    case Failed(_) => true
    case Checking(record) => CreatedAs(s, x.request.sid, record)
    case Deleting(record) => CreatedAs(s, x.request.sid, record) && record.expiresAt <= s.clock
    case _ =>
      && CreatedAs(s, x.request.sid, x.pc.record) && Matches(x.pc.record, x.request)
      && x.pc.checkedAt < x.pc.record.expiresAt && x.pc.checkedAt <= s.clock
      && forall c :: c in s.creations && c.sid == x.request.sid ==> c.at <= x.pc.checkedAt
  }

  ghost predicate ExchangesOk(s: State) {
    forall i :: 0 <= i < |s.exchanges| ==> ExchangeOk(s, s.exchanges[i])
  }

  /** A session that was created is in the table until it expires. */
  ghost predicate LiveSessionsKept(s: State) {
    forall c :: c in s.creations && s.clock < c.session.expiresAt ==> c.sid in s.table
  }

  ghost predicate Inv(s: State, configured: int) {
    CreationsOk(s, configured) && TableOk(s) && ExchangesOk(s) && LiveSessionsKept(s)
  }

  lemma CreatedAsStays(s: State, e: Event, configured: int, sid: string, record: Session)
    requires Possible(s, e, configured) && CreatedAs(s, sid, record)
    ensures CreatedAs(After(s, e, configured), sid, record)
  {
  }

  lemma TableOkStep(s: State, e: Event, configured: int)
    requires Possible(s, e, configured) && Inv(s, configured)
    ensures TableOk(After(s, e, configured))
  {
  }

  lemma ExchangeOkStays(s: State, e: Event, configured: int, x: Exchange)
    requires Possible(s, e, configured) && ExchangeOk(s, x)
    ensures ExchangeOk(After(s, e, configured), x)
  {
  }

  lemma ExchangesOkStep(s: State, e: Event, configured: int)
    requires Possible(s, e, configured) && Inv(s, configured)
    ensures ExchangesOk(After(s, e, configured))
  {
    var t := After(s, e, configured);
    forall i | 0 <= i < |t.exchanges| ensures ExchangeOk(t, t.exchanges[i]) {
      if i == |s.exchanges| {
        assert e.Begin?;
      } else {
        ExchangeOkStays(s, e, configured, s.exchanges[i]);
        if !e.Tick? && !e.Create? && !e.Begin? && i == e.i && t.exchanges[i].pc.Checking? {
          CreatedAsStays(s, e, configured, s.exchanges[i].request.sid, s.table[s.exchanges[i].request.sid]);
        }
      }
    }
  }

  lemma LiveSessionsStep(s: State, e: Event, configured: int)
    requires Possible(s, e, configured) && Inv(s, configured)
    ensures LiveSessionsKept(After(s, e, configured))
  {
  }

  lemma InvStep(s: State, e: Event, configured: int)
    requires Possible(s, e, configured) && Inv(s, configured)
    ensures Inv(After(s, e, configured), configured)
  {
    TableOkStep(s, e, configured);
    ExchangesOkStep(s, e, configured);
    LiveSessionsStep(s, e, configured);
  }

  // ----- Runs -----

  const EMPTY := State(map[], 0, [], {}, {}, map[])

  ghost predicate Run(states: seq<State>, events: seq<Event>, configured: int) {
    && |states| == |events| + 1
    && states[0] == EMPTY.(clock := states[0].clock)
    && forall i :: 0 <= i < |events| ==>
         Possible(states[i], events[i], configured) && states[i + 1] == After(states[i], events[i], configured)
  }

  lemma {:induction false} RunInv(states: seq<State>, events: seq<Event>, configured: int, n: nat)
    requires Run(states, events, configured) && n < |states|
    ensures Inv(states[n], configured)
  {
    if n > 0 {
      RunInv(states, events, configured, n - 1);
      InvStep(states[n - 1], events[n - 1], configured);
    }
  }

  /**
   * However exchanges, creations and deletions interleave, an exchange that succeeds was asked for by the user,
   * session and realm of one creation with its id, and found it unexpired less than a lifetime after that creation.
   * No chain of refreshes extends a session or binds it to someone else.
   */
  lemma SuccessTracesToCreation(states: seq<State>, events: seq<Event>, configured: int, n: nat, i: nat)
    requires Run(states, events, configured) && n < |states|
    requires i < |states[n].exchanges| && states[n].exchanges[i].pc.Succeeded?
    ensures var x := states[n].exchanges[i];
            exists c :: c in states[n].creations && c.sid == x.request.sid
              && c.session.userId == x.request.userId && c.session.sessionId == x.request.sessionId
              && c.session.realm == x.request.realm
              && c.at <= x.pc.checkedAt < c.at + Lifetime(configured)
              && (forall d :: d in states[n].creations && d.sid == x.request.sid ==> d == c)
  {
    RunInv(states, events, configured, n);
    var x := states[n].exchanges[i];
    assert ExchangeOk(states[n], x);
    var c :| c in states[n].creations && c.sid == x.request.sid && SameBinding(x.pc.record, c.session);
  }

  /**
   * Until a session expires, an exchange that its owner has begun finds it and passes the checks,
   * so that only the identity provider can still refuse.
   */
  lemma LiveSessionIsServed(states: seq<State>, events: seq<Event>, configured: int, n: nat, c: Creation, request: Request)
    requires Run(states, events, configured) && n < |states|
    requires c in states[n].creations && c.sid == request.sid && Matches(c.session, request)
    requires states[n].clock < c.at + Lifetime(configured)
    ensures c.sid in states[n].table
    ensures AfterCheck(states[n].table[c.sid], request, states[n].clock).Refreshing?
  {
    RunInv(states, events, configured, n);
    var d :| d in states[n].creations && d.sid == c.sid && SameBinding(states[n].table[c.sid], d.session);
    assert c == d;
  }

  // ----- Rotation of refresh tokens -----

  predicate Finished(x: Exchange) {
    x.pc.Succeeded? || x.pc.Failed?
  }

  /** A session's exchanges are begun one after the other. */
  ghost predicate Sequential(s: State, e: Event) {
    e.Begin? ==> forall i :: 0 <= i < |s.exchanges| && s.exchanges[i].request.sid == e.token.sid ==> Finished(s.exchanges[i])
  }

  ghost predicate OneActive(s: State) {
    forall i, j :: 0 <= i < j < |s.exchanges| && s.exchanges[i].request.sid == s.exchanges[j].request.sid ==>
      Finished(s.exchanges[i]) || Finished(s.exchanges[j])
  }

  predicate IsLatest(s: State, sid: string, token: string) {
    sid in s.latest && s.latest[sid] == token
  }

  predicate PendingUpdate(s: State, x: Exchange, sid: string) {
    x.request.sid == sid && x.pc.Updating?
  }

  /** The table has the latest refresh token of a session, unless an exchange is about to store it. */
  ghost predicate TableRotated(s: State) {
    forall sid :: sid in s.table && (forall i :: 0 <= i < |s.exchanges| ==> !PendingUpdate(s, s.exchanges[i], sid)) ==>
      IsLatest(s, sid, s.table[sid].refreshToken)
  }

  ghost predicate Rotated(s: State, x: Exchange) {
    && (x.pc.Checking? || x.pc.Refreshing? ==> IsLatest(s, x.request.sid, x.pc.record.refreshToken))
    && (x.pc.Updating? ==> IsLatest(s, x.request.sid, x.pc.next))
  }

  ghost predicate ExchangesRotated(s: State) {
    forall i :: 0 <= i < |s.exchanges| ==> Rotated(s, s.exchanges[i])
  }

  lemma OneActiveStep(s: State, e: Event, configured: int)
    requires Possible(s, e, configured) && Sequential(s, e) && OneActive(s)
    ensures OneActive(After(s, e, configured))
  {
  }

  lemma ExchangesRotatedStep(s: State, e: Event, configured: int)
    requires Possible(s, e, configured) && Inv(s, configured) && OneActive(s)
    requires TableRotated(s) && ExchangesRotated(s)
    ensures ExchangesRotated(After(s, e, configured))
  {
    var t := After(s, e, configured);
    forall i | 0 <= i < |t.exchanges| ensures Rotated(t, t.exchanges[i]) {
      if i < |s.exchanges| {
        var x := s.exchanges[i];
        assert Rotated(s, x) && ExchangeOk(s, x);
        if e.Create? && !x.pc.Reading? && !x.pc.Failed? {
          assert CreatedAs(s, x.request.sid, x.pc.record);
          assert x.request.sid != e.sid;
        } else if e.Read? && i == e.i {
          forall j | 0 <= j < |s.exchanges| ensures !PendingUpdate(s, s.exchanges[j], x.request.sid) {
            assert j != i && s.exchanges[j].request.sid == x.request.sid ==> Finished(s.exchanges[j]);
          }
        } else if e.Refresh? && i != e.i && x.request.sid == s.exchanges[e.i].request.sid {
          assert Finished(x);
        }
      }
    }
  }

  lemma TableRotatedStep(s: State, e: Event, configured: int)
    requires Possible(s, e, configured) && OneActive(s) && TableRotated(s) && ExchangesRotated(s)
    ensures TableRotated(After(s, e, configured))
  {
    var t := After(s, e, configured);
    forall sid | sid in t.table && forall i :: 0 <= i < |t.exchanges| ==> !PendingUpdate(t, t.exchanges[i], sid)
      ensures IsLatest(t, sid, t.table[sid].refreshToken)
    {
      if e.Update? && s.exchanges[e.i].request.sid == sid {
        assert Rotated(s, s.exchanges[e.i]);
      } else if !(e.Create? && e.sid == sid) {
        forall i | 0 <= i < |s.exchanges| ensures !PendingUpdate(s, s.exchanges[i], sid) {
          assert !PendingUpdate(t, t.exchanges[i], sid);
        }
        if e.Refresh? && s.exchanges[e.i].request.sid == sid {
          assert !PendingUpdate(t, t.exchanges[e.i], sid);
        }
      }
    }
  }

  ghost predicate SequentialRun(states: seq<State>, events: seq<Event>, configured: int) {
    Run(states, events, configured) && forall i :: 0 <= i < |events| ==> Sequential(states[i], events[i])
  }

  lemma {:induction false} RunRotated(states: seq<State>, events: seq<Event>, configured: int, n: nat)
    requires SequentialRun(states, events, configured) && n < |states|
    ensures OneActive(states[n]) && TableRotated(states[n]) && ExchangesRotated(states[n])
  {
    if n > 0 {
      var s, e := states[n - 1], events[n - 1];
      RunRotated(states, events, configured, n - 1);
      RunInv(states, events, configured, n - 1);
      OneActiveStep(s, e, configured);
      ExchangesRotatedStep(s, e, configured);
      TableRotatedStep(s, e, configured);
    }
  }

  /** When each session's exchanges are sequential, every refresh sends the latest refresh token issued for it. */
  lemma SequentialSendsLatest(states: seq<State>, events: seq<Event>, configured: int, n: nat)
    requires SequentialRun(states, events, configured) && n < |events| && events[n].Refresh?
    ensures var x := states[n].exchanges[events[n].i];
            IsLatest(states[n], x.request.sid, x.pc.record.refreshToken)
  {
    RunRotated(states, events, configured, n);
    assert Possible(states[n], events[n], configured);
    assert Rotated(states[n], states[n].exchanges[events[n].i]);
  }
}
