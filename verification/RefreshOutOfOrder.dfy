/** A run in which overlapping exchanges of a delegated session store their refresh tokens out of order. */
module RefreshOutOfOrder {
  import opened Common
  import opened Broker
  import opened RefreshRotation

  /** A session, the time of everything that happens to it, and three different refresh tokens, the first its own. */
  datatype Story = Story(sid: string, session: Session, at: Time, access: string, second: string, third: string) {
    predicate Tellable(configured: int) {
      && sid != "" && access != "" && session.refreshToken != "" && second != "" && third != ""
      && session.refreshToken != second && session.refreshToken != third && second != third
      && session.expiresAt == at + Lifetime(configured)
    }

    function Asked(): Request {
      Request(sid, session.userId, session.sessionId, session.realm)
    }

    function Record(token: string): Session {
      session.(refreshToken := token)
    }

    /** The session stored with a token while another may be the latest, and the exchanges so far. */
    function At(stored: string, latest: string, pcs: seq<Pc>): State {
      State(map[sid := Record(stored)], at, seq(|pcs|, i requires 0 <= i < |pcs| => Exchange(Asked(), pcs[i])),
            {Creation(sid, session, at)}, {Claims(sid, session.expiresAt)}, map[sid := latest])
    }

    function Begins(): Event {
      Begin(Claims(sid, session.expiresAt), session.userId, session.sessionId, session.realm)
    }

    function Grant(i: nat, next: string): Event {
      Refresh(i, Granted(access, Some(next)))
    }
  }

  /** One event leads from a state to another. */
  ghost predicate Leads(s: State, e: Event, t: State, configured: int) {
    Possible(s, e, configured) && t == After(s, e, configured)
  }

  lemma MovesOne(y: Story, stored: string, latest: string, pcs: seq<Pc>, i: nat, pc: Pc)
    requires i < |pcs|
    ensures var s := y.At(stored, latest, pcs);
            |s.exchanges| == |pcs| && s.exchanges[i] == Exchange(y.Asked(), pcs[i]) &&
            y.At(stored, latest, pcs[i := pc]) == s.(exchanges := s.exchanges[i := s.exchanges[i].(pc := pc)])
  {
    var s := y.At(stored, latest, pcs);
    assert y.At(stored, latest, pcs[i := pc]).exchanges == s.exchanges[i := s.exchanges[i].(pc := pc)];
  }

  lemma CreateLeads(y: Story, configured: int)
    requires y.Tellable(configured)
    ensures Leads(EMPTY.(clock := y.at), Create(y.sid, y.session, y.at),
                  y.At(y.session.refreshToken, y.session.refreshToken, []), configured)
  {
  }

  lemma BeginLeads(y: Story, configured: int, stored: string, latest: string, pcs: seq<Pc>)
    requires y.Tellable(configured)
    ensures Leads(y.At(stored, latest, pcs), y.Begins(), y.At(stored, latest, pcs + [Reading]), configured)
  {
    var s, t := y.At(stored, latest, pcs), y.At(stored, latest, pcs + [Reading]);
    assert t.exchanges == s.exchanges + [Exchange(y.Asked(), Reading)];
  }

  lemma ReadLeads(y: Story, configured: int, stored: string, latest: string, pcs: seq<Pc>, i: nat)
    requires y.Tellable(configured) && i < |pcs| && pcs[i] == Reading
    ensures Leads(y.At(stored, latest, pcs), Read(i), y.At(stored, latest, pcs[i := Checking(y.Record(stored))]), configured)
  {
    var s, pc := y.At(stored, latest, pcs), Checking(y.Record(stored));
    MovesOne(y, stored, latest, pcs, i, pc);
    assert NextPc(s, Read(i), configured) == pc;
  }

  lemma CheckLeads(y: Story, configured: int, stored: string, latest: string, pcs: seq<Pc>, i: nat, token: string)
    requires y.Tellable(configured) && i < |pcs| && pcs[i] == Checking(y.Record(token))
    ensures Leads(y.At(stored, latest, pcs), Check(i),
                  y.At(stored, latest, pcs[i := Refreshing(y.Record(token), y.at)]), configured)
  {
    var s, pc := y.At(stored, latest, pcs), Refreshing(y.Record(token), y.at);
    MovesOne(y, stored, latest, pcs, i, pc);
    assert NextPc(s, Check(i), configured) == pc;
  }

  lemma GrantLeads(y: Story, configured: int, stored: string, latest: string, pcs: seq<Pc>, i: nat, token: string, next: string)
    requires y.Tellable(configured) && i < |pcs| && pcs[i] == Refreshing(y.Record(token), y.at) && next != ""
    ensures Leads(y.At(stored, latest, pcs), y.Grant(i, next),
                  y.At(stored, next, pcs[i := Updating(y.Record(token), y.at, y.access, next)]), configured)
  {
    var s, pc := y.At(stored, latest, pcs), Updating(y.Record(token), y.at, y.access, next);
    MovesOne(y, stored, latest, pcs, i, pc);
    assert NextPc(s, y.Grant(i, next), configured) == pc;
    assert map[y.sid := latest][y.sid := next] == map[y.sid := next];
  }

  lemma UpdateLeads(y: Story, configured: int, stored: string, latest: string, pcs: seq<Pc>, i: nat, token: string, next: string)
    requires y.Tellable(configured) && i < |pcs| && pcs[i] == Updating(y.Record(token), y.at, y.access, next)
    ensures Leads(y.At(stored, latest, pcs), Update(i),
                  y.At(next, latest, pcs[i := Succeeded(y.Record(token), y.at, y.access)]), configured)
  {
    var s, pc := y.At(stored, latest, pcs), Succeeded(y.Record(token), y.at, y.access);
    MovesOne(y, stored, latest, pcs, i, pc);
    assert NextPc(s, Update(i), configured) == pc;
    assert map[y.sid := y.Record(stored)][y.sid := y.Record(next)] == map[y.sid := y.Record(next)];
  }

  // ----- The run -----

  /** Two exchanges read the session, both are granted a token, the later grant is stored first, and a third follows. */
  function EventAt(y: Story, n: nat): Event {
    match n
    case 0 => Create(y.sid, y.session, y.at)
    case 1 => y.Begins()
    case 2 => y.Begins()
    case 3 => Read(0)
    case 4 => Read(1)
    case 5 => Check(0)
    case 6 => Check(1)
    case 7 => y.Grant(0, y.second)
    case 8 => y.Grant(1, y.third)
    case 9 => Update(1)
    case 10 => Update(0)
    case 11 => y.Begins()
    case 12 => Read(2)
    case 13 => Check(2)
    case _ => Refresh(2, Refused)
  }

  /** Where the exchanges stand before event n. */
  function PcsAt(y: Story, n: nat): seq<Pc> {
    var first, checked := y.Record(y.session.refreshToken), Refreshing(y.Record(y.session.refreshToken), y.at);
    var done := Succeeded(first, y.at, y.access);
    match n
    case 0 => []
    case 1 => []
    case 2 => [Reading]
    case 3 => [Reading, Reading]
    case 4 => [Checking(first), Reading]
    case 5 => [Checking(first), Checking(first)]
    case 6 => [checked, Checking(first)]
    case 7 => [checked, checked]
    case 8 => [Updating(first, y.at, y.access, y.second), checked]
    case 9 => [Updating(first, y.at, y.access, y.second), Updating(first, y.at, y.access, y.third)]
    case 10 => [Updating(first, y.at, y.access, y.second), done]
    case 11 => [done, done]
    case 12 => [done, done, Reading]
    case 13 => [done, done, Checking(y.Record(y.second))]
    case 14 => [done, done, Refreshing(y.Record(y.second), y.at)]
    case _ => [done, done, Failed(RefreshFailed)]
  }

  function StoredAt(y: Story, n: nat): string {
    if n <= 9 then y.session.refreshToken else if n == 10 then y.third else y.second
  }

  function LatestAt(y: Story, n: nat): string {
    if n <= 7 then y.session.refreshToken else if n == 8 then y.second else y.third
  }

  function StateAt(y: Story, n: nat): State {
    if n == 0 then EMPTY.(clock := y.at) else y.At(StoredAt(y, n), LatestAt(y, n), PcsAt(y, n))
  }

  lemma FirstHalfLeads(y: Story, configured: int, n: nat)
    requires y.Tellable(configured) && n < 7
    ensures Leads(StateAt(y, n), EventAt(y, n), StateAt(y, n + 1), configured)
  {
    var token, pcs := y.session.refreshToken, PcsAt(y, n);
    match n
    case 0 => CreateLeads(y, configured);
    case 1 => BeginLeads(y, configured, token, token, pcs); assert pcs + [Reading] == PcsAt(y, 2);
    case 2 => BeginLeads(y, configured, token, token, pcs); assert pcs + [Reading] == PcsAt(y, 3);
    case 3 => ReadLeads(y, configured, token, token, pcs, 0); assert pcs[0 := Checking(y.Record(token))] == PcsAt(y, 4);
    case 4 => ReadLeads(y, configured, token, token, pcs, 1); assert pcs[1 := Checking(y.Record(token))] == PcsAt(y, 5);
    case 5 =>
      CheckLeads(y, configured, token, token, pcs, 0, token);
      assert pcs[0 := Refreshing(y.Record(token), y.at)] == PcsAt(y, 6);
    case 6 =>
      CheckLeads(y, configured, token, token, pcs, 1, token);
      assert pcs[1 := Refreshing(y.Record(token), y.at)] == PcsAt(y, 7);
  }

  lemma GrantsLead(y: Story, configured: int, n: nat)
    requires y.Tellable(configured) && 7 <= n < 11
    ensures Leads(StateAt(y, n), EventAt(y, n), StateAt(y, n + 1), configured)
  {
    var token, pcs := y.session.refreshToken, PcsAt(y, n);
    var done := Succeeded(y.Record(token), y.at, y.access);
    match n
    case 7 =>
      GrantLeads(y, configured, token, token, pcs, 0, token, y.second);
      assert pcs[0 := Updating(y.Record(token), y.at, y.access, y.second)] == PcsAt(y, 8);
    case 8 =>
      GrantLeads(y, configured, token, y.second, pcs, 1, token, y.third);
      assert pcs[1 := Updating(y.Record(token), y.at, y.access, y.third)] == PcsAt(y, 9);
    case 9 =>
      UpdateLeads(y, configured, token, y.third, pcs, 1, token, y.third);
      assert pcs[1 := done] == PcsAt(y, 10);
    case 10 =>
      UpdateLeads(y, configured, y.third, y.third, pcs, 0, token, y.second);
      assert pcs[0 := done] == PcsAt(y, 11);
  }

  lemma RefusalLeads(y: Story, configured: int)
    requires y.Tellable(configured)
    ensures Leads(StateAt(y, 14), EventAt(y, 14), StateAt(y, 15), configured)
  {
    var pcs := PcsAt(y, 14);
    MovesOne(y, y.second, y.third, pcs, 2, Failed(RefreshFailed));
    assert pcs[2 := Failed(RefreshFailed)] == PcsAt(y, 15);
    assert NextPc(StateAt(y, 14), EventAt(y, 14), configured) == Failed(RefreshFailed);
  }

  lemma LastExchangeLeads(y: Story, configured: int, n: nat)
    requires y.Tellable(configured) && 11 <= n < 15
    ensures Leads(StateAt(y, n), EventAt(y, n), StateAt(y, n + 1), configured)
  {
    var pcs := PcsAt(y, n);
    match n
    case 11 => BeginLeads(y, configured, y.second, y.third, pcs); assert pcs + [Reading] == PcsAt(y, 12);
    case 12 =>
      ReadLeads(y, configured, y.second, y.third, pcs, 2);
      assert pcs[2 := Checking(y.Record(y.second))] == PcsAt(y, 13);
    case 13 =>
      CheckLeads(y, configured, y.second, y.third, pcs, 2, y.second);
      assert pcs[2 := Refreshing(y.Record(y.second), y.at)] == PcsAt(y, 14);
    case 14 => RefusalLeads(y, configured);
  }

  function States(y: Story): seq<State> {
    seq(16, n requires 0 <= n < 16 => StateAt(y, n))
  }

  function Events(y: Story): seq<Event> {
    seq(15, n requires 0 <= n < 15 => EventAt(y, n))
  }

  lemma StoryRuns(y: Story, configured: int)
    requires y.Tellable(configured)
    ensures Run(States(y), Events(y), configured)
  {
    var states, events := States(y), Events(y);
    forall n | 0 <= n < |events|
      ensures Possible(states[n], events[n], configured) && states[n + 1] == After(states[n], events[n], configured)
    {
      assert Leads(StateAt(y, n), EventAt(y, n), StateAt(y, n + 1), configured) by {
        if n < 7 { FirstHalfLeads(y, configured, n); }
        else if n < 11 { GrantsLead(y, configured, n); }
        else { LastExchangeLeads(y, configured, n); }
      }
    }
  }

  lemma StoryNeverReissues(y: Story, configured: int)
    requires y.Tellable(configured) && Run(States(y), Events(y), configured)
    ensures NeverReissues(States(y), Events(y), configured)
  {
    var states, events := States(y), Events(y);
    forall k, sid | 0 <= k < |events| && Grants(states[k], events[k], configured, sid)
      ensures (k == 7 && events[k].answer.next == Some(y.second)) || (k == 8 && events[k].answer.next == Some(y.third))
    {
      assert EventAt(y, k).Refresh?;
    }
    forall j | 0 <= j < |events| && events[j].Create? ensures j == 0 && events[j].session.refreshToken == y.session.refreshToken {
      assert EventAt(y, j).Create?;
    }
  }

  /**
   * For every session and every three different tokens there is a run without reissues in which two exchanges overlap,
   * the second of them sends a token that is not the latest, and, since their tokens are then stored out of order,
   * so does an exchange that is begun after both have succeeded.
   */
  lemma StaleTokensAreSent(y: Story, configured: int)
    requires y.Tellable(configured)
    ensures Run(States(y), Events(y), configured) && NeverReissues(States(y), Events(y), configured)
    ensures States(y)[7].exchanges ==
            [Exchange(y.Asked(), Refreshing(y.session, y.at)), Exchange(y.Asked(), Refreshing(y.session, y.at))]
    ensures Events(y)[8] == y.Grant(1, y.third)
    ensures !IsLatest(States(y)[8], y.sid, States(y)[8].exchanges[1].pc.record.refreshToken)
    ensures Events(y)[11] == y.Begins() && forall x :: x in States(y)[11].exchanges ==> Finished(x)
    ensures Events(y)[14] == Refresh(2, Refused)
    ensures !IsLatest(States(y)[14], y.sid, States(y)[14].exchanges[2].pc.record.refreshToken)
  {
    StoryRuns(y, configured);
    StoryNeverReissues(y, configured);
    OverlapIsStale(y);
    LaterIsStale(y);
  }

  lemma OverlapIsStale(y: Story)
    requires y.session.refreshToken != y.second
    ensures StateAt(y, 7).exchanges ==
            [Exchange(y.Asked(), Refreshing(y.session, y.at)), Exchange(y.Asked(), Refreshing(y.session, y.at))]
    ensures !IsLatest(StateAt(y, 8), y.sid, StateAt(y, 8).exchanges[1].pc.record.refreshToken)
  {
    assert y.Record(y.session.refreshToken) == y.session;
  }

  lemma LaterIsStale(y: Story)
    requires y.second != y.third
    ensures forall x :: x in StateAt(y, 11).exchanges ==> Finished(x)
    ensures |StateAt(y, 14).exchanges| == 3 && StateAt(y, 14).exchanges[2].pc.Refreshing?
    ensures !IsLatest(StateAt(y, 14), y.sid, StateAt(y, 14).exchanges[2].pc.record.refreshToken)
  {
  }
}
