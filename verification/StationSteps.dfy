/** What one input makes the station post, remember and show, in terms of what it observes. */
module StationSteps {
  import opened Station
  import opened StationProofs
  import opened StationAlternation

  // The actions that an input adds to the history.
  function Added(before: Manager, after: Manager): (added: seq<Action>)
    requires before.actions <= after.actions
    ensures after.actions == before.actions + added
  {
    after.actions[|before.actions|..]
  }

  // The interface is up with its link and a DNS server, and has an IPv4 address and a gateway.
  predicate ShowsIPv4(n: Net) {
    n.up && n.link && n.dns > 0 && n.ipv4 > 0 && n.gateway > 0
  }

  // The same with a valid address of 2000::/3, and the default route goes through it.
  predicate ShowsIPv6(n: Net) {
    && n.up && n.link && n.dns > 0 && n.route
    && exists i :: 0 <= i < |n.ipv6| && n.ipv6[i].valid && n.ipv6[i].leading / 0x2000 == 1
  }

  lemma ShowsIPv6Is(m: Manager, n: Net)
    requires m.state == Connected
    ensures HaveIPv6(m, n) == ShowsIPv6(n)
  {
    assert forall i :: 0 <= i < |n.ipv6| ==> n.ipv6[i] in n.ipv6;
  }

  // What a change of one flag is reported as.
  predicate Reports(change: Change, had: bool, have: bool) {
    (change == Established <==> !had && have) && (change == Lost <==> had && !have)
  }

  // The flags go from one look to the next, and a change of either is posted once, with both.
  predicate Posted(before: Manager, added: seq<Action>, v4: bool, v6: bool) {
    if v4 == before.haveIPv4 && v6 == before.haveIPv6 then added == []
    else |added| == 1 && added[0].InternetChanged?
         && Reports(added[0].v4, before.haveIPv4, v4) && Reports(added[0].v6, before.haveIPv6, v6)
  }

  lemma UpdateShows(m: Manager, n: Net)
    ensures var m1 := UpdateInternet(m, n);
            && (m1.haveIPv4 <==> m.state == Connected && ShowsIPv4(n))
            && (m1.haveIPv6 <==> m.state == Connected && ShowsIPv6(n))
            && m.actions <= m1.actions && Posted(m, Added(m, m1), m1.haveIPv4, m1.haveIPv6)
            && m1 == m.(haveIPv4 := m1.haveIPv4, haveIPv6 := m1.haveIPv6, actions := m1.actions)
  {
    if m.state == Connected {
      ShowsIPv6Is(m, n);
    }
  }

  // An address event: the flags are what the interface shows, if the station is connected, and the event
  // that goes out last says which address it was.
  lemma AddressShows(m: Manager, kind: AddressKind, n: Net)
    ensures var m1 := Handle(m, AddressEvent(kind, n));
            && (m1.haveIPv4 <==> m.state == Connected && ShowsIPv4(n))
            && (m1.haveIPv6 <==> m.state == Connected && ShowsIPv6(n))
            && m.actions <= m1.actions
            && m1 == m.(haveIPv4 := m1.haveIPv4, haveIPv6 := m1.haveIPv6, actions := m1.actions)
            && exists posted :: Added(m, m1) == posted + [AddressChanged(kind)]
                                && Posted(m, posted, m1.haveIPv4, m1.haveIPv6)
  {
    UpdateShows(m, n);
    var m1 := Handle(m, AddressEvent(kind, n));
    var posted := Added(m, UpdateInternet(m, n));
    assert Added(m, m1) == posted + [AddressChanged(kind)];
  }

  // -------------------------------------------------------------------------
  // A drive
  // -------------------------------------------------------------------------

  // The station is to be connected: it is not under application control, its mode is on and it is provisioned.
  predicate ToConnect(m: Manager, o: Observed) {
    m.mode != ApplicationControlled && o.stationMode && o.provisioned
  }

  // A connection just lost is tried again at once, one whose attempt just failed is only tried again after the
  // interval, and so is one that failed before.
  predicate Due(m: Manager, o: Observed) {
    match m.state
    case Connected | Disconnecting => true
    case ConnectingFailed => o.now == 0 || m.interval == 0
    case _ => m.lastFail == 0 || o.now - m.lastFail >= m.interval
  }

  lemma NoteUpPosts(m: Manager, o: Observed)
    ensures var m1, news := NoteUp(m, o), m.state in {NotConnected, ConnectingSucceeded};
            && m1.mode == m.mode && m1.interval == m.interval
            && (m1.haveIPv4 <==> if news then ShowsIPv4(o.net) else m.haveIPv4)
            && (m1.haveIPv6 <==> if news then ShowsIPv6(o.net) else m.haveIPv6)
            && m1.state == (if news then Connected else m.state)
            && m1.lastFail == (if news then 0 else m.lastFail)
            && m.actions <= m1.actions
            && exists posted :: Posted(m, posted, m1.haveIPv4, m1.haveIPv6)
                                && Added(m, m1) == (if news then [WiFiEstablished] else []) + posted
  {
    if m.state in {NotConnected, ConnectingSucceeded} {
      var up := Do(m.(state := Connected, lastFail := 0), WiFiEstablished);
      UpdateShows(up, o.net);
      var posted := Added(up, UpdateInternet(up, o.net));
      assert NoteUp(m, o).actions == m.actions + ([WiFiEstablished] + posted);
      assert Posted(m, posted, NoteUp(m, o).haveIPv4, NoteUp(m, o).haveIPv6);
    } else {
      assert Posted(m, [], m.haveIPv4, m.haveIPv6);
    }
  }

  lemma NoteDownPosts(m: Manager, o: Observed)
    ensures var m1, news := NoteDown(m, o), m.state in {Connected, Disconnecting};
            && m1.mode == m.mode && m1.interval == m.interval
            && (m1.haveIPv4 <==> !news && m.haveIPv4) && (m1.haveIPv6 <==> !news && m.haveIPv6)
            && m1.state == (if m.state in {Connecting, ConnectingSucceeded} then m.state else NotConnected)
            && m1.lastFail == (match m.state
                               case Connected | Disconnecting => 0
                               case ConnectingFailed => o.now
                               case _ => m.lastFail)
            && m.actions <= m1.actions
            && exists posted :: Posted(m, posted, m1.haveIPv4, m1.haveIPv6)
                                && Added(m, m1) == (if news then [WiFiLost] else []) + posted
  {
    if m.state in {Connected, Disconnecting} {
      var down := Do(m.(state := NotConnected, lastFail := 0), WiFiLost);
      UpdateShows(down, o.net);
      var posted := Added(down, UpdateInternet(down, o.net));
      assert NoteDown(m, o).actions == m.actions + ([WiFiLost] + posted);
      assert Posted(m, posted, NoteDown(m, o).haveIPv4, NoteDown(m, o).haveIPv6);
    } else {
      assert Posted(m, [], m.haveIPv4, m.haveIPv6);
    }
  }

  // What a drive adds when it finds the link up: Established with the internet flags iff the connection was not
  // known of, and then a disconnect iff the station is neither wanted nor under application control. The time of
  // failure is forgotten with the former, and the state is Disconnecting after the latter.
  lemma DriveUpDoes(m: Manager, o: Observed)
    requires Looks(m, o) && o.linkUp
    ensures var m1, news := DriveStation(m, o), m.state in {NotConnected, ConnectingSucceeded};
            var unwanted := m.mode != ApplicationControlled && !ToConnect(m, o);
            && (m1.haveIPv4 <==> if news then ShowsIPv4(o.net) else m.haveIPv4)
            && (m1.haveIPv6 <==> if news then ShowsIPv6(o.net) else m.haveIPv6)
            && m1.state == (if unwanted && o.disconnectOk then Disconnecting else if news then Connected else m.state)
            && m1.lastFail == (if news then 0 else m.lastFail)
            && m.actions <= m1.actions
            && exists posted :: Posted(m, posted, m1.haveIPv4, m1.haveIPv6)
                 && Added(m, m1) == (if news then [WiFiEstablished] else []) + posted +
                                    (if unwanted then [DisconnectIssued] else [])
  {
    var m1 := m.(mode := RefreshedMode(m, o));
    var noted := NoteUp(m1, o);
    NoteUpPosts(m1, o);
    var first := if m.state in {NotConnected, ConnectingSucceeded} then [WiFiEstablished] else [];
    var posted :| Posted(m1, posted, noted.haveIPv4, noted.haveIPv6) && Added(m1, noted) == first + posted;
    assert Posted(m, posted, noted.haveIPv4, noted.haveIPv6);
    var last := if m.mode != ApplicationControlled && !ToConnect(m, o) then [DisconnectIssued] else [];
    assert DropUnwanted(noted, o).actions == m.actions + (Added(m1, noted) + last);
  }

  lemma DueIs(m: Manager, o: Observed)
    ensures MayConnect(NoteDown(m, o), o) == Due(m, o)
  {
  }

  // A connection that is wanted is started if it is due, and otherwise the timer.
  predicate Tried(m: Manager, o: Observed, last: seq<Action>) {
    if !ToConnect(m, o) then last == []
    else if Due(m, o) then last == [ConnectIssued(o.now)]
    else |last| == 1 && last[0].TimerArmed?
  }

  lemma TriesAgain(m: Manager, o: Observed)
    requires m.mode == ApplicationControlled || m.mode == if o.stationMode then Enabled else Disabled
    ensures var noted := NoteDown(m, o);
            noted.actions <= TryConnect(noted, o).actions && Tried(m, o, Added(noted, TryConnect(noted, o)))
  {
    NoteDownPosts(m, o);
    TryConnectDoes(NoteDown(m, o), o);
    DueIs(m, o);
  }

  // What it adds when it finds the link down: Lost with both internet flags off iff the station was connected or
  // being disconnected, and then a connection iff one is wanted and due, or the timer iff one is wanted and not
  // due.
  lemma DriveDownPosts(m: Manager, o: Observed)
    requires Looks(m, o) && !o.linkUp
    ensures var m1, news := DriveStation(m, o), m.state in {Connected, Disconnecting};
            && m.actions <= m1.actions
            && exists posted, last :: Posted(m, posted, m1.haveIPv4, m1.haveIPv6) && Tried(m, o, last)
                                      && Added(m, m1) == (if news then [WiFiLost] else []) + posted + last
  {
    var m1 := m.(mode := RefreshedMode(m, o));
    var noted, after := NoteDown(m1, o), DriveStation(m, o);
    NoteDownPosts(m1, o);
    TriesAgain(m1, o);
    TryConnectDoes(noted, o);
    var first := if m.state in {Connected, Disconnecting} then [WiFiLost] else [];
    var posted :| Posted(m1, posted, noted.haveIPv4, noted.haveIPv6) && Added(m1, noted) == first + posted;
    AddedJoins(m1, noted, after, first, posted);
    assert Posted(m, posted, after.haveIPv4, after.haveIPv6) && Tried(m, o, Added(noted, after));
  }

  lemma AddedJoins(a: Manager, b: Manager, c: Manager, first: seq<Action>, posted: seq<Action>)
    requires a.actions <= b.actions <= c.actions && Added(a, b) == first + posted
    ensures a.actions <= c.actions && Added(a, c) == first + posted + Added(b, c)
  {
  }

  // The time of failure is none after a loss, and the present after an attempt that failed; the flags go off with
  // a loss.
  lemma DriveDownMoves(m: Manager, o: Observed)
    requires Looks(m, o) && !o.linkUp
    ensures var m1, news := DriveStation(m, o), m.state in {Connected, Disconnecting};
            && (m1.haveIPv4 <==> !news && m.haveIPv4) && (m1.haveIPv6 <==> !news && m.haveIPv6)
            && m1.state == (if ToConnect(m, o) && Due(m, o) && o.connectOk then Connecting
                            else if m.state in {Connecting, ConnectingSucceeded} then m.state
                            else NotConnected)
            && m1.lastFail == (match m.state
                               case Connected | Disconnecting => 0
                               case ConnectingFailed => o.now
                               case _ => m.lastFail)
  {
    var m1 := m.(mode := RefreshedMode(m, o));
    NoteDownPosts(m1, o);
    TryConnectDoes(NoteDown(m1, o), o);
    DueIs(m1, o);
  }

  lemma TryConnectDoes(m: Manager, o: Observed)
    ensures var m1 := TryConnect(m, o);
            && m.actions <= m1.actions
            && Added(m, m1) == (if !Wanted(m, o) then []
                                else if MayConnect(m, o) then [ConnectIssued(o.now)]
                                else [TimerArmed(o.now, m.lastFail + m.interval - o.now)])
            && m1 == m.(actions := m1.actions,
                        state := if Wanted(m, o) && MayConnect(m, o) && o.connectOk then Connecting else m.state)
  {
  }

  // Whatever it finds, a drive takes the mode from the Wi-Fi layer unless the application has the station, and
  // nothing else happens when it does not get to look at the link.
  lemma DriveMode(m: Manager, o: Observed)
    ensures var m1 := DriveStation(m, o);
            && m1.interval == m.interval
            && m1.mode == (if m.mode == ApplicationControlled then ApplicationControlled
                           else if o.stationMode then Enabled else Disabled)
            && (!Looks(m, o) ==> m1 == m.(mode := m1.mode))
  {
    var m1 := m.(mode := RefreshedMode(m, o));
    NoteUpPosts(m1, o);
    NoteDownPosts(m1, o);
    TryConnectDoes(NoteDown(m1, o), o);
  }

  // An attempt ends with the event that tells of it: a connected station is announced, a disconnected one waits.
  lemma EventEndsAttempt(m: Manager, o: Observed)
    requires m.state == Connecting && Looks(m, o)
    ensures o.linkUp && (m.mode == ApplicationControlled || ToConnect(m, o)) ==>
              var m1 := Handle(m, StaConnected(o));
              && m1.state == Connected && m1.lastFail == 0
              && m.actions <= m1.actions && [WiFiEstablished] <= Added(m, m1)
    ensures !o.linkUp && o.now > 0 && m.interval > 0 ==>
              var m1 := Handle(m, StaDisconnected(o));
              && m1.state == NotConnected && m1.lastFail == o.now
              && m.actions <= m1.actions
              && forall a :: a in Added(m, m1) ==> a.TimerArmed?
  {
    if o.linkUp {
      DriveUpDoes(m.(state := ConnectingSucceeded), o);
    } else {
      DriveDownPosts(m.(state := ConnectingFailed), o);
      DriveDownMoves(m.(state := ConnectingFailed), o);
    }
  }

  // The mode that is asked for is taken exactly when it is supported and, unless it hands the station to the
  // application, both calls succeed; a disconnect takes a connected station under application control.
  lemma ModeMoves(m: Manager, mode: Mode, enableOk: bool, scheduleOk: bool)
    ensures var m1 := Handle(m, SetMode(mode, enableOk, scheduleOk));
            && m1 == m.(mode := m1.mode)
            && (mode in {Disabled, Enabled} ==> m1.mode == if enableOk && scheduleOk then mode else m.mode)
            && (mode == ApplicationControlled ==> m1.mode == ApplicationControlled)
            && (mode == NotSupported ==> m1.mode == m.mode)
    ensures var m1 := Handle(m, Input.DisconnectNetwork);
            if m.state == Connected
            then m1 == m.(mode := ApplicationControlled, actions := m.actions + [DisconnectIssued])
            else m1 == m
  {
  }
}
