/** Safety of the Wi-Fi station state machine over whole runs. */
module StationProofs {
  import opened Station

  lemma AnnouncedSnoc(actions: seq<Action>, a: Action)
    ensures Announced(actions + [a]) == (a.WiFiEstablished? || (!a.WiFiLost? && Announced(actions)))
  {
    assert (actions + [a])[..|actions|] == actions;
  }

  lemma HeardSnoc(actions: seq<Action>, a: Action)
    ensures Heard(actions + [a]) ==
            if a.InternetChanged? then (Apply(Heard(actions).0, a.v4), Apply(Heard(actions).1, a.v6))
            else Heard(actions)
  {
    assert (actions + [a])[..|actions|] == actions;
  }

  // While the connection is not announced, every Established event has a Lost one after it.
  lemma {:induction false} NotAnnouncedMeansLost(actions: seq<Action>, i: nat)
    requires !Announced(actions) && i < |actions| && actions[i].WiFiEstablished?
    ensures exists k :: i < k < |actions| && actions[k].WiFiLost?
    decreases |actions|
  {
    var init, last := actions[..|actions| - 1], actions[|actions| - 1];
    if last.WiFiLost? {
      assert actions[|actions| - 1].WiFiLost?;
    } else {
      NotAnnouncedMeansLost(init, i);
      var k :| i < k < |init| && init[k].WiFiLost?;
      assert actions[k].WiFiLost?;
    }
  }

  lemma LostBetweenSnoc(actions: seq<Action>, a: Action)
    requires LostBetween(actions) && (a.WiFiEstablished? ==> !Announced(actions))
    ensures LostBetween(actions + [a])
  {
    var all := actions + [a];
    forall i, j | 0 <= i < j < |all| && all[i].WiFiEstablished? && all[j].WiFiEstablished?
      ensures exists k :: i < k < j && all[k].WiFiLost?
    {
      if j == |actions| {
        NotAnnouncedMeansLost(actions, i);
        var k :| i < k < |actions| && actions[k].WiFiLost?;
        assert all[k].WiFiLost?;
      } else {
        var k :| i < k < j && actions[k].WiFiLost?;
        assert all[k].WiFiLost?;
      }
    }
  }

  // -------------------------------------------------------------------------
  // Every run
  // -------------------------------------------------------------------------

  predicate LinkKnown(m: Manager) { m.state == Connected || m.state == Disconnecting }

  // What holds between any two inputs.
  ghost predicate Consistent(m: Manager) {
    && LostBetween(m.actions)
    && (Announced(m.actions) ==> LinkKnown(m))
    && (m.state == Connected ==> Announced(m.actions))
    && (m.haveIPv4 || m.haveIPv6 ==> LinkKnown(m))
    && Heard(m.actions) == (m.haveIPv4, m.haveIPv6)
  }

  // Actions that are not Wi-Fi or internet events change nothing a listener hears.
  lemma DoQuietly(m: Manager, a: Action)
    requires Consistent(m) && !a.WiFiEstablished? && !a.WiFiLost? && !a.InternetChanged?
    ensures Consistent(Do(m, a))
  {
    AnnouncedSnoc(m.actions, a);
    HeardSnoc(m.actions, a);
    LostBetweenSnoc(m.actions, a);
  }

  // What is left true while a Wi-Fi event has been posted and the flags are not yet updated.
  ghost predicate MidUpdate(m: Manager) {
    && LostBetween(m.actions)
    && (Announced(m.actions) ==> LinkKnown(m))
    && (m.state == Connected ==> Announced(m.actions))
    && Heard(m.actions) == (m.haveIPv4, m.haveIPv6)
  }

  lemma UpdateInternetConsistent(m: Manager, n: Net)
    requires MidUpdate(m)
    ensures Consistent(UpdateInternet(m, n)) && UpdateInternet(m, n).state == m.state
  {
    var a := InternetChanged(ChangeOf(m.haveIPv4, HaveIPv4(m, n)), ChangeOf(m.haveIPv6, HaveIPv6(m, n)));
    AnnouncedSnoc(m.actions, a);
    HeardSnoc(m.actions, a);
    LostBetweenSnoc(m.actions, a);
  }

  lemma NoteUpConsistent(m: Manager, o: Observed)
    requires Consistent(m)
    ensures Consistent(NoteUp(m, o))
  {
    if m.state == NotConnected || m.state == ConnectingSucceeded {
      AnnouncedSnoc(m.actions, WiFiEstablished);
      HeardSnoc(m.actions, WiFiEstablished);
      LostBetweenSnoc(m.actions, WiFiEstablished);
      UpdateInternetConsistent(Do(m.(state := Connected, lastFail := 0), WiFiEstablished), o.net);
    }
  }

  lemma DropUnwantedConsistent(m: Manager, o: Observed)
    requires Consistent(m)
    ensures Consistent(DropUnwanted(m, o))
  {
    DoQuietly(m, DisconnectIssued);
  }

  lemma NoteDownConsistent(m: Manager, o: Observed)
    requires Consistent(m)
    ensures Consistent(NoteDown(m, o)) && !LinkKnown(NoteDown(m, o))
  {
    if LinkKnown(m) {
      AnnouncedSnoc(m.actions, WiFiLost);
      HeardSnoc(m.actions, WiFiLost);
      LostBetweenSnoc(m.actions, WiFiLost);
      UpdateInternetConsistent(Do(m.(state := NotConnected, lastFail := 0), WiFiLost), o.net);
    }
  }

  lemma TryConnectConsistent(m: Manager, o: Observed)
    requires Consistent(m) && !LinkKnown(m)
    ensures Consistent(TryConnect(m, o))
  {
    DoQuietly(m, ConnectIssued(o.now));
    if Wanted(m, o) && !MayConnect(m, o) {
      DoQuietly(m, TimerArmed(o.now, m.lastFail + m.interval - o.now));
    }
  }

  lemma DriveConsistent(m: Manager, o: Observed)
    requires Consistent(m)
    ensures Consistent(DriveStation(m, o))
  {
    var m1 := m.(mode := RefreshedMode(m, o));
    NoteUpConsistent(m1, o);
    DropUnwantedConsistent(NoteUp(m1, o), o);
    NoteDownConsistent(m1, o);
    TryConnectConsistent(NoteDown(m1, o), o);
  }

  lemma HandleConsistent(m: Manager, i: Input)
    requires Consistent(m)
    ensures Consistent(Handle(m, i))
  {
    match i
    case Drive(o) => DriveConsistent(m, o);
    case StaConnected(o) => DriveConsistent(if m.state == Connecting then m.(state := ConnectingSucceeded) else m, o);
    case StaDisconnected(o) => DriveConsistent(if m.state == Connecting then m.(state := ConnectingFailed) else m, o);
    case AddressEvent(kind, net) =>
      UpdateInternetConsistent(m, net);
      DoQuietly(UpdateInternet(m, net), AddressChanged(kind));
    case SetMode(mode, enableOk, scheduleOk) =>
    case DisconnectNetwork =>
      if m.state == Connected {
        DoQuietly(m.(mode := ApplicationControlled), DisconnectIssued);
      }
  }

  // On every run of platform events, drives, mode changes and disconnects: two Established events
  // always have a Lost one between them, the internet flags are only set while the station is
  // connected or disconnecting, and replaying the posted changes gives the current flags.
  lemma {:induction false} EveryRunIsConsistent(interval: Time, inputs: seq<Input>)
    ensures Consistent(Run(Init(interval), inputs))
  {
    if inputs != [] {
      EveryRunIsConsistent(interval, inputs[..|inputs| - 1]);
      HandleConsistent(Run(Init(interval), inputs[..|inputs| - 1]), inputs[|inputs| - 1]);
    }
  }

  // Established and Lost do not alternate strictly: a station found up while Connecting, and not
  // wanted, is taken down without ever having been announced.
  lemma LostWithoutEstablished()
    ensures exists inputs :: Run(Init(1000), inputs).actions == [ConnectIssued(5), DisconnectIssued, WiFiLost]
  {
    var net := Net(false, false, 0, 0, 0, [], false);
    var i0 := Drive(Observed(true, true, true, true, false, true, 5, true, true, net));
    var i1 := Drive(Observed(false, true, true, true, true, true, 6, true, true, net));
    var i2 := Drive(Observed(false, true, true, true, false, true, 7, true, true, net));
    var m := Init(1000);
    assert [i0, i1, i2][..2] == [i0, i1] && [i0, i1][..1] == [i0] && [i0][..0] == [];
    assert Run(m, [i0]) == Handle(m, i0);
    assert Run(m, [i0, i1]) == Handle(Handle(m, i0), i1);
    assert Run(m, [i0, i1, i2]) == Handle(Handle(Handle(m, i0), i1), i2);
  }

  // -------------------------------------------------------------------------
  // Waiting between attempts
  // -------------------------------------------------------------------------

  predicate ObservesDown(i: Input, from: Time) {
    (i.Drive? || i.StaConnected? || i.StaDisconnected?) ==> !i.o.linkUp && i.o.now >= from
  }

  // The actions are those of before and then none that starts a connection earlier than `from`.
  ghost predicate NoneBefore(before: seq<Action>, after: seq<Action>, from: Time) {
    && before <= after
    && forall k :: |before| <= k < |after| && after[k].ConnectIssued? ==> after[k].at >= from
  }

  // After a failed attempt handled at t, nothing is known of the link and the time is kept.
  predicate Waiting(m: Manager, t: Time) {
    m.lastFail >= t > 0 && !LinkKnown(m)
  }

  lemma DriveWaits(m: Manager, o: Observed, t: Time)
    requires Waiting(m, t) && !o.linkUp && o.now >= t
    ensures Waiting(DriveStation(m, o), t) && DriveStation(m, o).interval == m.interval
    ensures NoneBefore(m.actions, DriveStation(m, o).actions, t + m.interval)
  {
  }

  lemma HandleWaits(m: Manager, i: Input, t: Time)
    requires Waiting(m, t) && ObservesDown(i, t)
    ensures Waiting(Handle(m, i), t) && Handle(m, i).interval == m.interval
    ensures NoneBefore(m.actions, Handle(m, i).actions, t + m.interval)
  {
    match i
    case Drive(o) => DriveWaits(m, o, t);
    case StaConnected(o) => DriveWaits(if m.state == Connecting then m.(state := ConnectingSucceeded) else m, o, t);
    case StaDisconnected(o) => DriveWaits(if m.state == Connecting then m.(state := ConnectingFailed) else m, o, t);
    case AddressEvent(kind, net) =>
    case SetMode(mode, enableOk, scheduleOk) =>
    case DisconnectNetwork =>
  }

  // However the machine is driven after a failed attempt handled at t, no connection is started before
  // t plus the interval, as long as the link is not observed up and the clock does not go back.
  lemma {:induction false} NoEarlyRetry(m: Manager, inputs: seq<Input>, t: Time)
    requires Waiting(m, t) && forall i :: i in inputs ==> ObservesDown(i, t)
    ensures Waiting(Run(m, inputs), t) && Run(m, inputs).interval == m.interval
    ensures NoneBefore(m.actions, Run(m, inputs).actions, t + m.interval)
  {
    if inputs != [] {
      var init, last := inputs[..|inputs| - 1], inputs[|inputs| - 1];
      NoEarlyRetry(m, init, t);
      HandleWaits(Run(m, init), last, t);
    }
  }

  // Handling a failed attempt at t > 0 starts the wait: nothing is started there and then, and if the
  // station is wanted the timer is armed for the whole interval.
  lemma FailureStartsWait(m: Manager, o: Observed)
    requires m.state == ConnectingFailed && !o.linkUp && o.now > 0 && m.interval > 0
    requires o.startOk && o.enableOk && o.lookOk
    ensures var m1 := DriveStation(m, o);
            && Waiting(m1, o.now) && m1.lastFail == o.now && m1.state == NotConnected
            && m1.actions == if Wanted(m1, o) then m.actions + [TimerArmed(o.now, m.interval)] else m.actions
  {
  }

  // The re-drive timer is armed exactly when the station is wanted, down and inside the wait, for
  // exactly the positive time that remains; the drive it causes then starts the connection.
  lemma TimerCoversTheWait(m: Manager, o: Observed, later: Observed)
    requires Waiting(m, m.lastFail) && m.state != ConnectingFailed && !o.linkUp && o.startOk && o.enableOk && o.lookOk
    requires !later.linkUp && later.startOk && later.enableOk && later.lookOk
    requires later.stationMode && later.provisioned && later.connectOk
    ensures var m1 := DriveStation(m, o);
            && (Wanted(m1, o) && o.now < m.lastFail + m.interval <==>
                exists d :: d > 0 && m1.actions == m.actions + [TimerArmed(o.now, d)])
            && (Wanted(m1, o) && o.now < m.lastFail + m.interval ==>
                  m1.actions == m.actions + [TimerArmed(o.now, m.lastFail + m.interval - o.now)])
            && (Wanted(m1, o) && o.now < m.lastFail + m.interval <= later.now ==>
                  DriveStation(m1, later).actions == m1.actions + [ConnectIssued(later.now)])
  {
    var m1 := DriveStation(m, o);
    if Wanted(m1, o) && o.now >= m.lastFail + m.interval {
      assert m1.actions == m.actions + [ConnectIssued(o.now)];
      assert m1.actions[|m.actions|].ConnectIssued?;
    }
  }
}
