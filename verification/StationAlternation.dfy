/** When the Wi-Fi events that the station posts alternate, and when Lost is posted on its own. */
module StationAlternation {
  import opened Station
  import opened StationProofs

  // Established only while the connection is not announced, Lost only while it is.
  ghost predicate Alternates(actions: seq<Action>) {
    forall j :: 0 <= j < |actions| ==>
      && (actions[j].WiFiEstablished? ==> !Announced(actions[..j]))
      && (actions[j].WiFiLost? ==> Announced(actions[..j]))
  }

  // Being taken down without having been announced.
  predicate Unannounced(m: Manager) { m.state == Disconnecting && !Announced(m.actions) }

  predicate Drives(i: Input) { i.Drive? || i.StaConnected? || i.StaDisconnected? }

  // What the event itself says about an attempt.
  function Adjusted(m: Manager, i: Input): State {
    if m.state != Connecting then m.state
    else if i.StaConnected? then ConnectingSucceeded
    else if i.StaDisconnected? then ConnectingFailed
    else m.state
  }

  // The drive gets as far as looking at the link.
  predicate Looks(m: Manager, o: Observed) {
    o.lookOk && (m.mode == ApplicationControlled || (o.startOk && o.enableOk))
  }

  // The link is found up during an attempt, or after it failed, and is not wanted.
  predicate Drops(m: Manager, i: Input) {
    Drives(i) &&
    var mode := RefreshedMode(m, i.o);
    && Looks(m, i.o) && i.o.linkUp && i.o.disconnectOk
    && (Adjusted(m, i) == Connecting || Adjusted(m, i) == ConnectingFailed)
    && mode != ApplicationControlled && !(mode == Enabled && i.o.provisioned)
  }

  predicate FindsDown(m: Manager, i: Input) {
    Drives(i) && Looks(m, i.o) && !i.o.linkUp
  }

  // -------------------------------------------------------------------------
  // One input
  // -------------------------------------------------------------------------

  lemma AlternatesSnoc(actions: seq<Action>, a: Action)
    ensures Alternates(actions + [a]) <==>
            Alternates(actions) && (a.WiFiEstablished? ==> !Announced(actions)) && (a.WiFiLost? ==> Announced(actions))
  {
    var all := actions + [a];
    assert all[..|actions|] == actions;
    assert forall j :: 0 <= j < |actions| ==> all[..j] == actions[..j] && all[j] == actions[j];
  }

  // An action that is neither Established nor Lost changes nothing here.
  lemma OtherAction(m: Manager, a: Action)
    requires !a.WiFiEstablished? && !a.WiFiLost?
    ensures Announced(Do(m, a).actions) == Announced(m.actions)
    ensures Alternates(Do(m, a).actions) <==> Alternates(m.actions)
  {
    AnnouncedSnoc(m.actions, a);
    AlternatesSnoc(m.actions, a);
  }

  lemma UpdateInternetIsOther(m: Manager, n: Net)
    ensures var m1 := UpdateInternet(m, n);
            && m1.state == m.state && Announced(m1.actions) == Announced(m.actions)
            && (Alternates(m1.actions) <==> Alternates(m.actions))
  {
    OtherAction(m.(haveIPv4 := HaveIPv4(m, n), haveIPv6 := HaveIPv6(m, n)),
      InternetChanged(ChangeOf(m.haveIPv4, HaveIPv4(m, n)), ChangeOf(m.haveIPv6, HaveIPv6(m, n))));
  }

  // The link is found up.
  lemma UpAlternates(m: Manager, o: Observed)
    requires !LinkKnown(m) ==> !Announced(m.actions)
    requires m.state == Connected ==> Announced(m.actions)
    ensures var m1 := DropUnwanted(NoteUp(m, o), o);
            && (Alternates(m1.actions) <==> Alternates(m.actions))
            && (Unannounced(m1) <==>
                  || Unannounced(m)
                  || ((m.state == Connecting || m.state == ConnectingFailed) && o.disconnectOk
                      && m.mode != ApplicationControlled && !(m.mode == Enabled && o.provisioned)))
  {
    var noted := NoteUp(m, o);
    if m.state == NotConnected || m.state == ConnectingSucceeded {
      var up := m.(state := Connected, lastFail := 0);
      AlternatesSnoc(up.actions, WiFiEstablished);
      AnnouncedSnoc(up.actions, WiFiEstablished);
      UpdateInternetIsOther(Do(up, WiFiEstablished), o.net);
    }
    OtherAction(noted, DisconnectIssued);
  }

  lemma NoteDownAlternates(m: Manager, o: Observed)
    requires !LinkKnown(m) ==> !Announced(m.actions)
    requires m.state == Connected ==> Announced(m.actions)
    ensures var m1 := NoteDown(m, o);
            && m1.state != Disconnecting
            && (Alternates(m1.actions) <==> Alternates(m.actions) && !Unannounced(m))
  {
    if LinkKnown(m) {
      var down := m.(state := NotConnected, lastFail := 0);
      AlternatesSnoc(down.actions, WiFiLost);
      UpdateInternetIsOther(Do(down, WiFiLost), o.net);
    }
  }

  lemma TryConnectAlternates(m: Manager, o: Observed)
    requires m.state != Disconnecting
    ensures TryConnect(m, o).state != Disconnecting
    ensures Alternates(TryConnect(m, o).actions) <==> Alternates(m.actions)
  {
    OtherAction(m, ConnectIssued(o.now));
    if Wanted(m, o) && !MayConnect(m, o) {
      OtherAction(m, TimerArmed(o.now, m.lastFail + m.interval - o.now));
    }
  }

  // The link is found down: Lost is posted iff the station was up or being taken down, announced or not.
  lemma DownAlternates(m: Manager, o: Observed)
    requires !LinkKnown(m) ==> !Announced(m.actions)
    requires m.state == Connected ==> Announced(m.actions)
    ensures var m1 := TryConnect(NoteDown(m, o), o);
            && (Alternates(m1.actions) <==> Alternates(m.actions) && !Unannounced(m))
            && !Unannounced(m1)
  {
    NoteDownAlternates(m, o);
    TryConnectAlternates(NoteDown(m, o), o);
  }

  lemma DriveAlternates(m: Manager, o: Observed)
    requires !LinkKnown(m) ==> !Announced(m.actions)
    requires m.state == Connected ==> Announced(m.actions)
    ensures var m1, mode := DriveStation(m, o), RefreshedMode(m, o);
            && (Alternates(m1.actions) <==> Alternates(m.actions) && !(Unannounced(m) && Looks(m, o) && !o.linkUp))
            && (Unannounced(m1) <==>
                  || (Unannounced(m) && !(Looks(m, o) && !o.linkUp))
                  || (Looks(m, o) && o.linkUp && o.disconnectOk
                      && (m.state == Connecting || m.state == ConnectingFailed)
                      && mode != ApplicationControlled && !(mode == Enabled && o.provisioned)))
  {
    var m1 := m.(mode := RefreshedMode(m, o));
    if Looks(m, o) && o.linkUp {
      UpAlternates(m1, o);
    } else if Looks(m, o) {
      DownAlternates(m1, o);
    }
  }

  // An input leads to an unannounced disconnection iff it drops the link as above, or finds one under way
  // and does not find the link down; and it posts a Lost on its own iff it finds it down then.
  lemma HandleAlternates(m: Manager, i: Input)
    requires Consistent(m)
    ensures Alternates(Handle(m, i).actions) <==> Alternates(m.actions) && !(Unannounced(m) && FindsDown(m, i))
    ensures Unannounced(Handle(m, i)) <==> Drops(m, i) || (Unannounced(m) && !FindsDown(m, i))
  {
    if Drives(i) {
      DriveAlternates(m.(state := Adjusted(m, i)), i.o);
    } else if i.AddressEvent? {
      UpdateInternetIsOther(m, i.net);
      OtherAction(UpdateInternet(m, i.net), AddressChanged(i.kind));
    } else {
      OtherAction(m.(mode := ApplicationControlled), DisconnectIssued);
    }
  }

  // -------------------------------------------------------------------------
  // Every run
  // -------------------------------------------------------------------------

  ghost predicate DropsIn(m: Manager, inputs: seq<Input>) {
    exists i :: 0 <= i < |inputs| && Drops(Run(m, inputs[..i]), inputs[i])
  }

  // A drop, and later a drive that finds the link down.
  ghost predicate DropsThenFindsDown(m: Manager, inputs: seq<Input>) {
    exists i, j :: 0 <= i < j < |inputs| &&
      Drops(Run(m, inputs[..i]), inputs[i]) && FindsDown(Run(m, inputs[..j]), inputs[j])
  }

  lemma DropsInSnoc(m: Manager, inputs: seq<Input>, x: Input)
    ensures DropsIn(m, inputs + [x]) <==> DropsIn(m, inputs) || Drops(Run(m, inputs), x)
  {
    var all := inputs + [x];
    assert all[..|inputs|] == inputs && all[|inputs|] == x;
    assert forall i :: 0 <= i < |inputs| ==> all[..i] == inputs[..i] && all[i] == inputs[i];
  }

  lemma DropsThenSnoc(m: Manager, inputs: seq<Input>, x: Input)
    ensures DropsThenFindsDown(m, inputs + [x]) <==>
            DropsThenFindsDown(m, inputs) || (DropsIn(m, inputs) && FindsDown(Run(m, inputs), x))
  {
    var all := inputs + [x];
    assert all[..|inputs|] == inputs && all[|inputs|] == x;
    assert forall i :: 0 <= i < |inputs| ==> all[..i] == inputs[..i] && all[i] == inputs[i];
  }

  // Until a drop has been found down, the station is in an unannounced disconnection iff it has dropped.
  lemma {:induction false} RunAlternates(interval: Time, inputs: seq<Input>)
    ensures var m := Run(Init(interval), inputs);
            && (Alternates(m.actions) <==> !DropsThenFindsDown(Init(interval), inputs))
            && (Alternates(m.actions) ==> (Unannounced(m) <==> DropsIn(Init(interval), inputs)))
  {
    if inputs != [] {
      var init, last := inputs[..|inputs| - 1], inputs[|inputs| - 1];
      var m := Run(Init(interval), init);
      assert inputs == init + [last];
      RunAlternates(interval, init);
      EveryRunIsConsistent(interval, init);
      HandleAlternates(m, last);
      DropsInSnoc(Init(interval), init, last);
      DropsThenSnoc(Init(interval), init, last);
    }
  }

  // Established and Lost alternate on exactly the runs in which no link that is found up during an attempt,
  // unwanted, and taken down is later found down.
  lemma AlternationHolds(interval: Time, inputs: seq<Input>)
    ensures Alternates(Run(Init(interval), inputs).actions) <==> !DropsThenFindsDown(Init(interval), inputs)
  {
    RunAlternates(interval, inputs);
  }
}
