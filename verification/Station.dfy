/**
  The Wi-Fi station state machine of ConnectivityManagerImpl_WiFi.cpp: the steps as functions on the
  manager's state and the history of what it has posted and asked of the Wi-Fi layer.
  */
module Station {
  // Milliseconds on the monotonic clock.
  type Time = nat

  datatype Mode = NotSupported | ApplicationControlled | Disabled | Enabled

  datatype State = NotConnected | Connecting | ConnectingSucceeded | ConnectingFailed | Connected | Disconnecting

  datatype Change = NoChange | Established | Lost

  datatype AddressKind = IPv4Assigned | IPv4Lost | IPv6Assigned

  datatype Action =
    | WiFiEstablished
    | WiFiLost
    | InternetChanged(v4: Change, v6: Change)
    | AddressChanged(kind: AddressKind)
    | ConnectIssued(at: Time)
    | DisconnectIssued
    | TimerArmed(at: Time, delay: Time)

  datatype Manager = Manager(mode: Mode, state: State, lastFail: Time, interval: Time,
                             haveIPv4: bool, haveIPv6: bool, actions: seq<Action>)

  // An IPv6 address: its leading 16 bits, and whether it is in the valid state.
  datatype Address = Address(leading: nat, valid: bool)

  // The network interface at one look. A DNS server, an IPv4 address or a gateway is zero when there is
  // none; `route` says that the default IPv6 route goes through this interface.
  datatype Net = Net(up: bool, link: bool, dns: nat, ipv4: nat, gateway: nat, ipv6: seq<Address>, route: bool)

  // What one drive of the state machine observes and is answered.
  datatype Observed = Observed(stationMode: bool, startOk: bool, enableOk: bool, lookOk: bool, linkUp: bool,
                               provisioned: bool, now: Time, disconnectOk: bool, connectOk: bool, net: Net)

  datatype Input =
    | Drive(o: Observed)                  // a scheduled drive, the re-drive timer, STA_START or STA_STOP
    | StaConnected(o: Observed)
    | StaDisconnected(o: Observed)
    | AddressEvent(kind: AddressKind, net: Net)
    | SetMode(mode: Mode, enableOk: bool, scheduleOk: bool)
    | DisconnectNetwork

  function Init(interval: Time): Manager {
    Manager(Disabled, NotConnected, 0, interval, false, false, [])
  }

  // -------------------------------------------------------------------------
  // The steps
  // -------------------------------------------------------------------------

  function Do(m: Manager, a: Action): Manager {
    m.(actions := m.actions + [a])
  }

  function ChangeOf(had: bool, have: bool): Change {
    if had == have then NoChange else if have then Established else Lost
  }

  // A global unicast address, 2000::/3.
  predicate IsGlobal(a: Address) { 0x2000 <= a.leading < 0x4000 }

  predicate Resolves(m: Manager, n: Net) { m.state == Connected && n.up && n.link && n.dns != 0 }

  predicate HaveIPv4(m: Manager, n: Net) { Resolves(m, n) && n.ipv4 != 0 && n.gateway != 0 }

  predicate HaveIPv6(m: Manager, n: Net) {
    Resolves(m, n) && n.route && exists a :: a in n.ipv6 && IsGlobal(a) && a.valid
  }

  function UpdateInternet(m: Manager, n: Net): Manager {
    var v4, v6 := HaveIPv4(m, n), HaveIPv6(m, n);
    if v4 == m.haveIPv4 && v6 == m.haveIPv6 then m
    else Do(m.(haveIPv4 := v4, haveIPv6 := v6), InternetChanged(ChangeOf(m.haveIPv4, v4), ChangeOf(m.haveIPv6, v6)))
  }

  function OnConnected(m: Manager, n: Net): Manager {
    UpdateInternet(Do(m, WiFiEstablished), n)
  }

  function OnDisconnected(m: Manager, n: Net): Manager {
    UpdateInternet(Do(m, WiFiLost), n)
  }

  function RefreshedMode(m: Manager, o: Observed): Mode {
    if m.mode == ApplicationControlled then m.mode else if o.stationMode then Enabled else Disabled
  }

  // The station turned out to be up: a connection not yet known about is announced.
  function NoteUp(m: Manager, o: Observed): Manager {
    if m.state == NotConnected || m.state == ConnectingSucceeded
    then OnConnected(m.(state := Connected, lastFail := 0), o.net)
    else m
  }

  // A station that should not be up is taken down, unless the application controls it.
  function DropUnwanted(m: Manager, o: Observed): Manager {
    if m.mode != ApplicationControlled && (m.mode != Enabled || !o.provisioned) then
      var m1 := Do(m, DisconnectIssued);
      if o.disconnectOk then m1.(state := Disconnecting) else m1
    else m
  }

  // The station turned out to be down: a lost connection is announced, a failed attempt is timed.
  function NoteDown(m: Manager, o: Observed): Manager {
    if m.state == Connected || m.state == Disconnecting
    then OnDisconnected(m.(state := NotConnected, lastFail := 0), o.net)
    else if m.state == ConnectingFailed then m.(state := NotConnected, lastFail := o.now)
    else m
  }

  predicate Wanted(m: Manager, o: Observed) { m.mode == Enabled && o.provisioned }

  predicate MayConnect(m: Manager, o: Observed) { m.lastFail == 0 || o.now >= m.lastFail + m.interval }

  function TryConnect(m: Manager, o: Observed): Manager {
    if !Wanted(m, o) then m
    else if MayConnect(m, o) then
      var m1 := Do(m, ConnectIssued(o.now));
      if o.connectOk then m1.(state := Connecting) else m1
    else Do(m, TimerArmed(o.now, m.lastFail + m.interval - o.now))
  }

  function DriveStation(m: Manager, o: Observed): Manager {
    var m1 := m.(mode := RefreshedMode(m, o));
    if m1.mode != ApplicationControlled && !(o.startOk && o.enableOk) then m1
    else if !o.lookOk then m1
    else if o.linkUp then DropUnwanted(NoteUp(m1, o), o)
    else TryConnect(NoteDown(m1, o), o)
  }

  function Handle(m: Manager, i: Input): Manager {
    match i
    case Drive(o) => DriveStation(m, o)
    case StaConnected(o) =>
      DriveStation(if m.state == Connecting then m.(state := ConnectingSucceeded) else m, o)
    case StaDisconnected(o) =>
      DriveStation(if m.state == Connecting then m.(state := ConnectingFailed) else m, o)
    case AddressEvent(kind, net) => Do(UpdateInternet(m, net), AddressChanged(kind))
    case SetMode(mode, enableOk, scheduleOk) =>
      if mode == NotSupported || (mode != ApplicationControlled && !(enableOk && scheduleOk)) then m
      else m.(mode := mode)
    case DisconnectNetwork =>
      if m.state == Connected then Do(m.(mode := ApplicationControlled), DisconnectIssued) else m
  }

  function Run(m: Manager, inputs: seq<Input>): Manager {
    if inputs == [] then m else Handle(Run(m, inputs[..|inputs| - 1]), inputs[|inputs| - 1])
  }

  // -------------------------------------------------------------------------
  // Reading the history
  // -------------------------------------------------------------------------

  // The last Wi-Fi event posted says the connection is established.
  predicate Announced(actions: seq<Action>) {
    actions != [] &&
    var last := actions[|actions| - 1];
    last.WiFiEstablished? || (!last.WiFiLost? && Announced(actions[..|actions| - 1]))
  }

  // Between any two Established events there is a Lost one.
  ghost predicate LostBetween(actions: seq<Action>) {
    forall i, j :: 0 <= i < j < |actions| && actions[i].WiFiEstablished? && actions[j].WiFiEstablished? ==>
      exists k :: i < k < j && actions[k].WiFiLost?
  }

  function Apply(flag: bool, change: Change): bool {
    match change
    case NoChange => flag
    case Established => true
    case Lost => false
  }

  // The flags a listener has after the posted internet events.
  function Heard(actions: seq<Action>): (bool, bool) {
    if actions == [] then (false, false)
    else
      var before, last := Heard(actions[..|actions| - 1]), actions[|actions| - 1];
      if last.InternetChanged? then (Apply(before.0, last.v4), Apply(before.1, last.v6)) else before
  }
}
