/**
  The Wi-Fi network driver of NetworkCommissioningDriver.cpp, as the sequence of states the device
  goes through. The backup has two keys and the SSID key is its marker: it is written last and
  deleted first. Power may be lost between any two of the states.
  */
module FailSafe {
  import opened Options
  import opened Ascii

  type Bytes = seq<Byte>

  // kMaxWiFiSSIDLength and kMaxWiFiKeyLength, the sizes of the ssid and password fields of the
  // station configuration.
  const MAX_SSID := 32
  const MAX_KEY := 64

  datatype Network = Network(ssid: Bytes, credentials: Bytes)

  const NO_NETWORK := Network([], [])

  // The configuration that ESP Wi-Fi keeps in flash: two zero-padded fields.
  datatype Station = Station(ssid: Bytes, password: Bytes)

  datatype Status = Success | OutOfRange | BoundsExceeded | NetworkIdNotFound | UnknownError
                  | AuthFailure | NetworkNotFound | OtherConnectionFailure

  type CallbackId = nat

  // `settled` is a history variable: the staging configuration as of the last commit, revert or
  // load at boot. `told` is the history of the connect callbacks that have been called.
  datatype Device = Device(on: bool, ssidKey: Option<Bytes>, credentialsKey: Option<Bytes>, station: Station,
                           staging: Network, pending: Option<CallbackId>, settled: Network,
                           told: seq<(CallbackId, Status)>)

  // What the calls outside the driver answer: the SSID of the access point the station is associated
  // with, if any, and whether each call succeeded.
  datatype Radio = Radio(ap: Option<Bytes>, clearOk: bool, disableOk: bool, setOk: bool, enableOk: bool, timerOk: bool)

  datatype Store = Store(putCredentialsOk: bool, putSsidOk: bool)

  // The reason of the last disconnection, as the Wi-Fi layer gives it.
  datatype Reason =
    | AuthFail
    | FourWayHandshakeTimeout
    | HandshakeTimeout
    | MicFailure
    | ConnectionFail
    | NoApFound
    | Other(code: nat)

  datatype Command =
    | Add(ssid: Bytes, credentials: Bytes, store: Store)
    | Remove(id: Bytes, store: Store)
    | Connect(id: Bytes, callback: Option<CallbackId>, store: Store, radio: Radio)
    | Connected             // an association is reported; it does not say with which network
    | ConnectTimedOut(reason: Reason, radio: Radio)
    | Disconnect(radio: Radio)
    | Commit
    | Revert(radio: Radio)
    | Boot(radio: Radio)

  // -------------------------------------------------------------------------
  // The station configuration in flash
  // -------------------------------------------------------------------------

  function Zeros(n: nat): Bytes { seq(n, _ => 0) }

  function Padded(s: Bytes, size: nat): Bytes {
    if |s| < size then s + Zeros(size - |s|) else s[..size]
  }

  function UpToNul(s: Bytes): Bytes {
    if s == [] || s[0] == 0 then [] else [s[0]] + UpToNul(s[1..])
  }

  const BLANK := Station(Zeros(MAX_SSID), Zeros(MAX_KEY))

  function StationFor(n: Network): Station {
    Station(Padded(n.ssid, MAX_SSID), Padded(n.credentials, MAX_KEY))
  }

  // The staging configuration loaded at boot; nothing is loaded when the SSID starts with a NUL.
  function Load(c: Station): Network {
    if c.ssid != [] && c.ssid[0] != 0 then Network(UpToNul(c.ssid), UpToNul(c.password)) else NO_NETWORK
  }

  predicate Provisioned(c: Station) { c.ssid != [] && c.ssid[0] != 0 }

  // -------------------------------------------------------------------------
  // The states each operation goes through, after the one it starts in
  // -------------------------------------------------------------------------

  function Last(s: Device, trace: seq<Device>): Device {
    if trace == [] then s else trace[|trace| - 1]
  }

  predicate BackupOk(s: Device, store: Store) {
    s.ssidKey.Some? || (store.putCredentialsOk && store.putSsidOk)
  }

  function BackupTrace(s: Device, store: Store): seq<Device> {
    if s.ssidKey.Some? || !store.putCredentialsOk then []
    else
      var s1 := s.(credentialsKey := Some(s.staging.credentials));
      if !store.putSsidOk then [s1] else [s1, s1.(ssidKey := Some(s.staging.ssid))]
  }

  function DeleteBackupTrace(s: Device): seq<Device> {
    var s1 := s.(ssidKey := None, settled := s.staging);
    [s1, s1.(credentialsKey := None)]
  }

  predicate ConnectWiFiOk(s: Device, r: Radio) {
    (Provisioned(s.station) ==> r.clearOk) && r.disableOk && r.setOk && r.enableOk
  }

  function ConnectWiFiTrace(s: Device, n: Network, r: Radio): seq<Device> {
    if Provisioned(s.station) && !r.clearOk then []
    else
      var cleared := if Provisioned(s.station) then [s.(station := BLANK)] else [];
      if !r.disableOk || !r.setOk then cleared
      else cleared + [s.(station := StationFor(n))]
  }

  function AddStatus(s: Device, ssid: Bytes, credentials: Bytes, store: Store): Status {
    if s.staging.ssid != [] && s.staging.ssid != ssid then BoundsExceeded
    else if |credentials| > MAX_KEY then OutOfRange
    else if |ssid| > MAX_SSID then OutOfRange
    else if !BackupOk(s, store) then UnknownError
    else Success
  }

  function AddTrace(s: Device, ssid: Bytes, credentials: Bytes, store: Store): seq<Device> {
    var status := AddStatus(s, ssid, credentials, store);
    if status == BoundsExceeded || status == OutOfRange then []
    else
      var backup := BackupTrace(s, store);
      if status == UnknownError then backup
      else backup + [Last(s, backup).(staging := Network(ssid, credentials))]
  }

  function RemoveStatus(s: Device, id: Bytes, store: Store): Status {
    if s.staging.ssid != id then NetworkIdNotFound
    else if !BackupOk(s, store) then UnknownError
    else Success
  }

  // An empty SSID stands for no network; the credentials stay.
  function RemoveTrace(s: Device, id: Bytes, store: Store): seq<Device> {
    var status := RemoveStatus(s, id, store);
    if status == NetworkIdNotFound then []
    else
      var backup := BackupTrace(s, store);
      if status == UnknownError then backup
      else backup + [Last(s, backup).(staging := s.staging.(ssid := []))]
  }

  function Tell(s: Device, callback: Option<CallbackId>, status: Status): Device {
    if callback.Some? then s.(told := s.told + [(callback.value, status)]) else s
  }

  // The failure exit of ConnectNetwork forgets whatever callback was pending.
  function Refuse(s: Device, callback: Option<CallbackId>, status: Status): Device {
    Tell(s.(pending := None), callback, status)
  }

  function ConnectTrace(s: Device, id: Bytes, callback: Option<CallbackId>, store: Store, r: Radio): seq<Device> {
    if s.staging.ssid != id then [Refuse(s, callback, NetworkIdNotFound)]
    else
      var backup := BackupTrace(s, store);
      backup + ConnectBackedUpTrace(Last(s, backup), BackupOk(s, store), callback, r)
  }

  // What follows the attempt to back up.
  function ConnectBackedUpTrace(s: Device, backedUp: bool, callback: Option<CallbackId>, r: Radio): seq<Device> {
    if !backedUp || s.pending.Some? then [Refuse(s, callback, UnknownError)]
    else if r.ap == Some(s.staging.ssid) then [Tell(s, callback, Success)]
    else AssociateTrace(s, callback, r)
  }

  // The result of the connect attempt is overwritten by that of starting the timer.
  function AssociateTrace(s: Device, callback: Option<CallbackId>, r: Radio): seq<Device> {
    var connect := ConnectWiFiTrace(s, s.staging, r);
    var s1 := Last(s, connect);
    connect + [if r.timerOk then s1.(pending := callback) else Refuse(s1, callback, UnknownError)]
  }

  function ConnectedTrace(s: Device): seq<Device> {
    [Tell(s, s.pending, Success).(pending := None)]
  }

  function StatusFor(reason: Reason): Status {
    match reason
    case AuthFail | FourWayHandshakeTimeout | HandshakeTimeout | MicFailure | ConnectionFail => AuthFailure
    case NoApFound => NetworkNotFound
    case Other(_) => OtherConnectionFailure
  }

  function ConnectTimedOutTrace(s: Device, reason: Reason, r: Radio): seq<Device> {
    var cleared := if r.clearOk then [s.(station := BLANK)] else [];
    cleared + [Tell(Last(s, cleared), s.pending, StatusFor(reason)).(pending := None)]
  }

  function DisconnectTrace(s: Device, r: Radio): seq<Device> {
    if Provisioned(s.station) then ConnectWiFiTrace(s, NO_NETWORK, r) else []
  }

  function RevertTrace(s: Device, r: Radio): seq<Device> {
    if s.ssidKey.None? then []
    else if s.credentialsKey.None? then DeleteBackupTrace(s)
    else
      var s1 := s.(staging := Network(s.ssidKey.value, s.credentialsKey.value));
      var connect := if r.ap == Some(s1.staging.ssid) then [] else ConnectWiFiTrace(s1, s1.staging, r);
      [s1] + connect + DeleteBackupTrace(Last(s1, connect))
  }

  predicate RevertOk(s: Device, r: Radio) {
    s.ssidKey.None? ||
    (s.credentialsKey.Some? && (r.ap == Some(s.ssidKey.value) || ConnectWiFiOk(s, r)))
  }

  // Loading the configuration at boot; with a backup present the settled configuration is the backup.
  function Loaded(s: Device): Device {
    s.(on := true, staging := Load(s.station), pending := None,
       settled := if s.ssidKey.None? then Load(s.station) else s.settled)
  }

  function BootTrace(s: Device, r: Radio): seq<Device> {
    [Loaded(s)] + RevertTrace(Loaded(s), r)
  }

  // A device that is off only boots, and a device that is on does everything else.
  function Trace(s: Device, c: Command): seq<Device> {
    if s.on == c.Boot? then []
    else
      match c
      case Add(ssid, credentials, store) => AddTrace(s, ssid, credentials, store)
      case Remove(id, store) => RemoveTrace(s, id, store)
      case Connect(id, callback, store, radio) => ConnectTrace(s, id, callback, store, radio)
      case Connected => ConnectedTrace(s)
      case ConnectTimedOut(reason, radio) => ConnectTimedOutTrace(s, reason, radio)
      case Disconnect(radio) => DisconnectTrace(s, radio)
      case Commit => DeleteBackupTrace(s)
      case Revert(radio) => RevertTrace(s, radio)
      case Boot(radio) => BootTrace(s, radio)
  }

  function Exec(s: Device, c: Command): Device { Last(s, Trace(s, c)) }

  // Losing power loses what is in RAM.
  function PowerLoss(s: Device): Device {
    s.(on := false, staging := NO_NETWORK, pending := None)
  }

  // -------------------------------------------------------------------------
  // Runs with power losses anywhere
  // -------------------------------------------------------------------------

  // A command that completes, or one cut by a power loss after its first `steps` states.
  datatype Happening = Completed(c: Command) | CutAfter(c: Command, steps: nat)

  function Passed(s: Device, h: Happening): seq<Device> {
    match h
    case Completed(c) => Trace(s, c)
    case CutAfter(c, steps) =>
      var trace := Trace(s, c);
      var reached := if steps <= |trace| then trace[..steps] else trace;
      reached + [PowerLoss(Last(s, reached))]
  }

  // Every state of the run, between any two operations on the store or the flash.
  function Points(s: Device, run: seq<Happening>): seq<Device>
    decreases |run|
  {
    if run == [] then [s]
    else [s] + Passed(s, run[0]) + Points(Last(s, Passed(s, run[0])), run[1..])
  }

  function After(s: Device, run: seq<Happening>): Device
    decreases |run|
  {
    if run == [] then s else After(Last(s, Passed(s, run[0])), run[1..])
  }

  // -------------------------------------------------------------------------
  // The safety property
  // -------------------------------------------------------------------------

  predicate Fits(n: Network) { |n.ssid| <= MAX_SSID && |n.credentials| <= MAX_KEY }

  // The marker key only exists with a complete backup of the settled configuration; without it the
  // staging configuration is the settled one.
  predicate Safe(s: Device) {
    && (s.ssidKey.Some? ==>
          s.credentialsKey.Some? && Network(s.ssidKey.value, s.credentialsKey.value) == s.settled)
    && (s.on && s.ssidKey.None? ==> s.staging == s.settled)
    && Fits(s.settled) && Fits(s.staging)
    && |s.station.ssid| == MAX_SSID && |s.station.password| == MAX_KEY
  }

  // A device as first switched on.
  function NewDevice(station: Station): Device {
    Device(false, None, None, station, NO_NETWORK, None, NO_NETWORK, [])
  }
}
