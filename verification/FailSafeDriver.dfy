/**
  The Wi-Fi driver as the source writes it: a staging network, a pending callback and a persistent
  store updated in place. `history` records the state after every operation on the store or the
  flash, and each method is proved to go through exactly the states of FailSafe.dfy.
  */
module FailSafeDriver {
  import opened Options
  import opened FailSafe
  import opened FailSafeProofs

  class ESPWiFiDriver {
    // Persistent: the two keys of the store and the station configuration.
    var ssidKey: Option<Bytes>
    var credentialsKey: Option<Bytes>
    var station: Station
    // In RAM.
    var on: bool
    var staging: Network
    var connectCallback: Option<CallbackId>
    var told: seq<(CallbackId, Status)>

    ghost var settled: Network
    ghost var history: seq<Device>

    ghost function View(): Device
      reads this
    {
      Device(on, ssidKey, credentialsKey, station, staging, connectCallback, settled, told)
    }

    constructor (c: Station)
      ensures View() == NewDevice(c) && history == []
    {
      on, ssidKey, credentialsKey, station := false, None, None, c;
      staging, connectCallback, told := NO_NETWORK, None, [];
      settled, history := NO_NETWORK, [];
    }

    // The state is now one that a power loss could leave behind.
    ghost method Reached()
      modifies this`history
      ensures history == old(history) + [View()]
    {
      history := history + [View()];
    }

    method NotifyCallback(callback: Option<CallbackId>, status: Status)
      modifies this`told
      ensures View() == Tell(old(View()), callback, status)
    {
      if callback.Some? {
        told := told + [(callback.value, status)];
      }
    }

    method BackupConfiguration(store: Store) returns (ok: bool)
      modifies this`ssidKey, this`credentialsKey, this`history
      ensures ok == BackupOk(old(View()), store)
      ensures history == old(history) + BackupTrace(old(View()), store)
      ensures View() == Last(old(View()), BackupTrace(old(View()), store))
    {
      if ssidKey.Some? {
        return true;
      }
      if !store.putCredentialsOk {
        return false;
      }
      credentialsKey := Some(staging.credentials);
      Reached();
      if !store.putSsidOk {
        return false;
      }
      ssidKey := Some(staging.ssid);
      Reached();
      return true;
    }

    method DeleteBackup()
      modifies this`ssidKey, this`credentialsKey, this`settled, this`history
      ensures history == old(history) + DeleteBackupTrace(old(View()))
      ensures View() == Last(old(View()), DeleteBackupTrace(old(View())))
    {
      ssidKey := None;
      settled := staging;
      Reached();
      credentialsKey := None;
      Reached();
    }

    method CommitConfiguration()
      modifies this`ssidKey, this`credentialsKey, this`settled, this`history
      ensures history == old(history) + DeleteBackupTrace(old(View()))
      ensures View() == Last(old(View()), DeleteBackupTrace(old(View())))
    {
      DeleteBackup();
    }

    method ConnectWiFiNetwork(n: Network, r: Radio) returns (ok: bool)
      modifies this`station, this`history
      ensures ok == ConnectWiFiOk(old(View()), r)
      ensures history == old(history) + ConnectWiFiTrace(old(View()), n, r)
      ensures View() == Last(old(View()), ConnectWiFiTrace(old(View()), n, r))
    {
      if Provisioned(station) {
        if !r.clearOk {
          return false;
        }
        station := BLANK;
        Reached();
      }
      if !r.disableOk {
        return false;
      }
      if !r.setOk {
        return false;
      }
      station := StationFor(n);
      Reached();
      return r.enableOk;
    }

    method RevertConfiguration(r: Radio) returns (ok: bool)
      modifies this`ssidKey, this`credentialsKey, this`station, this`staging, this`settled, this`history
      ensures ok == RevertOk(old(View()), r)
      ensures history == old(history) + RevertTrace(old(View()), r)
      ensures View() == Last(old(View()), RevertTrace(old(View()), r))
    {
      if ssidKey.None? {
        return true;
      }
      ok := false;
      if credentialsKey.Some? {
        staging := Network(ssidKey.value, credentialsKey.value);
        Reached();
        if r.ap == Some(staging.ssid) {
          ok := true;
        } else {
          ok := ConnectWiFiNetwork(staging, r);
        }
      }
      DeleteBackup();
    }

    method LoadConfiguration()
      requires staging == NO_NETWORK
      modifies this
      ensures View() == Loaded(old(View())) && history == old(history) + [View()]
    {
      on := true;
      if Provisioned(station) {
        staging := Network(UpToNul(station.ssid), UpToNul(station.password));
      }
      connectCallback := None;
      settled := if ssidKey.None? then staging else settled;
      Reached();
    }

    // Start-up: loads the configuration kept in flash, and reverts if there is a backup.
    method Init(r: Radio) returns (ok: bool)
      requires !on && staging == NO_NETWORK
      modifies this
      ensures ok == RevertOk(Loaded(old(View())), r)
      ensures history == old(history) + BootTrace(old(View()), r)
      ensures View() == Last(Loaded(old(View())), RevertTrace(Loaded(old(View())), r))
    {
      LoadConfiguration();
      ok := RevertConfiguration(r);
    }

    method AddOrUpdateNetwork(ssid: Bytes, credentials: Bytes, store: Store) returns (status: Status)
      modifies this
      ensures status == AddStatus(old(View()), ssid, credentials, store)
      ensures history == old(history) + AddTrace(old(View()), ssid, credentials, store)
      ensures View() == Last(old(View()), AddTrace(old(View()), ssid, credentials, store))
    {
      if staging.ssid != [] && staging.ssid != ssid {
        return BoundsExceeded;
      }
      if |credentials| > MAX_KEY {
        return OutOfRange;
      }
      if |ssid| > MAX_SSID {
        return OutOfRange;
      }
      var ok := BackupConfiguration(store);
      if !ok {
        return UnknownError;
      }
      staging := staging.(credentials := credentials);
      staging := staging.(ssid := ssid);
      Reached();
      return Success;
    }

    method RemoveNetwork(id: Bytes, store: Store) returns (status: Status)
      modifies this
      ensures status == RemoveStatus(old(View()), id, store)
      ensures history == old(history) + RemoveTrace(old(View()), id, store)
      ensures View() == Last(old(View()), RemoveTrace(old(View()), id, store))
    {
      if staging.ssid != id {
        return NetworkIdNotFound;
      }
      var ok := BackupConfiguration(store);
      if !ok {
        return UnknownError;
      }
      staging := staging.(ssid := []);
      Reached();
      return Success;
    }

    method FailConnect(callback: Option<CallbackId>, status: Status)
      modifies this`connectCallback, this`told, this`history
      ensures View() == Refuse(old(View()), callback, status)
      ensures history == old(history) + [View()]
    {
      connectCallback := None;
      NotifyCallback(callback, status);
      Reached();
    }

    method Associate(callback: Option<CallbackId>, r: Radio)
      modifies this`station, this`connectCallback, this`told, this`history
      ensures history == old(history) + AssociateTrace(old(View()), callback, r)
      ensures View() == Last(old(View()), AssociateTrace(old(View()), callback, r))
    {
      var ok := ConnectWiFiNetwork(staging, r);
      ok := r.timerOk;
      connectCallback := callback;
      if !ok {
        FailConnect(callback, UnknownError);
      } else {
        Reached();
      }
    }

    // ConnectNetwork once the backup has been attempted.
    method ConnectBackedUp(backedUp: bool, callback: Option<CallbackId>, r: Radio)
      modifies this`station, this`connectCallback, this`told, this`history
      ensures history == old(history) + ConnectBackedUpTrace(old(View()), backedUp, callback, r)
      ensures View() == Last(old(View()), ConnectBackedUpTrace(old(View()), backedUp, callback, r))
    {
      if !backedUp || connectCallback.Some? {
        FailConnect(callback, UnknownError);
      } else if r.ap == Some(staging.ssid) {
        NotifyCallback(callback, Success);
        Reached();
      } else {
        Associate(callback, r);
      }
    }

    method ConnectNetwork(id: Bytes, callback: Option<CallbackId>, store: Store, r: Radio)
      modifies this
      ensures history == old(history) + ConnectTrace(old(View()), id, callback, store, r)
      ensures View() == Last(old(View()), ConnectTrace(old(View()), id, callback, store, r))
    {
      if staging.ssid != id {
        FailConnect(callback, NetworkIdNotFound);
      } else {
        var ok := BackupConfiguration(store);
        ConnectBackedUp(ok, callback, r);
      }
    }

    method OnConnectWiFiNetwork()
      modifies this`connectCallback, this`told, this`history
      ensures history == old(history) + ConnectedTrace(old(View()))
      ensures View() == Last(old(View()), ConnectedTrace(old(View())))
    {
      NotifyCallback(connectCallback, Success);
      connectCallback := None;
      Reached();
    }

    method OnConnectWiFiNetworkFailed(reason: Reason, r: Radio)
      modifies this`station, this`connectCallback, this`told, this`history
      ensures history == old(history) + ConnectTimedOutTrace(old(View()), reason, r)
      ensures View() == Last(old(View()), ConnectTimedOutTrace(old(View()), reason, r))
    {
      if r.clearOk {
        station := BLANK;
        Reached();
      }
      if connectCallback.Some? {
        var status := OtherConnectionFailure;
        match reason {
          case AuthFail | FourWayHandshakeTimeout | HandshakeTimeout | MicFailure | ConnectionFail =>
            status := AuthFailure;
          case NoApFound =>
            status := NetworkNotFound;
          case _ =>
        }
        NotifyCallback(connectCallback, status);
        connectCallback := None;
      }
      Reached();
    }

    method DisconnectFromNetwork(r: Radio) returns (ok: bool)
      modifies this`station, this`history
      ensures ok == (Provisioned(old(station)) ==> ConnectWiFiOk(old(View()), r))
      ensures history == old(history) + DisconnectTrace(old(View()), r)
      ensures View() == Last(old(View()), DisconnectTrace(old(View()), r))
    {
      ok := true;
      if Provisioned(station) {
        ok := ConnectWiFiNetwork(NO_NETWORK, r);
      }
    }

    method LosePower()
      modifies this
      ensures View() == PowerLoss(old(View())) && history == old(history) + [View()]
    {
      on, staging, connectCallback := false, NO_NETWORK, None;
      Reached();
    }

    // A device that is off only starts, and one that is on does everything else.
    method Execute(c: Command)
      requires Safe(View()) && (!on ==> staging == NO_NETWORK)
      modifies this
      ensures !on ==> staging == NO_NETWORK
      ensures history == old(history) + Trace(old(View()), c)
      ensures View() == Exec(old(View()), c)
    {
      StaysOn(View(), c);
      if on == c.Boot? {
        return;
      }
      if c.Add? {
        var _ := AddOrUpdateNetwork(c.ssid, c.credentials, c.store);
      } else if c.Remove? {
        var _ := RemoveNetwork(c.id, c.store);
      } else if c.Connect? {
        ConnectNetwork(c.id, c.callback, c.store, c.radio);
      } else if c.Connected? {
        OnConnectWiFiNetwork();
      } else if c.ConnectTimedOut? {
        OnConnectWiFiNetworkFailed(c.reason, c.radio);
      } else if c.Disconnect? {
        var _ := DisconnectFromNetwork(c.radio);
      } else if c.Commit? {
        CommitConfiguration();
      } else if c.Revert? {
        var _ := RevertConfiguration(c.radio);
      } else {
        var _ := Init(c.radio);
      }
    }

    // Life after life, each ended by a power loss: every state that the store and the flash have ever been in
    // is safe.
    method Live(lives: seq<seq<Command>>)
      requires Safe(View()) && AllSafe(history) && (!on ==> staging == NO_NETWORK)
      modifies this
      ensures Safe(View()) && AllSafe(history) && old(history) <= history
    {
      for i := 0 to |lives|
        invariant Safe(View()) && AllSafe(history) && old(history) <= history && (!on ==> staging == NO_NETWORK)
      {
        for k := 0 to |lives[i]|
          invariant Safe(View()) && AllSafe(history) && old(history) <= history
          invariant !on ==> staging == NO_NETWORK
        {
          TraceSafe(View(), lives[i][k]);
          Execute(lives[i][k]);
        }
        LosePower();
      }
    }
  }
}
