/** What each call of the driver answers and leaves behind, from the state before it. */
module FailSafeCalls {
  import opened Options
  import opened FailSafe
  import opened FailSafeProofs

  // A backup is there already, or both of its writes succeed.
  predicate CanBackUp(s: Device, store: Store) {
    s.ssidKey == None ==> store.putCredentialsOk && store.putSsidOk
  }

  // What an attempt to back up leaves of the keys: those of before if the marker is there; else the
  // credentials staged, if their write succeeds, and then the marker with the SSID staged, if its own does.
  predicate KeysBackedUp(s: Device, m: Device, store: Store) {
    if s.ssidKey != None then m.ssidKey == s.ssidKey && m.credentialsKey == s.credentialsKey
    else
      && m.credentialsKey == (if store.putCredentialsOk then Some(s.staging.credentials) else s.credentialsKey)
      && m.ssidKey == (if store.putCredentialsOk && store.putSsidOk then Some(s.staging.ssid) else None)
  }

  lemma BackupLeaves(s: Device, store: Store)
    ensures var m := Last(s, BackupTrace(s, store));
            KeysBackedUp(s, m, store) && m == s.(ssidKey := m.ssidKey, credentialsKey := m.credentialsKey)
    ensures CanBackUp(s, store) <==> BackupOk(s, store)
  {
  }

  // A network is staged exactly when no other one is, its fields are not too long and the old one is backed up;
  // every refusal leaves the staging network as it was, and says why.
  lemma AddDoes(s: Device, ssid: Bytes, credentials: Bytes, store: Store)
    requires s.on
    ensures var m, status := Exec(s, Add(ssid, credentials, store)), AddStatus(s, ssid, credentials, store);
            var other := s.staging.ssid != [] && s.staging.ssid != ssid;
            var long := |ssid| > 32 || |credentials| > 64;
            && (status == BoundsExceeded <==> other)
            && (status == OutOfRange <==> !other && long)
            && (status == UnknownError <==> !other && !long && !CanBackUp(s, store))
            && (status == Success <==> !other && !long && CanBackUp(s, store))
            && m.staging == (if status == Success then Network(ssid, credentials) else s.staging)
            && (if other || long then m == s else KeysBackedUp(s, m, store))
            && m == s.(ssidKey := m.ssidKey, credentialsKey := m.credentialsKey, staging := m.staging)
  {
    BackupLeaves(s, store);
  }

  // The network staged is removed exactly when it is the one named and it is backed up.
  lemma RemoveDoes(s: Device, id: Bytes, store: Store)
    requires s.on
    ensures var m, status := Exec(s, Remove(id, store)), RemoveStatus(s, id, store);
            && (status == NetworkIdNotFound <==> s.staging.ssid != id)
            && (status == UnknownError <==> s.staging.ssid == id && !CanBackUp(s, store))
            && (status == Success <==> s.staging.ssid == id && CanBackUp(s, store))
            && m.staging == Network(if status == Success then [] else s.staging.ssid, s.staging.credentials)
            && (if s.staging.ssid != id then m == s else KeysBackedUp(s, m, store))
            && m == s.(ssidKey := m.ssidKey, credentialsKey := m.credentialsKey, staging := m.staging)
  {
    BackupLeaves(s, store);
  }

  // Flash names a network.
  predicate HasNetwork(s: Device) { |s.station.ssid| > 0 && s.station.ssid[0] != 0 }

  // A disconnect takes the network out of flash, and a start would then load none; it does so exactly when there
  // is one and it can be cleared. Neither the staging network nor its backup changes.
  lemma DisconnectDoes(s: Device, r: Radio)
    requires Safe(s) && s.on
    ensures var m := Exec(s, Disconnect(r));
            && m == s.(station := m.station)
            && (if HasNetwork(s) && r.clearOk then !HasNetwork(m) && Load(m.station) == NO_NETWORK
                else m.station == s.station)
            && (HasNetwork(s) && r.clearOk ==> forall b :: b in m.station.ssid + m.station.password ==> b == 0)
            && |m.station.ssid| == MAX_SSID && |m.station.password| == MAX_KEY
  {
    ConnectWiFiSafe(s, NO_NETWORK, r);
  }

  // A wait that runs out takes the network out of flash, if it can be cleared, and tells the waiting callback,
  // once; nothing else changes.
  lemma TimeoutDoes(s: Device, reason: Reason, r: Radio)
    requires s.on
    ensures var m := Exec(s, ConnectTimedOut(reason, r));
            && m == s.(station := m.station, pending := None, told := m.told)
            && (if r.clearOk then Load(m.station) == NO_NETWORK
                                  && forall b :: b in m.station.ssid + m.station.password ==> b == 0
                else m.station == s.station)
            && (if s.pending == None then m.told == s.told else ToldFurther(s, m, s.pending))
  {
  }

  // An association tells the waiting callback, once; nothing else changes.
  lemma AssociationDoes(s: Device)
    requires s.on
    ensures var m := Exec(s, Connected);
            && m == s.(pending := None, told := m.told)
            && (if s.pending == None then m.told == s.told else m.told == s.told + [(s.pending.value, Success)])
  {
  }

  // A connect call leaves its callback waiting exactly when nothing refuses it, the device is not on that network
  // already and the timer starts; otherwise the callback is told at once, and none is waiting.
  lemma ConnectTells(s: Device, id: Bytes, callback: CallbackId, store: Store, r: Radio)
    requires Safe(s) && s.on
    ensures var m := Exec(s, Connect(id, Some(callback), store, r));
            var allowed := s.staging.ssid == id && CanBackUp(s, store) && s.pending == None;
            if allowed && r.ap != Some(id) && r.timerOk then m.pending == Some(callback) && m.told == s.told
            else
              && m.pending == None
              && m.told == s.told + [(callback, if s.staging.ssid != id then NetworkIdNotFound
                                                else if allowed && r.ap == Some(id) then Success
                                                else UnknownError)]
    ensures var m := Exec(s, Connect(id, None, store, r)); m.pending == None && m.told == s.told
  {
    ConnectEndsWith(s, id, Some(callback), store, r);
    ConnectEndsWith(s, id, None, store, r);
  }

  lemma ConnectEndsWith(s: Device, id: Bytes, callback: Option<CallbackId>, store: Store, r: Radio)
    requires Safe(s) && s.on
    ensures var m := Last(s, ConnectTrace(s, id, callback, store, r));
            var allowed := s.staging.ssid == id && CanBackUp(s, store) && s.pending == None;
            if allowed && r.ap != Some(id) && r.timerOk then m.pending == callback && m.told == s.told
            else
              && m.pending == None
              && m.told == Tell(s, callback, if s.staging.ssid != id then NetworkIdNotFound
                                             else if allowed && r.ap == Some(id) then Success
                                             else UnknownError).told
  {
    BackupLeaves(s, store);
    if s.staging.ssid == id {
      var s1 := Last(s, BackupTrace(s, store));
      var rest := ConnectBackedUpTrace(s1, BackupOk(s, store), callback, r);
      WritesAreQuiet(s1, s1.staging, store, r);
      var connect := ConnectWiFiTrace(s1, s1.staging, r);
      assert Last(s1, connect) == s1 || Last(s1, connect) in connect;
      assert Last(s, ConnectTrace(s, id, callback, store, r)) == rest[|rest| - 1];
    }
  }

  // A revert answers success exactly when there was nothing to revert, or the device is on the network of that
  // name, or every call that brings it back succeeds.
  lemma RevertAnswers(s: Device, r: Radio)
    requires Safe(s)
    ensures RevertOk(s, r) <==>
              || s.ssidKey == None
              || r.ap == Some(s.settled.ssid)
              || (r.disableOk && r.setOk && r.enableOk && (HasNetwork(s) ==> r.clearOk))
  {
  }
}
