/**
  What a connect callback's success says about the network that was asked for. The Wi-Fi layer joins the
  network that is in flash, and the driver tells the waiting callback success at the next association.
  */
module FailSafeSuccess {
  import opened Options
  import opened FailSafe
  import opened FailSafeProofs

  // The network asked for is in flash once a connect call has done its writes: the old configuration could
  // not be cleared and is that network, or what was cleared was written, or needed no writing.
  predicate ConnectHolds(s: Device, r: Radio) {
    if Provisioned(s.station) && !r.clearOk then s.station == StationFor(s.staging)
    else (r.disableOk && r.setOk) || StationFor(s.staging) == if Provisioned(s.station) then BLANK else s.station
  }

  predicate Named(n: Network) { n.ssid != [] && n.ssid[0] != 0 }

  // For a network with a name nothing but a write puts it in flash.
  lemma NamedConnectHolds(s: Device, r: Radio)
    requires Safe(s) && Named(s.staging)
    ensures ConnectHolds(s, r) <==>
            || (r.disableOk && r.setOk && (Provisioned(s.station) ==> r.clearOk))
            || (Provisioned(s.station) && !r.clearOk && s.station == StationFor(s.staging))
  {
    assert Provisioned(StationFor(s.staging));
  }

  // A connect call that starts its timer leaves the callback waiting, whether its writes succeeded or not.
  lemma ConnectLeaves(s: Device, callback: CallbackId, store: Store, r: Radio)
    requires Safe(s) && s.on && s.pending == None && BackupOk(s, store)
    requires r.ap != Some(s.staging.ssid) && r.timerOk
    ensures var m := Exec(s, Connect(s.staging.ssid, Some(callback), store, r));
            && Safe(m) && m.on && m.pending == Some(callback) && m.told == s.told && m.staging == s.staging
            && m.settled == s.settled && (m.ssidKey.Some? <==> BackupOk(s, store))
            && (m.station == StationFor(s.staging) <==> ConnectHolds(s, r))
  {
    var s1 := Last(s, BackupTrace(s, store));
    BackupSafe(s, store);
    BackupKeepsCallbacks(s, store);
    TraceSafe(s, Connect(s.staging.ssid, Some(callback), store, r));
    AssociateLeaves(s1, callback, r);
    var rest := ConnectBackedUpTrace(s1, true, Some(callback), r);
    assert Exec(s, Connect(s.staging.ssid, Some(callback), store, r)) == rest[|rest| - 1];
  }

  lemma AssociateLeaves(s: Device, callback: CallbackId, r: Radio)
    requires r.timerOk
    ensures var trace := AssociateTrace(s, Some(callback), r);
            var m := trace[|trace| - 1];
            && m == s.(pending := Some(callback), station := m.station)
            && (m.station == StationFor(s.staging) <==> ConnectHolds(s, r))
  {
  }

  // Adding, removing and committing networks touch neither the callback nor the flash.
  lemma {:induction false} EditsLeave(s: Device, cs: seq<Command>)
    requires Safe(s) && s.on && forall c :: c in cs ==> c.Add? || c.Remove? || c.Commit?
    ensures var m := ExecAll(s, cs);
            Safe(m) && m.on && m.pending == s.pending && m.told == s.told && m.station == s.station
    decreases |cs|
  {
    if cs != [] {
      var c := cs[0];
      TraceSafe(s, c);
      if c.Add? || c.Remove? {
        BackupSafe(s, c.store);
        BackupKeepsCallbacks(s, c.store);
      }
      EditsLeave(Exec(s, c), cs[1..]);
    }
  }

  // After a connect call, and any networks added, removed or committed since, an association tells the
  // callback success. The network in flash, which is the one joined, is the one asked for iff the condition
  // on the state before the call holds.
  lemma SuccessExactly(s: Device, callback: CallbackId, store: Store, r: Radio, between: seq<Command>)
    requires Safe(s) && s.on && s.pending == None && BackupOk(s, store)
    requires r.ap != Some(s.staging.ssid) && r.timerOk
    requires forall c :: c in between ==> c.Add? || c.Remove? || c.Commit?
    ensures var m := ExecAll(Exec(s, Connect(s.staging.ssid, Some(callback), store, r)), between);
            && Exec(m, Connected).told == s.told + [(callback, Success)]
            && (m.station == StationFor(s.staging) <==> ConnectHolds(s, r))
  {
    ConnectLeaves(s, callback, store, r);
    EditsLeave(Exec(s, Connect(s.staging.ssid, Some(callback), store, r)), between);
  }

  // A callback told success at once is told so because of the network's name: flash is not written, so a key
  // that was changed is not in it.
  lemma SuccessAtOnce(s: Device, callback: CallbackId, store: Store, r: Radio)
    requires Safe(s) && s.on && s.pending == None && BackupOk(s, store) && r.ap == Some(s.staging.ssid)
    ensures var m := Exec(s, Connect(s.staging.ssid, Some(callback), store, r));
            && m.told == s.told + [(callback, Success)] && m.pending == None
            && (m.station == StationFor(s.staging) <==> s.station == StationFor(s.staging))
  {
    BackupSafe(s, store);
    BackupKeepsCallbacks(s, store);
    var s1 := Last(s, BackupTrace(s, store));
    assert ConnectBackedUpTrace(s1, true, Some(callback), r) == [Tell(s1, Some(callback), Success)];
  }

  // A device on one network is given another instead and asked to connect with it, and the old configuration
  // cannot be cleared. When the device is next associated, with the old network, the callback for the new one
  // is told success.
  lemma SuccessForAnother(s: Device, n: Network, callback: CallbackId, store: Store, r: Radio)
    requires Safe(s) && s.on && s.pending == None && s.ssidKey.None?
    requires Named(s.staging) && s.station == StationFor(s.staging)
    requires Fits(n) && n.ssid != s.staging.ssid && store.putCredentialsOk && store.putSsidOk
    requires r.ap == Some(s.staging.ssid) && !r.clearOk && r.timerOk
    ensures var removed := Exec(s, Remove(s.staging.ssid, store));
            var added := Exec(removed, Add(n.ssid, n.credentials, store));
            var m := Exec(added, Connect(n.ssid, Some(callback), store, r));
            && added.staging == n && m.station == StationFor(s.staging)
            && Exec(m, Connected).told == s.told + [(callback, Success)]
  {
    var removed := Exec(s, Remove(s.staging.ssid, store));
    RemoveStages(s, store);
    AddStages(removed, n.ssid, n.credentials, store);
    var added := Exec(removed, Add(n.ssid, n.credentials, store));
    EditsLeave(s, [Remove(s.staging.ssid, store)]);
    EditsLeave(removed, [Add(n.ssid, n.credentials, store)]);
    ConnectLeaves(added, callback, store, r);
    KeptWhenNotCleared(added, callback, store, r);
  }

  lemma RemoveStages(s: Device, store: Store)
    requires Safe(s) && s.on && BackupOk(s, store)
    ensures var m := Exec(s, Remove(s.staging.ssid, store));
            && Safe(m) && m.on && m.ssidKey.Some? && m.staging == s.staging.(ssid := [])
            && m.pending == s.pending && m.told == s.told && m.station == s.station
  {
    TraceSafe(s, Remove(s.staging.ssid, store));
    BackupSafe(s, store);
    BackupKeepsCallbacks(s, store);
  }

  lemma KeptWhenNotCleared(s: Device, callback: CallbackId, store: Store, r: Radio)
    requires Safe(s) && s.on && s.pending == None && s.ssidKey.Some?
    requires Provisioned(s.station) && !r.clearOk && r.timerOk && r.ap != Some(s.staging.ssid)
    ensures Exec(s, Connect(s.staging.ssid, Some(callback), store, r)).station == s.station
  {
    assert BackupTrace(s, store) == [];
  }

  // A revert does not tell the callback that is waiting either: the next association, with the network that
  // was put back, tells it success.
  lemma SuccessAfterRevert(s: Device, callback: CallbackId, store: Store, r: Radio, reverting: Radio)
    requires Safe(s) && s.on && s.pending == None && BackupOk(s, store)
    requires r.ap != Some(s.staging.ssid) && r.timerOk
    requires reverting.ap != Some(s.settled.ssid) && reverting.clearOk && reverting.disableOk
    requires reverting.setOk && reverting.enableOk
    ensures var m := Exec(Exec(s, Connect(s.staging.ssid, Some(callback), store, r)), Revert(reverting));
            && m.station == StationFor(s.settled)
            && Exec(m, Connected).told == s.told + [(callback, Success)]
  {
    ConnectLeaves(s, callback, store, r);
    var m := Exec(s, Connect(s.staging.ssid, Some(callback), store, r));
    RevertSettles(m, reverting);
    RevertKeepsCallbacks(m, reverting);
  }
}
