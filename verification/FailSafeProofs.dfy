/** What the two-key backup promises: proofs about the traces of FailSafe.dfy. */
module FailSafeProofs {
  import opened Options
  import opened FailSafe

  ghost predicate AllSafe(trace: seq<Device>) {
    forall i :: 0 <= i < |trace| ==> Safe(trace[i])
  }

  lemma {:induction false} UpToNulPrefix(s: Bytes)
    ensures UpToNul(s) <= s && 0 !in UpToNul(s)
  {
    if s != [] && s[0] != 0 {
      UpToNulPrefix(s[1..]);
    }
  }

  lemma {:induction false} UpToNulOfPadded(s: Bytes, n: nat)
    requires 0 !in s
    ensures UpToNul(s + Zeros(n)) == s
  {
    if s == [] {
      assert s + Zeros(n) == Zeros(n);
    } else {
      assert (s + Zeros(n))[1..] == s[1..] + Zeros(n);
      UpToNulOfPadded(s[1..], n);
    }
  }

  // A configuration survives being written to flash and loaded at the next boot exactly when neither
  // field holds a NUL, and it has no credentials if it has no SSID.
  predicate Storable(n: Network) {
    0 !in n.ssid && 0 !in n.credentials && (n.ssid == [] ==> n.credentials == [])
  }

  lemma StationRoundTrip(n: Network)
    requires Fits(n)
    ensures Load(StationFor(n)) == n <==> Storable(n)
  {
    var c := StationFor(n);
    assert Padded(n.ssid, MAX_SSID) == n.ssid + Zeros(MAX_SSID - |n.ssid|);
    assert Padded(n.credentials, MAX_KEY) == n.credentials + Zeros(MAX_KEY - |n.credentials|);
    if 0 !in n.ssid && 0 !in n.credentials {
      UpToNulOfPadded(n.ssid, MAX_SSID - |n.ssid|);
      UpToNulOfPadded(n.credentials, MAX_KEY - |n.credentials|);
    }
    UpToNulPrefix(c.ssid);
    UpToNulPrefix(c.password);
  }

  lemma LoadFits(c: Station)
    requires |c.ssid| == MAX_SSID && |c.password| == MAX_KEY
    ensures Fits(Load(c))
  {
    UpToNulPrefix(c.ssid);
    UpToNulPrefix(c.password);
  }

  // -------------------------------------------------------------------------
  // Safety at every point of every run
  // -------------------------------------------------------------------------

  lemma BackupSafe(s: Device, store: Store)
    requires Safe(s) && s.on
    ensures AllSafe(BackupTrace(s, store))
    ensures var m := Last(s, BackupTrace(s, store));
            && m.staging == s.staging && m.settled == s.settled && m.on && m.station == s.station
            && (BackupOk(s, store) ==> m.ssidKey.Some?)
  {
  }

  lemma ConnectWiFiSafe(s: Device, n: Network, r: Radio)
    requires Safe(s)
    ensures AllSafe(ConnectWiFiTrace(s, n, r))
    ensures var m := Last(s, ConnectWiFiTrace(s, n, r));
            Safe(m) && m == s.(station := m.station)
    ensures ConnectWiFiOk(s, r) ==> Last(s, ConnectWiFiTrace(s, n, r)).station == StationFor(n)
  {
  }

  lemma DeleteBackupSafe(s: Device)
    requires Safe(s) && s.on
    ensures AllSafe(DeleteBackupTrace(s))
  {
  }

  lemma RevertSafe(s: Device, r: Radio)
    requires Safe(s) && s.on
    ensures AllSafe(RevertTrace(s, r))
  {
    if s.ssidKey.Some? {
      var s1 := s.(staging := Network(s.ssidKey.value, s.credentialsKey.value));
      var connect := if r.ap == Some(s1.staging.ssid) then [] else ConnectWiFiTrace(s1, s1.staging, r);
      ConnectWiFiSafe(s1, s1.staging, r);
      DeleteBackupSafe(Last(s1, connect));
    }
  }

  lemma ConnectSafe(s: Device, id: Bytes, callback: Option<CallbackId>, store: Store, r: Radio)
    requires Safe(s) && s.on
    ensures AllSafe(ConnectTrace(s, id, callback, store, r))
  {
    var backup := BackupTrace(s, store);
    var s1 := Last(s, backup);
    BackupSafe(s, store);
    ConnectWiFiSafe(s1, s1.staging, r);
  }

  lemma EditSafe(s: Device, c: Command)
    requires Safe(s) && s.on && (c.Add? || c.Remove?)
    ensures AllSafe(Trace(s, c))
  {
    BackupSafe(s, c.store);
  }

  lemma LinkSafe(s: Device, c: Command)
    requires Safe(s) && s.on && (c.Connected? || c.ConnectTimedOut? || c.Disconnect?)
    ensures AllSafe(Trace(s, c))
  {
    if c.Disconnect? {
      ConnectWiFiSafe(s, NO_NETWORK, c.radio);
    }
  }

  lemma BootSafe(s: Device, r: Radio)
    requires Safe(s)
    ensures AllSafe(BootTrace(s, r))
  {
    LoadFits(s.station);
    RevertSafe(Loaded(s), r);
  }

  lemma LastSafe(s: Device, trace: seq<Device>)
    requires Safe(s) && AllSafe(trace)
    ensures Safe(Last(s, trace))
  {
  }

  lemma TraceSafe(s: Device, c: Command)
    requires Safe(s)
    ensures AllSafe(Trace(s, c)) && Safe(Exec(s, c))
  {
    if s.on != c.Boot? {
      if c.Add? || c.Remove? {
        EditSafe(s, c);
      } else if c.Connect? {
        ConnectSafe(s, c.id, c.callback, c.store, c.radio);
      } else if c.Commit? {
        DeleteBackupSafe(s);
      } else if c.Revert? {
        RevertSafe(s, c.radio);
      } else if c.Boot? {
        BootSafe(s, c.radio);
      } else {
        LinkSafe(s, c);
      }
    }
    LastSafe(s, Trace(s, c));
  }

  lemma PassedSafe(s: Device, h: Happening)
    requires Safe(s)
    ensures AllSafe(Passed(s, h)) && Safe(Last(s, Passed(s, h)))
  {
    TraceSafe(s, h.c);
  }

  // At every point of every run, with power losses anywhere: if the SSID key exists then so does the
  // credentials key and the two hold the settled configuration, and if it does not then the staging
  // configuration of a running device is the settled one.
  lemma {:induction false} EveryPointIsSafe(s: Device, run: seq<Happening>)
    requires Safe(s)
    ensures AllSafe(Points(s, run)) && Safe(After(s, run))
    decreases |run|
  {
    if run != [] {
      PassedSafe(s, run[0]);
      EveryPointIsSafe(Last(s, Passed(s, run[0])), run[1..]);
    }
  }

  lemma NewDeviceIsSafe(station: Station)
    requires |station.ssid| == MAX_SSID && |station.password| == MAX_KEY
    ensures Safe(NewDevice(station))
  {
  }

  // -------------------------------------------------------------------------
  // Reverting
  // -------------------------------------------------------------------------

  predicate IsEdit(c: Command) {
    c.Add? || c.Remove? || c.Connect? || c.Connected? || c.ConnectTimedOut? || c.Disconnect?
  }

  function ExecAll(s: Device, cs: seq<Command>): Device
    decreases |cs|
  {
    if cs == [] then s else ExecAll(Exec(s, cs[0]), cs[1..])
  }

  // The callback, if any, has been called once more.
  predicate ToldFurther(s: Device, m: Device, callback: Option<CallbackId>) {
    callback.Some? && |m.told| == |s.told| + 1 && s.told <= m.told && m.told[|s.told|].0 == callback.value
  }

  // Where a connect call ends.
  lemma ConnectEnds(s: Device, id: Bytes, callback: Option<CallbackId>, store: Store, r: Radio)
    requires Safe(s) && s.on
    ensures var m := Last(s, ConnectTrace(s, id, callback, store, r));
            && m.on && m.settled == s.settled && m.staging == s.staging
            && (m.told == s.told || ToldFurther(s, m, callback))
            && (m.pending == None || (m.pending == callback && m.told == s.told))
  {
    var backup := BackupTrace(s, store);
    var s1 := Last(s, backup);
    var connect := ConnectWiFiTrace(s1, s1.staging, r);
    var s2 := Last(s1, connect);
    BackupSafe(s, store);
    BackupKeepsCallbacks(s, store);
    ConnectWiFiSafe(s1, s1.staging, r);
    assert s2.told == s.told && s2.settled == s.settled && s2.staging == s.staging && s2.on;
    var m := Last(s, ConnectTrace(s, id, callback, store, r));
    if s.staging.ssid != id {
      assert m == Refuse(s, callback, NetworkIdNotFound);
    } else if !BackupOk(s, store) || s.pending.Some? {
      assert m == Refuse(s1, callback, UnknownError);
    } else if r.ap == Some(s.staging.ssid) {
      assert m == Tell(s1, callback, Success);
    } else {
      assert m == Last(s1, AssociateTrace(s1, callback, r));
    }
  }

  lemma EditKeepsSettled(s: Device, c: Command)
    requires Safe(s) && s.on && IsEdit(c)
    ensures Safe(Exec(s, c)) && Exec(s, c).on && Exec(s, c).settled == s.settled
  {
    TraceSafe(s, c);
    if c.Connect? {
      ConnectEnds(s, c.id, c.callback, c.store, c.radio);
    } else if c.Add? || c.Remove? {
      BackupSafe(s, c.store);
    } else if c.Disconnect? {
      ConnectWiFiSafe(s, NO_NETWORK, c.radio);
    }
  }

  // Only a power loss turns a device off.
  lemma StaysOn(s: Device, c: Command)
    requires Safe(s)
    ensures Exec(s, c).on <==> s.on || c.Boot?
  {
    if s.on && IsEdit(c) {
      EditKeepsSettled(s, c);
    } else if s.on && c.Revert? {
      RevertSettles(s, c.radio);
    } else if s.on && c.Commit? {
      CommitSettles(s);
    } else if !s.on && c.Boot? {
      BootStarts(s, c.radio);
    }
  }

  lemma BootStarts(s: Device, r: Radio)
    requires Safe(s) && !s.on
    ensures Exec(s, Boot(r)).on
  {
    LoadFits(s.station);
    RevertSettles(Loaded(s), r);
    var trace := RevertTrace(Loaded(s), r);
    assert Exec(s, Boot(r)) == Last(Loaded(s), trace);
  }

  // What a complete revert leaves behind.
  lemma RevertSettles(s: Device, r: Radio)
    requires Safe(s) && s.on
    ensures var m := Exec(s, Revert(r));
            && Safe(m) && m.on && m.staging == s.settled && m.settled == s.settled
            && m.ssidKey.None? && (s.ssidKey.Some? ==> m.credentialsKey.None?)
            && (s.ssidKey.None? ==> m == s)
            && (s.ssidKey.Some? && r.ap == Some(s.settled.ssid) ==> m.station == s.station)
            && (s.ssidKey.Some? && r.ap != Some(s.settled.ssid) && ConnectWiFiOk(s, r) ==>
                  m.station == StationFor(s.settled))
  {
    TraceSafe(s, Revert(r));
    if s.ssidKey.Some? {
      var s1 := s.(staging := s.settled);
      ConnectWiFiSafe(s1, s1.staging, r);
    }
  }

  // Reverting after any sequence of add, update, remove and connect calls, successful or not, restores
  // the SSID and credentials of the last commit; reverting again changes nothing.
  lemma {:induction false} RevertRestores(s: Device, edits: seq<Command>, r1: Radio, r2: Radio)
    requires Safe(s) && s.on
    requires forall c :: c in edits ==> IsEdit(c)
    ensures var reverted := Exec(ExecAll(s, edits), Revert(r1));
            && reverted.staging == s.settled && reverted.settled == s.settled
            && Exec(reverted, Revert(r2)) == reverted
    decreases |edits|
  {
    if edits == [] {
      RevertSettles(s, r1);
      RevertSettles(Exec(s, Revert(r1)), r2);
    } else {
      EditKeepsSettled(s, edits[0]);
      RevertRestores(Exec(s, edits[0]), edits[1..], r1, r2);
    }
  }

  // A commit makes the staging configuration the one every later revert restores.
  lemma CommitSettles(s: Device)
    requires Safe(s) && s.on
    ensures var m := Exec(s, Commit);
            m.settled == s.staging == m.staging && m.ssidKey.None? && m.credentialsKey.None?
  {
  }

  lemma AddStages(s: Device, ssid: Bytes, credentials: Bytes, store: Store)
    requires Safe(s) && s.on && AddStatus(s, ssid, credentials, store) == Success
    ensures var m := Exec(s, Add(ssid, credentials, store));
            Safe(m) && m.on && m.staging == Network(ssid, credentials) && m.ssidKey.Some? && m.pending == s.pending
  {
    TraceSafe(s, Add(ssid, credentials, store));
    BackupSafe(s, store);
    BackupKeepsCallbacks(s, store);
  }

  lemma ConnectWrites(s: Device, callback: Option<CallbackId>, store: Store, r: Radio)
    requires Safe(s) && s.on && s.pending == None && s.ssidKey.Some?
    requires r.ap != Some(s.staging.ssid) && ConnectWiFiOk(s, r)
    ensures var m := Exec(s, Connect(s.staging.ssid, callback, store, r));
            Safe(m) && m.on && m.staging == s.staging && m.station == StationFor(s.staging)
  {
    TraceSafe(s, Connect(s.staging.ssid, callback, store, r));
    assert BackupTrace(s, store) == [];
    ConnectWiFiSafe(s, s.staging, r);
  }

  lemma CommitKeepsStation(s: Device)
    requires Safe(s) && s.on
    ensures var m := Exec(s, Commit); m.station == s.station && m.settled == s.staging && m.ssidKey.None?
  {
  }

  // Without the marker, booting loads what is in flash.
  lemma BootWithoutBackup(s: Device, r: Radio)
    requires !s.on && s.ssidKey.None?
    ensures Exec(s, Boot(r)).staging == Load(s.station)
  {
    assert BootTrace(s, r) == [Loaded(s)];
  }

  // Provisioning end to end: a network added, connected to and committed is the settled one, and a
  // device that loses power afterwards comes back with it exactly when flash can hold it.
  lemma ProvisioningSurvivesPowerLoss(s: Device, ssid: Bytes, credentials: Bytes, store: Store,
                                      callback: Option<CallbackId>, r: Radio, r2: Radio)
    requires Safe(s) && s.on && s.pending == None
    requires AddStatus(s, ssid, credentials, store) == Success
    requires r.ap != Some(ssid) && r.clearOk && r.disableOk && r.setOk && r.enableOk
    ensures var added := Exec(s, Add(ssid, credentials, store));
            var connected := Exec(added, Connect(ssid, callback, store, r));
            var committed := Exec(connected, Commit);
            var n := Network(ssid, credentials);
            && committed.settled == n
            && (Exec(PowerLoss(committed), Boot(r2)).staging == n <==>
                  Storable(n))
  {
    var added := Exec(s, Add(ssid, credentials, store));
    AddStages(s, ssid, credentials, store);
    var connected := Exec(added, Connect(ssid, callback, store, r));
    ConnectWrites(added, callback, store, r);
    CommitKeepsStation(connected);
    BootWithoutBackup(PowerLoss(Exec(connected, Commit)), r2);
    StationRoundTrip(Network(ssid, credentials));
  }

  // -------------------------------------------------------------------------
  // Reverting across power losses
  // -------------------------------------------------------------------------

  // With the marker present, booting restores the settled configuration.
  lemma BootWithBackup(s: Device, r: Radio)
    requires Safe(s) && !s.on && s.ssidKey.Some?
    ensures var m := Exec(s, Boot(r));
            m.on && m.staging == s.settled && m.settled == s.settled && m.ssidKey.None?
  {
    LoadFits(s.station);
    RevertSettles(Loaded(s), r);
    assert Exec(s, Boot(r)) == Exec(Loaded(s), Revert(r)) by {
      assert BootTrace(s, r)[1..] == RevertTrace(Loaded(s), r);
    }
  }

  // Boots cut by further power losses: as long as the marker is there, nothing else has changed.
  lemma {:induction false} CutBootsKeepBackup(s: Device, boots: seq<Happening>)
    requires Safe(s) && !s.on
    requires forall h :: h in boots ==> h.CutAfter? && h.c.Boot?
    ensures Safe(After(s, boots)) && !After(s, boots).on
    ensures After(s, boots).ssidKey.Some? ==> s.ssidKey.Some? && After(s, boots).settled == s.settled
    decreases |boots|
  {
    if boots != [] {
      var h := boots[0];
      PassedSafe(s, h);
      var trace := Trace(s, h.c);
      var reached := if h.steps <= |trace| then trace[..h.steps] else trace;
      BootStates(s, h.c.radio);
      assert Last(s, reached) == s || Last(s, reached) in trace;
      CutBootsKeepBackup(Last(s, Passed(s, h)), boots[1..]);
    }
  }

  lemma BootStates(s: Device, r: Radio)
    requires Safe(s) && !s.on
    ensures forall p :: p in BootTrace(s, r) && p.ssidKey.Some? ==> s.ssidKey.Some? && p.settled == s.settled
  {
    LoadFits(s.station);
    var l := Loaded(s);
    if s.ssidKey.Some? {
      var s1 := l.(staging := Network(l.ssidKey.value, l.credentialsKey.value));
      var connect := if r.ap == Some(s1.staging.ssid) then [] else ConnectWiFiTrace(s1, s1.staging, r);
      assert forall p :: p in connect ==> p.settled == s.settled;
    }
  }

  // The writes of a revert to the configuration in flash.
  function RevertWrites(s: Device, r: Radio): seq<Device> {
    var s1 := s.(staging := s.settled);
    if s.ssidKey.None? || r.ap == Some(s.settled.ssid) then [] else ConnectWiFiTrace(s1, s.settled, r)
  }

  // A revert leaves the settled configuration in flash: it was there already and is not written over, or
  // there is none and flash was cleared, or it is written and flash can hold it.
  predicate RevertHolds(s: Device, r: Radio) {
    if s.ssidKey.None? || r.ap == Some(s.settled.ssid) || (Provisioned(s.station) && !r.clearOk)
    then Load(s.station) == s.settled
    else if !r.disableOk || !r.setOk then s.settled == NO_NETWORK
    else Storable(s.settled)
  }

  lemma BlankLoadsNothing()
    ensures Load(BLANK) == NO_NETWORK
  {
  }

  // What the writes leave in flash.
  lemma RevertFlash(s: Device, r: Radio)
    requires Safe(s)
    ensures Load(Last(s, RevertWrites(s, r)).station) == s.settled <==> RevertHolds(s, r)
  {
    BlankLoadsNothing();
    StationRoundTrip(s.settled);
  }

  // Until its writes are done a revert has changed the staging configuration only; then the marker goes.
  lemma RevertStages(s: Device, steps: nat, r: Radio)
    requires Safe(s) && s.on && s.ssidKey.Some?
    ensures var trace, writes := RevertTrace(s, r), RevertWrites(s, r);
            var reached := if steps <= |trace| then trace[..steps] else trace;
            var m := Last(s, reached);
            && m.settled == s.settled && m.on
            && (m.ssidKey.Some? <==> steps <= 1 + |writes|)
            && (m.ssidKey.None? ==> m.station == Last(s, writes).station)
  {
    var trace, writes := RevertTrace(s, r), RevertWrites(s, r);
    var s1 := s.(staging := s.settled);
    assert trace == [s1] + writes + DeleteBackupTrace(Last(s1, writes));
    assert |trace| == 3 + |writes|;
    WritesKeep(s, r);
    if 1 <= steps <= 1 + |writes| {
      assert trace[..steps][steps - 1] == ([s1] + writes)[steps - 1];
    } else if steps > 1 + |writes| {
      var reached := if steps <= |trace| then trace[..steps] else trace;
      assert Last(s, reached) in DeleteBackupTrace(Last(s1, writes));
    }
  }

  lemma WritesKeep(s: Device, r: Radio)
    requires Safe(s)
    ensures forall p :: p in RevertWrites(s, r) ==>
              p.ssidKey == s.ssidKey && p.settled == s.settled && p.on == s.on && p.staging == s.settled
  {
  }

  // Power lost after any number of steps of a revert, and then a start that completes: the settled
  // configuration is back iff the marker was not yet deleted or the revert leaves it in flash. A power loss
  // after the last step is one after a complete revert.
  lemma CutRevertFinishes(s: Device, steps: nat, r: Radio, r2: Radio)
    requires Safe(s) && s.on
    ensures var cut := Last(s, Passed(s, CutAfter(Revert(r), steps)));
            && (cut.ssidKey.Some? <==> s.ssidKey.Some? && steps <= 1 + |RevertWrites(s, r)|)
            && (Exec(cut, Boot(r2)).staging == s.settled <==>
                  (s.ssidKey.Some? && steps <= 1 + |RevertWrites(s, r)|) || RevertHolds(s, r))
  {
    var cut := Last(s, Passed(s, CutAfter(Revert(r), steps)));
    CutRevert(s, steps, r);
    RevertFlash(s, r);
    if s.ssidKey.Some? {
      RevertStages(s, steps, r);
    }
    if cut.ssidKey.Some? {
      BootWithBackup(cut, r2);
    } else {
      BootWithoutBackup(cut, r2);
    }
  }

  // A complete revert outlives a restart iff it leaves the settled configuration in flash.
  lemma RevertOutlivesRestart(s: Device, r: Radio, r2: Radio)
    requires Safe(s) && s.on
    ensures Exec(PowerLoss(Exec(s, Revert(r))), Boot(r2)).staging == s.settled <==> RevertHolds(s, r)
  {
    var steps := 2 + |RevertTrace(s, r)| + |RevertWrites(s, r)|;
    CutRevertFinishes(s, steps, r, r2);
    assert Last(s, Passed(s, CutAfter(Revert(r), steps))) == PowerLoss(Exec(s, Revert(r)));
  }

  // While the marker is there, any number of starts that lose power too change nothing of that: the one that
  // completes restores what the revert would have.
  lemma CutRevertIsRerun(s: Device, steps: nat, r: Radio, boots: seq<Happening>, r2: Radio)
    requires Safe(s) && s.on
    requires forall h :: h in boots ==> h.CutAfter? && h.c.Boot?
    ensures var end := After(Last(s, Passed(s, CutAfter(Revert(r), steps))), boots);
            end.ssidKey.Some? ==> Exec(end, Boot(r2)).staging == s.settled == Exec(s, Revert(r)).staging
  {
    var cut := Last(s, Passed(s, CutAfter(Revert(r), steps)));
    CutRevert(s, steps, r);
    RevertSettles(s, r);
    CutBootsKeepBackup(cut, boots);
    if After(cut, boots).ssidKey.Some? {
      BootWithBackup(After(cut, boots), r2);
    }
  }

  // A start that loses power is a revert that does, from what was loaded.
  lemma CutBootIsCutRevert(s: Device, steps: nat, r: Radio)
    requires Safe(s) && !s.on
    ensures Last(s, Passed(s, CutAfter(Boot(r), 1 + steps))) ==
            Last(Loaded(s), Passed(Loaded(s), CutAfter(Revert(r), steps)))
  {
    var boot, revert := BootTrace(s, r), RevertTrace(Loaded(s), r);
    assert boot == [Loaded(s)] + revert;
    if 0 < steps <= |revert| {
      assert boot[..1 + steps][steps] == revert[..steps][steps - 1];
    } else if steps == 0 {
      assert boot[..1] == [Loaded(s)];
    }
  }

  lemma CutRevert(s: Device, steps: nat, r: Radio)
    requires Safe(s) && s.on
    ensures var cut := Last(s, Passed(s, CutAfter(Revert(r), steps)));
            Safe(cut) && !cut.on && cut.settled == s.settled
  {
    PassedSafe(s, CutAfter(Revert(r), steps));
    RevertStates(s, r);
    var trace := Trace(s, Revert(r));
    var reached := if steps <= |trace| then trace[..steps] else trace;
    assert Last(s, reached) == s || Last(s, reached) in trace;
  }

  // The key of the staged network is changed, the device connects with it and the change is not committed.
  // The revert finds the device on a network of that name, leaves flash alone and reports success: the next
  // start comes back with the key that was never committed.
  lemma UncommittedKeyComesBack(s: Device, key: Bytes, callback: Option<CallbackId>, store: Store,
                                r: Radio, reverting: Radio, r2: Radio)
    requires Safe(s) && s.on && s.pending == None && s.ssidKey.None? && s.staging.ssid != []
    requires 0 !in s.staging.ssid && 0 !in key && |key| <= MAX_KEY && key != s.staging.credentials
    requires store.putCredentialsOk && store.putSsidOk
    requires r.ap != Some(s.staging.ssid) && r.clearOk && r.disableOk && r.setOk && r.enableOk && r.timerOk
    requires reverting.ap == Some(s.staging.ssid)
    ensures var ssid := s.staging.ssid;
            var connected := Exec(Exec(Exec(s, Add(ssid, key, store)), Connect(ssid, callback, store, r)), Connected);
            var reverted := Exec(connected, Revert(reverting));
            && RevertOk(connected, reverting) && reverted.staging == s.staging && reverted.ssidKey.None?
            && Exec(PowerLoss(reverted), Boot(r2)).staging == Network(ssid, key)
  {
    var n := Network(s.staging.ssid, key);
    var added := Exec(s, Add(n.ssid, key, store));
    AddStages(s, n.ssid, key, store);
    EditKeepsSettled(s, Add(n.ssid, key, store));
    var joined := Exec(added, Connect(n.ssid, callback, store, r));
    ConnectWrites(added, callback, store, r);
    EditKeepsSettled(added, Connect(n.ssid, callback, store, r));
    var connected := Exec(joined, Connected);
    EditKeepsSettled(joined, Connected);
    assert connected.station == joined.station && connected.ssidKey == joined.ssidKey;
    RevertSettles(connected, reverting);
    BootWithoutBackup(PowerLoss(Exec(connected, Revert(reverting))), r2);
    StationRoundTrip(n);
  }

  // A revert whose write to flash fails: the network is forgotten at the next start.
  lemma FailedWriteForgets(s: Device, r: Radio, r2: Radio)
    requires Safe(s) && s.on && s.ssidKey.Some? && s.settled.ssid != []
    requires r.ap == None && r.clearOk && !r.setOk
    ensures Exec(PowerLoss(Exec(s, Revert(r))), Boot(r2)).staging != s.settled
  {
    RevertOutlivesRestart(s, r, r2);
  }

  lemma RevertStates(s: Device, r: Radio)
    requires Safe(s) && s.on
    ensures forall p :: p in RevertTrace(s, r) ==> p.settled == s.settled
  {
    if s.ssidKey.Some? {
      var s1 := s.(staging := s.settled);
      var connect := if r.ap == Some(s1.staging.ssid) then [] else ConnectWiFiTrace(s1, s1.staging, r);
      assert forall p :: p in connect ==> p.settled == s.settled && p.staging == s.settled;
      assert Last(s1, connect) == s1 || Last(s1, connect) in connect;
    }
  }

  // -------------------------------------------------------------------------
  // Connect callbacks
  // -------------------------------------------------------------------------

  predicate ToldOnce(told: seq<(CallbackId, Status)>) {
    forall i, j :: 0 <= i < j < |told| ==> told[i].0 != told[j].0
  }

  // The callbacks seen so far are those told and the one pending.
  predicate CallbacksOk(s: Device) {
    && ToldOnce(s.told)
    && (s.pending.Some? ==> forall i :: 0 <= i < |s.told| ==> s.told[i].0 != s.pending.value)
  }

  lemma BackupKeepsCallbacks(s: Device, store: Store)
    ensures var m := Last(s, BackupTrace(s, store)); m.pending == s.pending && m.told == s.told
  {
  }

  // What every command but a connect call does to the callbacks: it tells the pending one, keeps it,
  // or, at boot, loses it with the rest of RAM.
  lemma CallbacksEnd(s: Device, c: Command)
    requires Safe(s) && !c.Connect?
    ensures var m := Exec(s, c);
            || (m.pending == s.pending && m.told == s.told)
            || (c.Boot? && m.pending == None && m.told == s.told)
            || (s.on && s.pending == None == m.pending && m.told == s.told)
            || (s.on && s.pending.Some? && m.pending == None
                && ToldFurther(s, m, s.pending))
  {
    if s.on && (c.Add? || c.Remove?) {
      BackupKeepsCallbacks(s, c.store);
    } else if s.on && c.Disconnect? {
      ConnectWiFiSafe(s, NO_NETWORK, c.radio);
    } else if s.on && c.Revert? {
      RevertKeepsCallbacks(s, c.radio);
    } else if !s.on && c.Boot? {
      LoadFits(s.station);
      RevertKeepsCallbacks(Loaded(s), c.radio);
      assert Exec(s, c) == Last(Loaded(s), RevertTrace(Loaded(s), c.radio));
    }
  }

  lemma RevertKeepsCallbacks(s: Device, r: Radio)
    requires Safe(s)
    ensures var m := Last(s, RevertTrace(s, r)); m.pending == s.pending && m.told == s.told
  {
    if s.ssidKey.Some? {
      ConnectWiFiSafe(s.(staging := s.settled), s.settled, r);
    }
  }

  lemma ToldOnceMore(s: Device, m: Device, callback: Option<CallbackId>)
    requires CallbacksOk(s) && ToldFurther(s, m, callback) && m.pending == None
    requires callback == s.pending || forall i :: 0 <= i < |s.told| ==> s.told[i].0 != callback.value
    ensures CallbacksOk(m)
  {
    assert forall i :: 0 <= i < |s.told| ==> m.told[i] == s.told[i];
  }

  function CallbackOf(c: Command): Option<CallbackId> {
    if c.Connect? then c.callback else None
  }

  // A state on the way: nobody has been told and the pending callback is the one of before, none, or the
  // new one; or one of the two has been told and none is pending.
  predicate OnTheWay(s: Device, p: Device, callback: Option<CallbackId>) {
    || (p.told == s.told && (p.pending == s.pending || p.pending == None || p.pending == callback))
    || (p.pending == None && (ToldFurther(s, p, s.pending) || ToldFurther(s, p, callback)))
  }

  predicate Quiet(s: Device, p: Device) { p.told == s.told && p.pending == s.pending }

  lemma WritesAreQuiet(s: Device, n: Network, store: Store, r: Radio)
    ensures forall p :: p in BackupTrace(s, store) ==> Quiet(s, p)
    ensures forall p :: p in ConnectWiFiTrace(s, n, r) ==> Quiet(s, p)
    ensures forall p :: p in DeleteBackupTrace(s) ==> Quiet(s, p)
  {
  }

  lemma RevertIsQuiet(s: Device, store: Store, r: Radio)
    requires Safe(s)
    ensures forall p :: p in RevertTrace(s, r) ==> Quiet(s, p)
  {
    if s.ssidKey.Some? {
      var s1 := s.(staging := s.settled);
      var writes := RevertWrites(s, r);
      WritesAreQuiet(s1, s.settled, store, r);
      assert Last(s1, writes) == s1 || Last(s1, writes) in writes;
      WritesAreQuiet(Last(s1, writes), s.settled, store, r);
      assert RevertTrace(s, r) == [s1] + writes + DeleteBackupTrace(Last(s1, writes));
    } else {
      WritesAreQuiet(s, s.settled, store, r);
    }
  }

  lemma BackedUpOnTheWay(s: Device, backedUp: bool, callback: Option<CallbackId>, r: Radio)
    ensures forall p :: p in ConnectBackedUpTrace(s, backedUp, callback, r) ==> OnTheWay(s, p, callback)
  {
    var writes := ConnectWiFiTrace(s, s.staging, r);
    WritesAreQuiet(s, s.staging, Store(true, true), r);
    assert Last(s, writes) == s || Last(s, writes) in writes;
  }

  lemma ConnectOnTheWay(s: Device, id: Bytes, callback: Option<CallbackId>, store: Store, r: Radio)
    requires Safe(s) && s.on
    ensures forall p :: p in ConnectTrace(s, id, callback, store, r) ==> OnTheWay(s, p, callback)
  {
    if s.staging.ssid == id {
      var backup := BackupTrace(s, store);
      var s1 := Last(s, backup);
      WritesAreQuiet(s, s.staging, store, r);
      assert s1 == s || s1 in backup;
      BackedUpOnTheWay(s1, BackupOk(s, store), callback, r);
    }
  }

  lemma OthersOnTheWay(s: Device, c: Command, store: Store)
    requires Safe(s) && s.on && (c.Add? || c.Remove? || c.Connected? || c.ConnectTimedOut?)
    requires c.Add? || c.Remove? ==> store == c.store
    ensures forall p :: p in Trace(s, c) ==> OnTheWay(s, p, None)
  {
    var backup := BackupTrace(s, store);
    WritesAreQuiet(s, s.staging, store, Radio(None, true, true, true, true, true));
    assert Last(s, backup) == s || Last(s, backup) in backup;
  }

  lemma TraceOnTheWay(s: Device, c: Command)
    requires Safe(s)
    ensures forall p :: p in Trace(s, c) ==> OnTheWay(s, p, CallbackOf(c))
  {
    var store := Store(true, true);
    if s.on != c.Boot? {
      if c.Connect? {
        ConnectOnTheWay(s, c.id, c.callback, c.store, c.radio);
      } else if c.Disconnect? {
        WritesAreQuiet(s, NO_NETWORK, store, c.radio);
      } else if c.Commit? {
        WritesAreQuiet(s, NO_NETWORK, store, Radio(None, true, true, true, true, true));
      } else if c.Revert? {
        RevertIsQuiet(s, store, c.radio);
      } else if c.Boot? {
        LoadFits(s.station);
        RevertIsQuiet(Loaded(s), store, c.radio);
      } else {
        OthersOnTheWay(s, c, if c.Add? || c.Remove? then c.store else store);
      }
    }
  }

  // A callback that the device has not heard of.
  predicate NewTo(s: Device, callback: CallbackId) {
    s.pending != Some(callback) && forall i :: 0 <= i < |s.told| ==> s.told[i].0 != callback
  }

  lemma OnTheWayOk(s: Device, p: Device, callback: Option<CallbackId>)
    requires CallbacksOk(s) && OnTheWay(s, p, callback) && (callback.Some? ==> NewTo(s, callback.value))
    ensures CallbacksOk(p) && s.told <= p.told
    ensures forall other: CallbackId :: NewTo(s, other) && Some(other) != callback ==> NewTo(p, other)
  {
    if p.told == s.told {
      assert s.told <= p.told;
    } else if ToldFurther(s, p, s.pending) {
      ToldOnceMore(s, p, s.pending);
    } else {
      ToldOnceMore(s, p, callback);
    }
  }

  lemma PassedOk(s: Device, h: Happening)
    requires Safe(s) && CallbacksOk(s) && (CallbackOf(h.c).Some? ==> NewTo(s, CallbackOf(h.c).value))
    ensures forall p :: p in Passed(s, h) ==> CallbacksOk(p) && s.told <= p.told
    ensures forall other: CallbackId :: NewTo(s, other) && Some(other) != CallbackOf(h.c) ==>
              NewTo(Last(s, Passed(s, h)), other)
    ensures CallbacksOk(Last(s, Passed(s, h))) && s.told <= Last(s, Passed(s, h)).told
  {
    var callback, trace, passed := CallbackOf(h.c), Trace(s, h.c), Passed(s, h);
    TraceOnTheWay(s, h.c);
    assert OnTheWay(s, s, callback);
    forall p | p in passed ensures OnTheWay(s, p, callback) {
      if h.CutAfter? {
        var reached := if h.steps <= |trace| then trace[..h.steps] else trace;
        assert Last(s, reached) == s || Last(s, reached) in trace;
        assert p in trace || p == PowerLoss(Last(s, reached));
      }
    }
    assert Last(s, passed) == s || Last(s, passed) in passed;
    OnTheWayOk(s, Last(s, passed), callback);
    forall p | p in passed ensures CallbacksOk(p) && s.told <= p.told {
      OnTheWayOk(s, p, callback);
    }
  }

  // Each connect call of the run brings a callback of its own.
  ghost predicate OwnCallbacks(s: Device, run: seq<Happening>) {
    && (forall i :: 0 <= i < |run| && CallbackOf(run[i].c).Some? ==> NewTo(s, CallbackOf(run[i].c).value))
    && (forall i, j :: 0 <= i < j < |run| && CallbackOf(run[i].c).Some? ==>
          CallbackOf(run[i].c) != CallbackOf(run[j].c))
  }

  // At every point of every run, with power losses anywhere, no callback has been called twice, and what has
  // been told stays told.
  lemma {:induction false} CallbacksToldOnce(s: Device, run: seq<Happening>)
    requires Safe(s) && CallbacksOk(s) && OwnCallbacks(s, run)
    ensures forall p :: p in Points(s, run) ==> CallbacksOk(p) && s.told <= p.told
    ensures CallbacksOk(After(s, run))
    decreases |run|
  {
    if run != [] {
      var m := Last(s, Passed(s, run[0]));
      PassedSafe(s, run[0]);
      PassedOk(s, run[0]);
      assert OwnCallbacks(m, run[1..]) by {
        assert forall i :: 0 <= i < |run| - 1 ==> run[1..][i] == run[i + 1];
      }
      CallbacksToldOnce(m, run[1..]);
    }
  }

  // Which command tells a callback what: success exactly when an association is reported, whichever network
  // it is with, or the device is on a network of the name asked for already; an unknown network exactly when
  // another one is staged; a failure of authentication exactly when the wait ran out after one of the five
  // reasons that mean it, and so on for the other reasons.
  lemma AnswerOfEachCommand(s: Device, c: Command)
    requires Safe(s) && s.on && |Exec(s, c).told| > |s.told|
    ensures var status := Exec(s, c).told[|s.told|].1;
            && (status == Success <==>
                  c.Connected? || (c.Connect? && s.staging.ssid == c.id && BackupOk(s, c.store) && s.pending == None
                                   && c.radio.ap == Some(c.id)))
            && (status == NetworkIdNotFound <==> c.Connect? && s.staging.ssid != c.id)
            && (status == AuthFailure <==>
                  c.ConnectTimedOut? && c.reason in {AuthFail, FourWayHandshakeTimeout, HandshakeTimeout, MicFailure,
                                                     ConnectionFail})
            && (status == NetworkNotFound <==> c.ConnectTimedOut? && c.reason == NoApFound)
            && (status == OtherConnectionFailure <==> c.ConnectTimedOut? && c.reason.Other?)
            && status in {Success, NetworkIdNotFound, AuthFailure, NetworkNotFound, OtherConnectionFailure,
                          UnknownError}
  {
    if c.Connect? {
      ConnectAnswers(s, c.id, c.callback, c.store, c.radio);
    } else {
      AnswersElsewhere(s, c);
    }
  }

  lemma ConnectAnswers(s: Device, id: Bytes, callback: Option<CallbackId>, store: Store, r: Radio)
    requires Safe(s) && s.on
    ensures var m := Last(s, ConnectTrace(s, id, callback, store, r));
            |m.told| > |s.told| ==>
              && m.told[|s.told|].1 in {Success, NetworkIdNotFound, UnknownError}
              && (m.told[|s.told|].1 == Success <==>
                    s.staging.ssid == id && BackupOk(s, store) && s.pending == None && r.ap == Some(id))
              && (m.told[|s.told|].1 == NetworkIdNotFound <==> s.staging.ssid != id)
  {
    var s1 := Last(s, BackupTrace(s, store));
    BackupSafe(s, store);
    BackupKeepsCallbacks(s, store);
    ConnectWiFiSafe(s1, s1.staging, r);
    if s.staging.ssid == id {
      var rest := ConnectBackedUpTrace(s1, BackupOk(s, store), callback, r);
      assert Last(s, ConnectTrace(s, id, callback, store, r)) == rest[|rest| - 1];
    }
  }

  lemma AnswersElsewhere(s: Device, c: Command)
    requires Safe(s) && s.on && !c.Connect? && |Exec(s, c).told| > |s.told|
    ensures c.Connected? || c.ConnectTimedOut?
    ensures Exec(s, c).told[|s.told|].1 == if c.Connected? then Success else StatusFor(c.reason)
  {
    if c.Add? || c.Remove? {
      BackupKeepsCallbacks(s, c.store);
    } else if c.Disconnect? {
      ConnectWiFiSafe(s, NO_NETWORK, c.radio);
    } else if c.Revert? {
      RevertKeepsCallbacks(s, c.radio);
    }
  }

  predicate Unanswered(m: Device, p: CallbackId) {
    m.pending != Some(p) && forall i :: 0 <= i < |m.told| ==> m.told[i].0 != p
  }

  // On a running device, the command that leaves a pending callback without an answer for good is
  // exactly a further connect call: its failure exit forgets the callback that was waiting.
  lemma WhoForgetsTheCallback(s: Device, c: Command)
    requires Safe(s) && s.on && CallbacksOk(s) && s.pending.Some?
    requires CallbackOf(c).Some? ==> NewTo(s, CallbackOf(c).value)
    ensures Unanswered(Exec(s, c), s.pending.value) <==> c.Connect?
  {
    if c.Connect? {
      ConnectEnds(s, c.id, c.callback, c.store, c.radio);
    } else {
      CallbacksEnd(s, c);
      var m := Exec(s, c);
      if m.pending != s.pending && !c.Boot? {
        assert m.told[|s.told|].0 == s.pending.value;
      }
    }
  }
}
