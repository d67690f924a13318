/**
  The connectivity manager as the source writes it: an object whose state, mode, failure time and
  flags are updated step by step. Each method is proved against the step functions of Station.dfy.
  */
module StationManager {
  import opened Station
  import opened StationProofs

  class ConnectivityManager {
    var mode: Mode
    var state: State
    var lastFail: Time
    const interval: Time
    var haveIPv4: bool
    var haveIPv6: bool
    // What has been posted to other components and asked of the Wi-Fi layer.
    var actions: seq<Action>

    function View(): Manager
      reads this
    {
      Manager(mode, state, lastFail, interval, haveIPv4, haveIPv6, actions)
    }

    constructor InitWiFi(reconnectInterval: Time)
      ensures View() == Init(reconnectInterval)
    {
      lastFail, mode, state, interval := 0, Disabled, NotConnected, reconnectInterval;
      haveIPv4, haveIPv6, actions := false, false, [];
    }

    method Record(a: Action)
      modifies this`actions
      ensures View() == Do(old(View()), a)
    {
      actions := actions + [a];
    }

    method GetWiFiStationMode(o: Observed)
      modifies this`mode
      ensures View() == old(View()).(mode := RefreshedMode(old(View()), o))
    {
      if mode != ApplicationControlled {
        mode := if o.stationMode then Enabled else Disabled;
      }
    }

    method SetWiFiStationMode(val: Mode, enableOk: bool, scheduleOk: bool) returns (ok: bool)
      modifies this`mode
      ensures ok == (val != NotSupported && (val != ApplicationControlled ==> enableOk && scheduleOk))
      ensures View() == Handle(old(View()), SetMode(val, enableOk, scheduleOk))
    {
      if val == NotSupported {
        return false;
      }
      if val != ApplicationControlled {
        if !enableOk {
          return false;
        }
        if !scheduleOk {
          return false;
        }
      }
      mode := val;
      return true;
    }

    method DisconnectNetwork()
      modifies this
      ensures View() == Handle(old(View()), Input.DisconnectNetwork)
    {
      if state == Connected {
        var ok := SetWiFiStationMode(ApplicationControlled, true, true);
        if ok {
          Record(DisconnectIssued);
        }
      }
    }

    method UpdateInternetConnectivityState(net: Net)
      modifies this
      ensures View() == UpdateInternet(old(View()), net)
    {
      var haveV4, haveV6 := false, false;
      var hadV4, hadV6 := haveIPv4, haveIPv6;
      if state == Connected {
        if net.up && net.link {
          if net.dns != 0 {
            if net.ipv4 != 0 && net.gateway != 0 {
              haveV4 := true;
            }
            for i := 0 to |net.ipv6|
              invariant haveV6 <==> net.route && exists k :: 0 <= k < i && IsGlobal(net.ipv6[k]) && net.ipv6[k].valid
            {
              if IsGlobal(net.ipv6[i]) && net.ipv6[i].valid {
                if net.route {
                  haveV6 := true;
                }
              }
            }
          }
        }
      }
      if haveV4 != hadV4 || haveV6 != hadV6 {
        haveIPv4, haveIPv6 := haveV4, haveV6;
        Record(InternetChanged(ChangeOf(hadV4, haveV4), ChangeOf(hadV6, haveV6)));
      }
    }

    method OnStationConnected(net: Net)
      modifies this
      ensures View() == OnConnected(old(View()), net)
    {
      Record(WiFiEstablished);
      UpdateInternetConnectivityState(net);
    }

    method OnStationDisconnected(net: Net)
      modifies this
      ensures View() == OnDisconnected(old(View()), net)
    {
      Record(WiFiLost);
      UpdateInternetConnectivityState(net);
    }

    method DriveStationState(o: Observed)
      modifies this
      ensures View() == DriveStation(old(View()), o)
    {
      GetWiFiStationMode(o);
      if mode != ApplicationControlled {
        if !o.startOk {
          return;
        }
        if !o.enableOk {
          return;
        }
      }
      if !o.lookOk {
        return;
      }
      if o.linkUp {
        DriveUp(o);
      } else {
        DriveDown(o);
      }
    }

    method DriveUp(o: Observed)
      modifies this
      ensures View() == DropUnwanted(NoteUp(old(View()), o), o)
    {
      if state == NotConnected || state == ConnectingSucceeded {
        state := Connected;
        lastFail := 0;
        OnStationConnected(o.net);
      }
      if mode != ApplicationControlled && (mode != Enabled || !o.provisioned) {
        Record(DisconnectIssued);
        if !o.disconnectOk {
          return;
        }
        state := Disconnecting;
      }
    }

    method DriveDown(o: Observed)
      modifies this
      ensures View() == TryConnect(NoteDown(old(View()), o), o)
    {
      var now := o.now;
      if state == Connected || state == Disconnecting || state == ConnectingFailed {
        var prevState := state;
        state := NotConnected;
        if prevState != ConnectingFailed {
          lastFail := 0;
          OnStationDisconnected(o.net);
        } else {
          lastFail := now;
        }
      }
      if mode == Enabled && o.provisioned {
        if lastFail == 0 || now >= lastFail + interval {
          Record(ConnectIssued(now));
          if !o.connectOk {
            return;
          }
          state := Connecting;
        } else {
          var timeToNextConnect := (lastFail + interval) - now;
          Record(TimerArmed(now, timeToNextConnect));
        }
      }
    }

    method OnWiFiPlatformEvent(i: Input)
      requires !i.SetMode? && !i.DisconnectNetwork?
      modifies this
      ensures View() == Handle(old(View()), i)
    {
      match i {
        case Drive(o) =>
          DriveStationState(o);
        case StaConnected(o) =>
          if state == Connecting {
            state := ConnectingSucceeded;
          }
          DriveStationState(o);
        case StaDisconnected(o) =>
          if state == Connecting {
            state := ConnectingFailed;
          }
          DriveStationState(o);
        case AddressEvent(kind, net) =>
          UpdateInternetConnectivityState(net);
          Record(AddressChanged(kind));
        case _ =>
      }
    }

    // A whole run keeps what is true of a run: Established and Lost events apart, flags only while connected or
    // disconnecting, and a listener that has heard the changes knows the flags.
    method HandleAll(inputs: seq<Input>)
      requires Consistent(View())
      modifies this
      ensures Consistent(View()) && View() == Run(old(View()), inputs)
    {
      assert inputs[..0] == [];
      for i := 0 to |inputs|
        invariant Consistent(View()) && View() == Run(old(View()), inputs[..i])
      {
        assert inputs[..i + 1][..i] == inputs[..i];
        HandleConsistent(View(), inputs[i]);
        match inputs[i] {
          case SetMode(mode, enableOk, scheduleOk) =>
            var _ := SetWiFiStationMode(mode, enableOk, scheduleOk);
          case DisconnectNetwork =>
            DisconnectNetwork();
          case _ =>
            OnWiFiPlatformEvent(inputs[i]);
        }
      }
      assert inputs[..|inputs|] == inputs;
    }
  }
}
