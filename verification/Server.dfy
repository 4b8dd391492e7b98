/** The objects of the lifecycle manager, in the form the source has them: methods that update
    fields, loops over the registry, a lock, and calls on other objects.  Every method is tied to
    the state machine: its final state and its outputs are those of the matching events. */
module Server {
  import opened LifecycleTypes
  import opened Names
  import opened Registry
  import opened EmergencyRules
  import opened LegatoTranslation
  import opened Manager

  /** The outside world: proxies, event channels and the clock, as one ordered log. */
  class Outside {
    ghost var log: seq<Output>

    constructor ()
      ensures log == []
    {
      log := [];
    }

    method Emit(output: Output)
      modifies this
      ensures log == old(log) + [output]
    {
      log := log + [output];
    }
  }

  class LegatoServer {
    const outside: Outside
    var eventId: bool
    var cache: LeInfo

    constructor (outside: Outside)
      ensures this.outside == outside && !eventId
      ensures cache == LeInfo(LeIdle, LeWakeUnknown, LeCanOff, LeBatteryOk, LeVtmNormal)
    {
      this.outside := outside;
      eventId := false;
      cache := LeInfo(LeIdle, LeWakeUnknown, LeCanOff, LeBatteryOk, LeVtmNormal);
    }

    method AdvertiseEvents()
      modifies this
      ensures eventId && cache == old(cache)
    {
      eventId := true;
    }

    // The five translators: each returns the translation and also stores it in the cache.

    method CapiLcStateToLeLcState(state: LcState) returns (le: LeState)
      modifies this
      ensures le == ToLeState(state)
      ensures cache == old(cache).(state := le) && eventId == old(eventId)
    {
      le := LeIdle;
      match state {
        case Init => le := LeInit;
        case BackupBattery => le := LeBackupBattery;
        case DeepSleep => le := LeDeepSleep;
        case RemoteWake => le := LeRemoteWake;
        case On => le := LeOn;
        case Off => le := LeOff;
        case StayAliveServices => le := LeStayAliveServices;
        case Shutdown => le := LeShutdown;
        case Sleep => le := LeSleep;
        case Listen1 => le := LeListen1;
        case Listen2 => le := LeListen2;
        case Listen3 => le := LeListen3;
        case Emergency => le := LeEmergency;
        case Maintenance => le := LeMaintenance;
        case TestMode => le := LeTestMode;
        case SwUpdate => le := LeSwUpdate;
        case Logistic => le := LeLogistic;
        case Reset => le := LeReset;
        case EmergencyLaw => le := LeEmergencyLaw;
        case Idle => le := LeIdle;
        case EmergencyLawLp => le := LeEmergencyLawLp;
        case StayAliveConnected => le := LeStayAliveConnected;
        case StateUnnamed =>
      }
      cache := cache.(state := le);
    }

    method CapiLcWakeupToLeWakeupSource(wake: WakeupSource) returns (le: LeWakeup)
      modifies this
      ensures le == ToLeWakeup(wake)
      ensures cache == old(cache).(wake := le) && eventId == old(eventId)
    {
      le := LeWakeUnknown;
      match wake {
        case WakeLm1Rtc => le := LeWakeLm1Rtc;
        case WakeMainBattery => le := LeWakeMainBattery;
        case WakeAccelerometer => le := LeWakeAccelerometer;
        case WakeCan => le := LeWakeCan;
        case WakeLm3Rtc => le := LeWakeLm3Rtc;
        case WakeSms => le := LeWakeSms;
        case WakeMqtt => le := LeWakeMqtt;
        case WakeUnknown => le := LeWakeUnknown;
        case WakeUnnamed =>
      }
      cache := cache.(wake := le);
    }

    method CapiLcCanStatusToLeCanStatus(can: CanStatus) returns (le: LeCan)
      modifies this
      ensures le == ToLeCan(can)
      ensures cache == old(cache).(can := le) && eventId == old(eventId)
    {
      le := LeCanOff;
      match can {
        case CanOff => le := LeCanOn;
        case CanOn => le := LeCanOff;
        case CanUnnamed =>
      }
      cache := cache.(can := le);
    }

    method CapiLcBatteryStateToLeBatteryStatus(battery: BatteryStatus) returns (le: LeBattery)
      modifies this
      ensures le == ToLeBattery(battery)
      ensures cache == old(cache).(battery := le) && eventId == old(eventId)
    {
      le := LeBatteryNok;
      match battery {
        case BatteryNok => le := LeBatteryNok;
        case BatteryOk => le := LeBatteryOk;
        case BatteryUnnamed =>
      }
      cache := cache.(battery := le);
    }

    method CapiLcThermalStateToLeThermalState(vtm: VtmState) returns (le: LeVtm)
      modifies this
      ensures le == ToLeVtm(vtm)
      ensures cache == old(cache).(vtm := le) && eventId == old(eventId)
    {
      le := LeVtmNormal;
      match vtm {
        case VtmNormal => le := LeVtmNormal;
        case VtmOvertemp => le := LeVtmOvertemp;
        case VtmUnnamed =>
      }
      cache := cache.(vtm := le);
    }

    method ReportLcStateEventPlus(state: LcState, info: Info)
      modifies this, outside
      ensures eventId == old(eventId)
      ensures cache == if eventId then ToLe(Snapshot(state, info)) else old(cache)
      ensures outside.log == old(outside.log) + if eventId then [Reported(cache)] else []
    {
      if !eventId {
        return;
      }
      var _ := CapiLcStateToLeLcState(state);
      var _ := CapiLcWakeupToLeWakeupSource(info.wake);
      var _ := CapiLcCanStatusToLeCanStatus(info.can);
      var _ := CapiLcBatteryStateToLeBatteryStatus(info.battery);
      var _ := CapiLcThermalStateToLeThermalState(info.vtm);
      outside.Emit(Reported(cache));
    }

    method GetLifeCycleStatePlus() returns (le: LeInfo)
      ensures le == cache
    {
      le := cache;
    }

    /** `defaultState` and `defaultStatus` are what the caller's variables start as. */
    method RegisterClient(server: LifecycleServer, name: Text, defaultState: LcState, defaultStatus: LcStatus)
      returns (status: LeStatus, state: LeState)
      requires server.Valid() && server.legato == this
      modifies this, server
      ensures server.Valid()
      ensures server.View() == StepLegatoRegister(old(server.View()), name, defaultState, defaultStatus).next
      ensures status == ToLeStatus(RegisterStatus(old(server.clients), Trim(name), defaultStatus))
      ensures state == cache.state == ToLeState(RegisterState(old(server.View()), name, defaultState))
    {
      var capiState, capiStatus := server.EvaluateRegisterClient(name, defaultState, defaultStatus);
      state := CapiLcStateToLeLcState(capiState);
      status := ToLeStatus(capiStatus);
    }

    method LcStayActive(server: LifecycleServer, name: Text, want: LeStayActive) returns (status: LeStatus)
      requires server.Valid() && server.legato == this
      modifies server, server.outside
      ensures server.Valid()
      ensures server.Did(StepStayActive(old(server.View()), name, FromLeStayActive(want)), old(server.outside.log))
      ensures status == ToLeStatus(StayActiveStatus(old(server.View()), name, FromLeStayActive(want)))
    {
      var capiStatus := server.EvaluateStayActive(name, FromLeStayActive(want));
      status := ToLeStatus(capiStatus);
    }

    method LcEmergency(server: LifecycleServer, state: LeState, callOk: bool) returns (status: LeStatus)
      requires server.Valid() && server.legato == this
      modifies server.outside
      ensures server.Valid()
      ensures server.Did(StepTrigger(old(server.View()), FromLeState(state)), old(server.outside.log))
      ensures status == if callOk then LeStsOk else LeStsNotOk
    {
      var capiStatus := server.TriggerEmergency(FromLeState(state), callOk);
      status := ToLeStatus(capiStatus);
    }
  }

  class LifecycleServer {
    const legato: LegatoServer
    const outside: Outside
    var state: LcState
    var info: Info
    var clients: seq<Client>
    var noTcuPowerMode: bool
    var locked: bool           // m_clients_mtx

    /** Holds whenever no handler is running: the lock is free and the mode flag is set. */
    ghost predicate Valid()
      reads this
    {
      && legato.outside == outside
      && !locked
      && noTcuPowerMode
    }

    ghost function View(): Manager
      reads this, legato
    {
      Manager(state, info, clients, legato.eventId, legato.cache, Closed)
    }

    /** The state and the log are those that `effect` leaves behind. */
    ghost predicate Did(effect: Effect, log: seq<Output>)
      reads this, legato, outside
    {
      && View() == effect.next
      && outside.log == log + effect.outputs
    }

    /** The lifecycle state and the additional information start as whatever memory holds. */
    constructor (legato: LegatoServer, state: LcState, info: Info)
      ensures Valid()
      ensures this.legato == legato && outside == legato.outside
      ensures View() == Manager(state, info, [], legato.eventId, legato.cache, Closed)
    {
      this.legato := legato;
      this.outside := legato.outside;
      this.state := state;
      this.info := info;
      clients := [];
      noTcuPowerMode := true;
      locked := false;
    }

    method Lock()
      requires !locked
      modifies this`locked
      ensures locked
    {
      locked := true;
    }

    method Unlock()
      requires locked
      modifies this`locked
      ensures !locked
    {
      locked := false;
    }

    method PrintRegisteredClients()
      requires !locked
      modifies this`locked
      ensures !locked
    {
      Lock();
      Unlock();
    }

    /** The search loop that registration, unregistration and stay-active requests all contain. */
    method FindClient(name: Text) returns (it: nat)
      ensures it == IndexOf(clients, name)
      ensures it <= |clients| && (it < |clients| <==> Has(clients, name))
    {
      it := 0;
      while it != |clients|
        invariant 0 <= it <= |clients|
        invariant forall j | 0 <= j < it :: clients[j].name != name
      {
        if clients[it].name == name {
          break;
        }
        it := it + 1;
      }
      IndexIs(clients, name, it);
    }

    method UpdateTcuParameters(params: TcuParams)
      modifies outside
      ensures outside.log == old(outside.log) + [Sent(params)]
    {
      outside.Emit(Sent(params));
    }

    // ---- setters --------------------------------------------------------------

    method SetNwSync(nwSync: bool)
      modifies this`info
      ensures info == old(info).(can := if nwSync then CanOn else CanOff)
    {
      if nwSync {
        info := info.(can := CanOn);
      } else {
        info := info.(can := CanOff);
      }
    }

    method SetPmWakeupSource(reason: int)
      requires Valid()
      modifies this`info
      ensures Valid() && Did(StepPmWakeup(old(View()), reason), old(outside.log))
    {
      if reason == PM_CAN_ACTIVITY {
        info := info.(wake := WakeCan);
      } else if reason == PM_MAINBAT_WAKEUP {
        info := info.(wake := WakeMainBattery);
      } else if reason == PM_SMS {
        info := info.(wake := WakeSms);
      } else if reason == PM_IMU_WAKE {
        info := info.(wake := WakeAccelerometer);
      } else if reason == PM_SOC_RTC_WAKE {
        if state.Listen1? || state.Shutdown? {
          info := info.(wake := WakeLm1Rtc);
        } else if state.Listen3? {
          info := info.(wake := WakeLm3Rtc);
        }
      } else if reason == PM_LM3_RTC {
        info := info.(wake := WakeLm3Rtc);
      }
    }

    method SetSocketWakeupSource(reason: int)
      requires Valid()
      modifies this`info
      ensures Valid() && Did(StepSocketWakeup(old(View()), reason), old(outside.log))
    {
      if reason == SOCKET_MQTT {
        info := info.(wake := WakeMqtt);
      } else if reason == SOCKET_SMS {
        info := info.(wake := WakeSms);
      } else if reason == SOCKET_MODEM_SPURIOUS {
        info := info.(wake := WakeUnknown);
      } else if reason == SOCKET_RTC {
        if state.Listen1? || state.Shutdown? {
          info := info.(wake := WakeLm1Rtc);
        } else if state.Listen3? {
          info := info.(wake := WakeLm3Rtc);
        }
      } else {
        info := info.(wake := WakeUnknown);
      }
    }

    method SetMainBattery(ok: bool)
      requires Valid()
      modifies this`info, legato, outside
      ensures Valid()
      ensures Did(Announced(old(View()).(info := old(info).(battery := if ok then BatteryOk else BatteryNok))), old(outside.log))
    {
      if ok {
        info := info.(battery := BatteryOk);
      } else {
        info := info.(battery := BatteryNok);
      }
      NotifyAllRegisteredClientsNadStateInfo();
    }

    method SetVtmState(overtemp: bool)
      requires Valid()
      modifies this`info, legato, outside
      ensures Valid()
      ensures Did(Announced(old(View()).(info := old(info).(vtm := if overtemp then VtmOvertemp else VtmNormal))), old(outside.log))
    {
      if overtemp {
        info := info.(vtm := VtmOvertemp);
      } else {
        info := info.(vtm := VtmNormal);
      }
      NotifyAllRegisteredClientsNadStateInfo();
    }

    method NotifyAllRegisteredClientsNadStateInfo()
      requires legato.outside == outside
      modifies legato, outside
      ensures Did(Announced(old(View())), old(outside.log))
    {
      outside.Emit(Notified(Snapshot(state, info)));
      legato.ReportLcStateEventPlus(state, info);
    }

    // ---- power modes ----------------------------------------------------------

    method SetPowerMode(mode: int)
      requires Valid()
      modifies this, legato, outside
      ensures Valid()
      ensures Did(WholeMode(old(View()), mode), old(outside.log))
    {
      var mapped := StateUnnamed;
      if mode == 11 || mode == 12 {
        mapped := Init;
      } else if mode == 0 {
        mapped := Off;
      } else if mode == 1 {
        mapped := LcState.BackupBattery;
      } else if mode == MODE_STAY_ALIVE_SERVICES {
        if !state.StayAliveServices? {
          UpdateTcuParameters(ACTIVE);
        }
      } else if mode == 8 {
        mapped := StayAliveConnected;
      } else if mode == 9 {
        mapped := Sleep;
      } else if mode == 18 {
        mapped := DeepSleep;
      } else if mode == 15 {
        mapped := Listen1;
      } else if mode == 16 {
        mapped := Listen2;
      } else if mode == 17 {
        mapped := Listen3;
      } else if mode == 10 {
        mapped := RemoteWake;
      } else if mode == 6 || mode == 25 {
        mapped := On;
      } else if mode == 3 {
        mapped := Maintenance;
      } else if mode == 5 {
        mapped := TestMode;
      } else if mode == 2 {
        mapped := Logistic;
      } else if mode == 4 {
        mapped := Reset;
      } else if mode == 7 {
        mapped := Idle;
      } else if mode == 14 {
        mapped := Shutdown;
      } else if mode == MODE_TCU_ONLY {
        mapped := StayAliveServices;
      } else if mode == 22 {
        mapped := EmergencyLaw;
      } else if mode == 23 {
        mapped := Emergency;
      } else if mode == 24 {
        mapped := EmergencyLawLp;
      } else {
        noTcuPowerMode := false;
      }
      assert mode != MODE_STAY_ALIVE_SERVICES && noTcuPowerMode <==> ModeState(mode) == Some(mapped);
      assert !noTcuPowerMode <==> mode != MODE_STAY_ALIVE_SERVICES && ModeState(mode) == None;
      WholeModeEnters(old(View()), mode);
      if mode != MODE_STAY_ALIVE_SERVICES && noTcuPowerMode {
        EvaluateAndBroadcastPowerMode(mapped);
      } else if !noTcuPowerMode {
        noTcuPowerMode := true;
      }
    }

    method EvaluateAndBroadcastPowerMode(mapped: LcState)
      requires legato.outside == outside
      modifies this`state, legato, outside
      ensures Did(EnterState(old(View()), mapped), old(outside.log))
    {
      if mapped.StayAliveServices? {
        if state.Listen1? || state.Listen2? || state.Listen3? || state.Shutdown? {
          state := mapped;
          NotifyAllRegisteredClientsNadStateInfo();
          StartTcuOnlyTimer(200);
        } else {
          state := mapped;
          outside.Emit(Waited(2));
          if info.wake.WakeAccelerometer? {
            NotifyAllRegisteredClientsNadStateInfo();
            StartTcuOnlyTimer(120);
          } else {
            NotifyAllRegisteredClientsNadStateInfo();
            StartTcuOnlyTimer(21);
          }
        }
      } else {
        state := mapped;
        NotifyAllRegisteredClientsNadStateInfo();
      }
    }

    method StartTcuOnlyTimer(seconds: nat)
      modifies outside
      ensures outside.log == old(outside.log) + [Waited(seconds), Sent(INACTIVE)]
    {
      outside.Emit(Waited(seconds));
      UpdateTcuParameters(INACTIVE);
    }

    // ---- client calls ---------------------------------------------------------

    method LcJumpToListen2() returns (status: LcStatus)
      requires Valid()
      modifies outside
      ensures Valid() && Did(StepJump(old(View())), old(outside.log))
      ensures status == StsOk
    {
      UpdateTcuParameters(TcuParams(PendingInactive, Some(0), 1));
      status := StsOk;
    }

    method LcWakeup() returns (status: LcStatus)
      requires Valid()
      modifies this`state, legato, outside
      ensures Valid() && Did(StepWakeup(old(View())), old(outside.log))
      ensures status == WakeupStatus(old(View()))
    {
      status := StsOk;
      if state.Listen1? || state.Listen2? || state.Listen3? || state.EmergencyLawLp? {
        if state.EmergencyLawLp? {
          state := EmergencyLaw;
        } else {
          UpdateTcuParameters(ACTIVE);
          state := StayAliveServices;
        }
        NotifyAllRegisteredClientsNadStateInfo();
      } else {
        status := StsNotOk;
      }
    }

    /** `callOk` is whether the call succeeded; it is undetermined when no call is made. */
    method TriggerEmergency(request: LcState, callOk: bool) returns (status: LcStatus)
      requires Valid()
      modifies outside
      ensures Valid() && Did(StepTrigger(old(View()), request), old(outside.log))
      ensures status == if callOk then StsOk else StsNotOk
    {
      match request {
        case Emergency => outside.Emit(CallStatusSent(Emergency));
        case EmergencyLaw => outside.Emit(CallStatusSent(EmergencyLaw));
        case EmergencyLawLp => outside.Emit(CallStatusSent(EmergencyLawLp));
        case On => outside.Emit(CallStatusSent(On));
        case _ =>
      }
      if callOk {
        status := StsOk;
      } else {
        status := StsNotOk;
      }
    }

    method LcUnRegisterClient(raw: Text) returns (reply: Option<LcStatus>)
      requires Valid()
      modifies this`clients, this`locked
      ensures Valid() && Did(StepUnregister(old(View()), raw), old(outside.log))
      ensures reply == UnregisterReply(old(clients), Trim(raw))
    {
      var name := CleanName(raw);
      if |name| < 1 {
        PrintRegisteredClients();
        return None;
      }
      Lock();
      var it := FindClient(name);
      if it == |clients| {
        reply := Some(StsNotOk);
      } else {
        clients := clients[..it] + clients[it + 1..];
        reply := Some(StsOk);
      }
      Unlock();
      PrintRegisteredClients();
    }

    method EvaluateRegisterClient(raw: Text, stateIn: LcState, statusIn: LcStatus)
      returns (stateOut: LcState, status: LcStatus)
      requires Valid()
      modifies this`clients, this`locked
      ensures Valid() && Did(StepRegister(old(View()), raw, statusIn), old(outside.log))
      ensures stateOut == RegisterState(old(View()), raw, stateIn)
      ensures status == RegisterStatus(old(clients), Trim(raw), statusIn)
    {
      stateOut, status := stateIn, statusIn;
      var name := CleanName(raw);
      if |name| < 1 {
        PrintRegisteredClients();
        return;
      }
      stateOut := state;
      var tempClient := Client(name, state, LcRelease, false, false, false);
      Lock();
      status := InsertUnlessKnown(tempClient, status);
      Unlock();
      PrintRegisteredClients();
    }

    /** The locked section of a registration. */
    method InsertUnlessKnown(tempClient: Client, statusIn: LcStatus) returns (status: LcStatus)
      requires locked && tempClient == NewClient(tempClient.name, tempClient.lcState) && tempClient.name != []
      modifies this`clients
      ensures clients == Registered(old(clients), tempClient.name, tempClient.lcState, statusIn)
      ensures status == RegisterStatus(old(clients), tempClient.name, statusIn)
    {
      status := statusIn;
      var it := FindClient(tempClient.name);
      if it != |clients| {
        status := StsAlreadyRegistered;
      }
      if !status.StsAlreadyRegistered? {
        clients := clients + [tempClient];
        status := StsOk;
      }
    }

    method LcRegisterClient(raw: Text) returns (status: LcStatus, stateOut: LcState)
      requires Valid()
      modifies this`clients, this`locked
      ensures Valid() && Did(StepRegister(old(View()), raw, StsNotRegistered), old(outside.log))
      ensures stateOut == RegisterState(old(View()), raw, Init)
      ensures status == RegisterStatus(old(clients), Trim(raw), StsNotRegistered)
    {
      stateOut, status := EvaluateRegisterClient(raw, Init, StsNotRegistered);
    }

    method EvaluateStayActive(name: Text, want: StayActiveKind) returns (status: LcStatus)
      requires Valid()
      modifies this`clients, this`locked, outside
      ensures Valid() && Did(StepStayActive(old(View()), name, want), old(outside.log))
      ensures status == StayActiveStatus(old(View()), name, want)
    {
      Lock();
      var it := FindClient(name);
      if it == |clients| {
        status := StsNotOk;
      } else if want.LcLock? && (state.StayAliveServices? || state.StayAliveConnected?) {
        status := StsOk;
        clients := clients[it := clients[it].(stayActive := want)];
        UpdateTcuParameters(ACTIVE);
      } else if want.LcRelease? {
        status := StsOk;
        clients := clients[it := clients[it].(stayActive := want)];
        UpdateTcuParameters(INACTIVE);
      } else if want.LcBub? && (state.StayAliveServices? || state.StayAliveConnected?)
                && info.can.CanOff? && info.battery.BatteryNok? {
        status := StsOk;
        UpdateTcuParameters(INACTIVE);
        clients := clients[it := clients[it].(stayActive := want)];
      } else {
        status := StsNotOk;
        UpdateTcuParameters(INACTIVE);
      }
      Unlock();
      PrintRegisteredClients();
    }

    /** Public and compiled, although its two call sites are commented out.  It takes no lock. */
    method EvaluateEmergency(name: Text, request: LcState, incoming: LcStatus) returns (status: LcStatus)
      requires Valid()
      modifies this`state, this`clients, legato, outside
      ensures Valid() && Did(StepEmergency(old(View()), name, request, incoming), old(outside.log))
      ensures status == EmergencyStatus(old(clients), name, request, old(state), incoming)
    {
      var alreadyInEmergency, cleanECall;
      status, alreadyInEmergency, cleanECall := VisitClients(name, request, incoming);
      ghost var mid := clients;
      if cleanECall {
        ClearECalls();
      }
      SettledByTwoPasses(old(clients), mid, clients, cleanECall, name, request, state);

      if status.StsOk? {
        if !alreadyInEmergency {
          if request.EmergencyLawLp? {
            state := EmergencyLawLp;
            NotifyAllRegisteredClientsNadStateInfo();
          }
        }
      }
    }

    /** The first pass. */
    method VisitClients(name: Text, request: LcState, incoming: LcStatus)
      returns (status: LcStatus, alreadyInEmergency: bool, cleanECall: bool)
      modifies this`clients
      ensures FirstPassDone(old(clients), clients, |clients|, name, request, state)
      ensures status == EmergencyStatus(old(clients), name, request, state, incoming)
      ensures alreadyInEmergency ==> request.On?
      ensures cleanECall <==> TakesOver(old(clients), name, request, state)
    {
      status := incoming;
      alreadyInEmergency := false;
      cleanECall := false;
      ghost var cs := clients;

      var it := 0;
      while it != |clients|
        invariant 0 <= it <= |clients| == |cs|
        invariant FirstPassDone(cs, clients, it, name, request, state)
        invariant alreadyInEmergency ==> request.On?
        invariant cleanECall <==> TakesOver(cs[..it], name, request, state)
        invariant status == EmergencyStatus(cs[..it], name, request, state, incoming)
      {
        GrantedSnoc(cs, it, name, request, state);
        status, alreadyInEmergency, cleanECall := VisitClient(it, name, request, status, alreadyInEmergency, cleanECall);
        it := it + 1;
      }
      assert cs[..it] == cs;
    }

    /** The body of the first pass, for the record at `it`. */
    method VisitClient(it: nat, name: Text, request: LcState, statusIn: LcStatus, alreadyIn: bool, cleanIn: bool)
      returns (status: LcStatus, alreadyInEmergency: bool, cleanECall: bool)
      requires it < |clients|
      modifies this`clients
      ensures clients == old(clients)[it := Settled(old(clients)[it], false, name, request, state)]
      ensures var granted := Grants(old(clients)[it], name, request, state);
              && status == (if granted then StsOk else statusIn)
              && cleanECall == (cleanIn || (granted && request.EmergencyLaw?))
      ensures alreadyInEmergency ==> alreadyIn || request.On?
    {
      status, alreadyInEmergency, cleanECall := statusIn, alreadyIn, cleanIn;
      if request.On? && clients[it].name == name {
        if clients[it].eCall {
          clients := clients[it := clients[it].(eCall := false)];
          status := StsOk;
        } else if clients[it].eCallLaw {
          clients := clients[it := clients[it].(eCallLaw := false)];
          status := StsOk;
        } else if clients[it].testMode {
          clients := clients[it := clients[it].(testMode := false)];
          status := StsOk;
        }
      } else if request.On? && clients[it].eCall && clients[it].name != name {
        alreadyInEmergency := true;
      } else if request.Emergency? && (state.On? || state.Emergency?) && clients[it].name == name {
        status := StsOk;
        clients := clients[it := clients[it].(eCall := true)];
      } else if request.EmergencyLaw?
                && (state.On? || state.Emergency? || state.StayAliveServices? || state.EmergencyLawLp?)
                && name == LEGISLATIVE_CLIENT && clients[it].name == name {
        status := StsOk;
        cleanECall := true;
        clients := clients[it := clients[it].(eCallLaw := true)];
      } else if request.EmergencyLaw? && (state.On? || state.Emergency?) && clients[it].name == name {
        status := StsOk;
        cleanECall := true;
        clients := clients[it := clients[it].(eCallLaw := true)];
      } else if request.TestMode? && (state.On? || state.Maintenance?) && clients[it].name == name {
        status := StsOk;
        clients := clients[it := clients[it].(testMode := true)];
      } else if request.EmergencyLawLp? && state.EmergencyLaw?
                && name == LEGISLATIVE_CLIENT && clients[it].name == name {
        status := StsOk;
      }
    }

    /** The second pass. */
    method ClearECalls()
      modifies this`clients
      ensures clients == Each((c: Client) => c.(eCall := false), old(clients))
    {
      ghost var cs := clients;
      var it := 0;
      while it != |clients|
        invariant 0 <= it <= |clients| == |cs|
        invariant forall i | 0 <= i < it :: clients[i] == cs[i].(eCall := false)
        invariant forall i | it <= i < |cs| :: clients[i] == cs[i]
      {
        if clients[it].eCall {
          clients := clients[it := clients[it].(eCall := false)];
        }
        it := it + 1;
      }
    }
  }

  /** CommonAPI_Client: the MCU front end.  `server` is null until `Init` has run. */
  class CommonApiClient {
    var server: LifecycleServer?

    constructor ()
      ensures server == null
    {
      server := null;
    }

    method Init(server: LifecycleServer)
      modifies this
      ensures this.server == server
    {
      this.server := server;
    }

    method OnPowerModeStatusChanged(mode: int)
      requires server != null ==> server.Valid()
      modifies server, if server == null then {} else {server.legato, server.outside}
      ensures server != null ==>
                && server.Valid()
                && server.Did(WholeMode(old(server.View()), mode), old(server.outside.log))
    {
      if server != null {
        server.SetPowerMode(mode);
      }
    }

    method OnSocWakeupReason(reason: int)
      requires server != null ==> server.Valid()
      modifies server
      ensures server != null ==>
                && server.Valid()
                && server.Did(StepPmWakeup(old(server.View()), reason), old(server.outside.log))
    {
      if server != null {
        server.SetPmWakeupSource(reason);
      }
    }

    method OnBatteryStatusChanged(kind: BatteryKind, status: int, unset: bool)
      requires server != null ==> server.Valid()
      modifies server, if server == null then {} else {server.legato, server.outside}
      ensures server != null ==>
                && server.Valid()
                && server.Did(StepBattery(old(server.View()), kind, status, unset), old(server.outside.log))
    {
      if kind.Thermal? {
        var overtemp := status == 0;
        if server != null {
          server.SetVtmState(overtemp);
        }
      } else {
        var ok := unset;
        if kind.MainBattery? {
          ok := status != 0;
        } else if kind.BackupBatteryKind? {
          ok := false;
        }
        if server != null {
          server.SetMainBattery(ok);
        }
      }
    }

    /** Unlike the other handlers this one calls the server without looking whether it is there. */
    method OnNtwSyncChanged(sync: int)
      requires server != null && server.Valid()
      modifies server
      ensures server == old(server) && server.Valid()
      ensures server.Did(StepNtwSync(old(server.View()), sync), old(server.outside.log))
    {
      var synchronized := sync != NTW_NOT_OK;
      server.SetNwSync(synchronized);
    }
  }

  lemma IndexIs(cs: seq<Client>, name: Text, i: nat)
    requires i <= |cs| && forall j | 0 <= j < i :: cs[j].name != name
    requires i < |cs| ==> cs[i].name == name
    ensures i == IndexOf(cs, name)
    ensures i < |cs| <==> Has(cs, name)
  {
  }

  /** The first pass has settled the first `n` records, take-over aside, and no others. */
  ghost predicate FirstPassDone(
    cs: seq<Client>, now: seq<Client>, n: nat, name: Text, request: LcState, state: LcState)
  {
    && n <= |cs| == |now|
    && (forall i | 0 <= i < n :: now[i] == Settled(cs[i], false, name, request, state))
    && (forall i | n <= i < |cs| :: now[i] == cs[i])
  }

  /** Both passes together settle every record as the rules say. */
  lemma SettledByTwoPasses(
    cs: seq<Client>, mid: seq<Client>, now: seq<Client>, clean: bool, name: Text, request: LcState, state: LcState)
    requires clean <==> TakesOver(cs, name, request, state)
    requires FirstPassDone(cs, mid, |cs|, name, request, state)
    requires now == if clean then Each((c: Client) => c.(eCall := false), mid) else mid
    ensures now == Settle(cs, name, request, state)
  {
    forall i | 0 <= i < |cs| ensures now[i] == Settled(cs[i], clean, name, request, state) {
      if clean {
        SettledTwice(cs[i], name, request, state);
      }
    }
  }

  lemma SettledTwice(c: Client, name: Text, request: LcState, state: LcState)
    requires request.EmergencyLaw?
    ensures Settled(c, true, name, request, state) == Settled(c, false, name, request, state).(eCall := false)
  {
  }

  lemma GrantedSnoc(cs: seq<Client>, i: nat, name: Text, request: LcState, state: LcState)
    requires i < |cs|
    ensures Granted(cs[..i + 1], name, request, state)
            <==> Granted(cs[..i], name, request, state) || Grants(cs[i], name, request, state)
  {
    assert cs[..i + 1] == cs[..i] + [cs[i]];
    assert forall c :: c in cs[..i + 1] <==> c in cs[..i] || c == cs[i];
  }
}
