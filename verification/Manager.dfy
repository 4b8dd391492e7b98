/** The lifecycle manager as a state machine.  A step is one handler, run to its end, except that
    the handler of a power-mode event stops at its two sleeps: between them any other handler may
    run.  One power-mode event is in progress at a time. */
module Manager {
  import opened Histories
  import opened LifecycleTypes
  import opened Names
  import opened Registry
  import opened EmergencyRules
  import opened LegatoTranslation

  /** Where the power-mode handler is: not running, in its 2 s sleep, or in its timer's sleep. */
  datatype Window = Closed | Settling | Timing

  datatype Manager = Manager(
    state: LcState,          // NAD_LifecycleState
    info: Info,              // NAD_additionalLifecycleStateInfo
    clients: seq<Client>,    // m_clients
    eventId: bool,           // m_lifecycleStateEvent has been created
    cache: LeInfo,           // m_LC_NOTIFICATION_BroadcastInfo_plus
    window: Window)

  datatype BatteryKind = Thermal | MainBattery | BackupBatteryKind | KindUnnamed

  datatype Event =
    // MCU attributes, as the front end receives them; `unset` is the value of the flag that the
    // front end leaves uninitialised for a status kind it does not name
    | PowerMode(mode: int)
    | SettleElapsed
    | TimerElapsed
    | BatteryThermal(kind: BatteryKind, status: int, unset: bool)
    | NtwSync(sync: int)
    | PmWakeup(reason: int)
    | SocketWakeup(reason: int)
    // client calls
    | Register(name: Text, incoming: LcStatus)
    | Unregister(name: Text)
    | StayActive(name: Text, want: StayActiveKind)
    | Wakeup
    | JumpToListen2
    | TriggerEmergency(request: LcState, callOk: bool)
    | EvaluateEmergency(name: Text, request: LcState, incoming: LcStatus)
    // Legato
    | Advertise
    | LegatoRegister(name: Text, defaultState: LcState, incoming: LcStatus)

  /** What one step does: the next state and the outputs, in order. */
  datatype Effect = Effect(next: Manager, outputs: seq<Output>)

  const ACTIVE := TcuParams(PendingActive, None, 1)
  const INACTIVE := TcuParams(PendingInactive, None, 1)

  predicate Listening(state: LcState)
  {
    state.Listen1? || state.Listen2? || state.Listen3?
  }

  predicate Alive(state: LcState)
  {
    state.StayAliveServices? || state.StayAliveConnected?
  }

  /** The state a power mode stands for; none for STAY_ALIVE_SERVICES and for unmapped modes. */
  function ModeState(mode: int): Option<LcState>
  {
    match mode
    case 0 => Some(Off)
    case 1 => Some(LcState.BackupBattery)
    case 2 => Some(Logistic)
    case 3 => Some(Maintenance)
    case 4 => Some(Reset)
    case 5 => Some(TestMode)
    case 6 => Some(On)
    case 7 => Some(Idle)
    case 8 => Some(StayAliveConnected)
    case 9 => Some(Sleep)
    case 10 => Some(RemoteWake)
    case 11 => Some(Init)
    case 12 => Some(Init)
    case 13 => Some(StayAliveServices)
    case 14 => Some(Shutdown)
    case 15 => Some(Listen1)
    case 16 => Some(Listen2)
    case 17 => Some(Listen3)
    case 18 => Some(DeepSleep)
    case 22 => Some(EmergencyLaw)
    case 23 => Some(Emergency)
    case 24 => Some(EmergencyLawLp)
    case 25 => Some(On)
    case _ => None
  }

  function RtcWakeup(state: LcState, wake: WakeupSource): WakeupSource
  {
    if state.Listen1? || state.Shutdown? then WakeLm1Rtc
    else if state.Listen3? then WakeLm3Rtc
    else wake
  }

  function PmWakeupSource(reason: int, state: LcState, wake: WakeupSource): WakeupSource
  {
    if reason == PM_CAN_ACTIVITY then WakeCan
    else if reason == PM_MAINBAT_WAKEUP then WakeMainBattery
    else if reason == PM_SMS then WakeSms
    else if reason == PM_IMU_WAKE then WakeAccelerometer
    else if reason == PM_SOC_RTC_WAKE then RtcWakeup(state, wake)
    else if reason == PM_LM3_RTC then WakeLm3Rtc
    else wake
  }

  function SocketWakeupSource(reason: int, state: LcState, wake: WakeupSource): WakeupSource
  {
    if reason == SOCKET_MQTT then WakeMqtt
    else if reason == SOCKET_SMS then WakeSms
    else if reason == SOCKET_RTC then RtcWakeup(state, wake)
    else WakeUnknown
  }

  /** Whether this stay-active request is permitted to a registered client. */
  predicate StayGranted(s: Manager, kind: StayActiveKind)
  {
    match kind
    case LcRelease => true
    case LcLock => Alive(s.state)
    case LcBub => Alive(s.state) && s.info.can.CanOff? && s.info.battery.BatteryNok?
    case LcStayUnnamed => false
  }

  function StayActiveStatus(s: Manager, name: Text, kind: StayActiveKind): LcStatus
  {
    if Has(s.clients, name) && StayGranted(s, kind) then StsOk else StsNotOk
  }

  function WakeupStatus(s: Manager): LcStatus
  {
    if Listening(s.state) || s.state.EmergencyLawLp? then StsOk else StsNotOk
  }

  function SnapshotOf(s: Manager): Snapshot
  {
    Snapshot(s.state, s.info)
  }

  /** NotifyAllRegisteredClientsNadStateInfo. */
  function Announced(s: Manager): Effect
  {
    if s.eventId then
      Effect(s.(cache := ToLe(SnapshotOf(s))), [Notified(SnapshotOf(s)), Reported(ToLe(SnapshotOf(s)))])
    else Effect(s, [Notified(SnapshotOf(s))])
  }

  function StepPowerMode(s: Manager, mode: int): Effect
  {
    if !s.window.Closed? then Effect(s, [])
    else if mode == MODE_STAY_ALIVE_SERVICES then
      Effect(s, if s.state.StayAliveServices? then [] else [Sent(ACTIVE)])
    else match ModeState(mode)
      case None => Effect(s, [])
      case Some(state) =>
        var entered := s.(state := state);
        if !state.StayAliveServices? then Announced(entered)
        else if Listening(s.state) || s.state.Shutdown? then
          var a := Announced(entered);
          Effect(a.next.(window := Timing), a.outputs + [Waited(200)])
        else Effect(entered.(window := Settling), [Waited(2)])
  }

  function StepSettle(s: Manager): Effect
  {
    if !s.window.Settling? then Effect(s, [])
    else
      var a := Announced(s);
      Effect(a.next.(window := Timing), a.outputs + [Waited(if s.info.wake.WakeAccelerometer? then 120 else 21)])
  }

  function StepTimer(s: Manager): Effect
  {
    if !s.window.Timing? then Effect(s, []) else Effect(s.(window := Closed), [Sent(INACTIVE)])
  }

  function StepBattery(s: Manager, kind: BatteryKind, status: int, unset: bool): Effect
  {
    match kind
    case Thermal => Announced(s.(info := s.info.(vtm := if status == 0 then VtmOvertemp else VtmNormal)))
    case MainBattery => Announced(s.(info := s.info.(battery := if status == 0 then BatteryNok else BatteryOk)))
    case BackupBatteryKind => Announced(s.(info := s.info.(battery := BatteryNok)))
    case KindUnnamed => Announced(s.(info := s.info.(battery := if unset then BatteryOk else BatteryNok)))
  }

  function StepStayActive(s: Manager, name: Text, kind: StayActiveKind): Effect
  {
    if !Has(s.clients, name) then Effect(s, [])
    else if StayGranted(s, kind) then
      Effect(s.(clients := WithStayActive(s.clients, name, kind)), [Sent(if kind.LcLock? then ACTIVE else INACTIVE)])
    else Effect(s, [Sent(INACTIVE)])
  }

  function StepWakeup(s: Manager): Effect
  {
    if s.state.EmergencyLawLp? then Announced(s.(state := EmergencyLaw))
    else if Listening(s.state) then
      var a := Announced(s.(state := StayAliveServices));
      Effect(a.next, [Sent(ACTIVE)] + a.outputs)
    else Effect(s, [])
  }

  function StepEmergency(s: Manager, name: Text, request: LcState, incoming: LcStatus): Effect
  {
    var settled := s.(clients := Settle(s.clients, name, request, s.state));
    if EmergencyStatus(s.clients, name, request, s.state, incoming).StsOk? && request.EmergencyLawLp?
    then Announced(settled.(state := EmergencyLawLp))
    else Effect(settled, [])
  }

  function StepRegister(s: Manager, name: Text, incoming: LcStatus): Effect
  {
    Effect(s.(clients := Registered(s.clients, Trim(name), s.state, incoming)), [])
  }

  function StepUnregister(s: Manager, name: Text): Effect
  {
    Effect(if Trim(name) == [] then s else s.(clients := Unregistered(s.clients, Trim(name))), [])
  }

  /** The state a registration hands back: the caller's own value if the name is blank. */
  function RegisterState(s: Manager, name: Text, defaultState: LcState): LcState
  {
    if Trim(name) == [] then defaultState else s.state
  }

  /** The state translator overwrites the cached state with what the registration handed back. */
  function StepLegatoRegister(s: Manager, name: Text, defaultState: LcState, incoming: LcStatus): Effect
  {
    var r := StepRegister(s, name, incoming).next;
    Effect(r.(cache := r.cache.(state := ToLeState(RegisterState(s, name, defaultState)))), [])
  }

  function StepNtwSync(s: Manager, sync: int): Effect
  {
    Effect(s.(info := s.info.(can := if sync == NTW_NOT_OK then CanOff else CanOn)), [])
  }

  function StepPmWakeup(s: Manager, reason: int): Effect
  {
    Effect(s.(info := s.info.(wake := PmWakeupSource(reason, s.state, s.info.wake))), [])
  }

  function StepSocketWakeup(s: Manager, reason: int): Effect
  {
    Effect(s.(info := s.info.(wake := SocketWakeupSource(reason, s.state, s.info.wake))), [])
  }

  function StepJump(s: Manager): Effect
  {
    Effect(s, [Sent(TcuParams(PendingInactive, Some(0), 1))])
  }

  function StepTrigger(s: Manager, request: LcState): Effect
  {
    Effect(s, if request.Emergency? || request.EmergencyLaw? || request.EmergencyLawLp? || request.On?
              then [CallStatusSent(request)] else [])
  }

  function Step(s: Manager, e: Event): Effect
  {
    match e
    case PowerMode(mode) => StepPowerMode(s, mode)
    case SettleElapsed => StepSettle(s)
    case TimerElapsed => StepTimer(s)
    case BatteryThermal(kind, status, unset) => StepBattery(s, kind, status, unset)
    case NtwSync(sync) => StepNtwSync(s, sync)
    case PmWakeup(reason) => StepPmWakeup(s, reason)
    case SocketWakeup(reason) => StepSocketWakeup(s, reason)
    case Register(name, incoming) => StepRegister(s, name, incoming)
    case Unregister(name) => StepUnregister(s, name)
    case StayActive(name, want) => StepStayActive(s, name, want)
    case Wakeup => StepWakeup(s)
    case JumpToListen2 => StepJump(s)
    case TriggerEmergency(request, _) => StepTrigger(s, request)
    case EvaluateEmergency(name, request, incoming) => StepEmergency(s, name, request, incoming)
    case Advertise => Effect(s.(eventId := true), [])
    case LegatoRegister(name, defaultState, incoming) => StepLegatoRegister(s, name, defaultState, incoming)
  }

  // ---- the state and the information after one event ------------------------------

  /** The event writes NAD_LifecycleState, and with which value. */
  function StateSet(s: Manager, e: Event): Option<LcState>
  {
    match e
    case PowerMode(mode) => if s.window.Closed? then ModeState(mode) else None
    case Wakeup =>
      if s.state.EmergencyLawLp? then Some(EmergencyLaw)
      else if Listening(s.state) then Some(StayAliveServices)
      else None
    case EvaluateEmergency(name, request, incoming) =>
      if request.EmergencyLawLp? && EmergencyStatus(s.clients, name, request, s.state, incoming).StsOk?
      then Some(EmergencyLawLp) else None
    case _ => None
  }

  /** The event writes the main-battery status, and with which value. */
  function BatterySet(e: Event): Option<BatteryStatus>
  {
    match e
    case BatteryThermal(MainBattery, status, _) => Some(if status == 0 then BatteryNok else BatteryOk)
    case BatteryThermal(BackupBatteryKind, _, _) => Some(BatteryNok)
    case BatteryThermal(KindUnnamed, _, unset) => Some(if unset then BatteryOk else BatteryNok)
    case _ => None
  }

  function CanSet(e: Event): Option<CanStatus>
  {
    match e
    case NtwSync(sync) => Some(if sync == NTW_NOT_OK then CanOff else CanOn)
    case _ => None
  }

  function VtmSet(e: Event): Option<VtmState>
  {
    match e
    case BatteryThermal(Thermal, status, _) => Some(if status == 0 then VtmOvertemp else VtmNormal)
    case _ => None
  }

  function Else<T>(o: Option<T>, otherwise: T): T
  {
    match o case Some(t) => t case None => otherwise
  }

  lemma StepState(s: Manager, e: Event)
    ensures Step(s, e).next.state == Else(StateSet(s, e), s.state)
  {
  }

  lemma StepInfo(s: Manager, e: Event)
    ensures var next := Step(s, e).next.info;
            && next.battery == Else(BatterySet(e), s.info.battery)
            && next.can == Else(CanSet(e), s.info.can)
            && next.vtm == Else(VtmSet(e), s.info.vtm)
            && next.wake == match e
                            case PmWakeup(reason) => PmWakeupSource(reason, s.state, s.info.wake)
                            case SocketWakeup(reason) => SocketWakeupSource(reason, s.state, s.info.wake)
                            case _ => s.info.wake
  {
  }

  function Then(a: Effect, b: Effect): Effect
  {
    Effect(b.next, a.outputs + b.outputs)
  }

  /** A power-mode handler that nothing interleaves with: its event and the sleeps it needs. */
  function WholeMode(s: Manager, mode: int): Effect
  {
    var begun := StepPowerMode(s, mode);
    var settled := Then(begun, StepSettle(begun.next));
    Then(settled, StepTimer(settled.next))
  }

  /** evaluateAndBroadcastPowerMode without interruption, for the mapped state. */
  function EnterState(s: Manager, state: LcState): Effect
  {
    var a := Announced(s.(state := state));
    if !state.StayAliveServices? then a
    else if Listening(s.state) || s.state.Shutdown? then
      Effect(a.next, a.outputs + [Waited(200), Sent(INACTIVE)])
    else
      var timer := if s.info.wake.WakeAccelerometer? then 120 else 21;
      Effect(a.next, [Waited(2)] + a.outputs + [Waited(timer), Sent(INACTIVE)])
  }

  /** The uninterrupted handler: a mapped mode enters its state, STAY_ALIVE_SERVICES may send, and
      every other mode does nothing. */
  lemma WholeModeEnters(s: Manager, mode: int)
    requires s.window.Closed?
    ensures ModeState(mode).Some? ==> WholeMode(s, mode) == EnterState(s, ModeState(mode).value)
    ensures mode == MODE_STAY_ALIVE_SERVICES ==>
              WholeMode(s, mode) == Effect(s, if s.state.StayAliveServices? then [] else [Sent(ACTIVE)])
    ensures ModeState(mode) == None && mode != MODE_STAY_ALIVE_SERVICES ==> WholeMode(s, mode) == Effect(s, [])
  {
  }

  /** The event can happen: a new power-mode event waits for the previous one to finish. */
  predicate Enabled(s: Manager, e: Event)
  {
    match e
    case PowerMode(_) => s.window.Closed?
    case SettleElapsed => s.window.Settling?
    case TimerElapsed => s.window.Timing?
    case _ => true
  }

  const NEXT: (Manager, Event) -> Manager := (s, e) => Step(s, e).next
  const OUTPUTS: (Manager, Event) -> seq<Output> := (s, e) => Step(s, e).outputs

  /** The state after a history of events. */
  function Run(s: Manager, es: seq<Event>): Manager
  {
    Fold(NEXT, s, es)
  }

  /** Everything output during a history of events. */
  function Log(s: Manager, es: seq<Event>): seq<Output>
  {
    Trace(NEXT, OUTPUTS, s, es)
  }

  ghost predicate Legal(s: Manager, es: seq<Event>)
  {
    forall i | 0 <= i < |es| :: Enabled(Run(s, es[..i]), es[i])
  }

  /** The state in which event `i` of the history is handled. */
  function At(s: Manager, es: seq<Event>, i: nat): Manager
    requires i <= |es|
  {
    Run(s, es[..i])
  }

  lemma RunEmpty(s: Manager)
    ensures Run(s, []) == s && Log(s, []) == []
  {
  }

  /** The last event of a history, taken apart. */
  lemma RunLast(s: Manager, es: seq<Event>)
    requires es != []
    ensures var before := Run(s, es[..|es| - 1]);
            && Run(s, es) == Step(before, es[|es| - 1]).next
            && Log(s, es) == Log(s, es[..|es| - 1]) + Step(before, es[|es| - 1]).outputs
  {
  }

  lemma RunSnoc(s: Manager, es: seq<Event>, e: Event)
    ensures Run(s, es + [e]) == Step(Run(s, es), e).next
    ensures Log(s, es + [e]) == Log(s, es) + Step(Run(s, es), e).outputs
  {
    assert (es + [e])[..|es|] == es;
    RunLast(s, es + [e]);
  }

  lemma RunSplit(s: Manager, es: seq<Event>, fs: seq<Event>)
    ensures Run(s, es + fs) == Run(Run(s, es), fs)
    ensures Log(s, es + fs) == Log(s, es) + Log(Run(s, es), fs)
  {
    FoldSplit(NEXT, s, es, fs);
    TraceSplit(NEXT, OUTPUTS, s, es, fs);
  }

  /** The events of an uninterrupted handler. */
  function ModeEvents(s: Manager, mode: int): seq<Event>
  {
    if ModeState(mode) != Some(StayAliveServices) then [PowerMode(mode)]
    else if Listening(s.state) || s.state.Shutdown? then [PowerMode(mode)] + [TimerElapsed]
    else [PowerMode(mode), SettleElapsed] + [TimerElapsed]
  }

  /** The uninterrupted handler is the history of its own events. */
  lemma WholeModeIsRun(s: Manager, mode: int)
    requires s.window.Closed?
    ensures WholeMode(s, mode) == Effect(Run(s, ModeEvents(s, mode)), Log(s, ModeEvents(s, mode)))
    ensures WholeMode(s, mode).next.window.Closed?
  {
    var begun := StepPowerMode(s, mode);
    RunOne(s, PowerMode(mode));
    if ModeState(mode) == Some(StayAliveServices) {
      if begun.next.window.Timing? {
        RunMore(s, [PowerMode(mode)], begun, TimerElapsed);
      } else {
        var settled := Then(begun, StepSettle(begun.next));
        RunMore(s, [PowerMode(mode)], begun, SettleElapsed);
        assert [PowerMode(mode)] + [SettleElapsed] == [PowerMode(mode), SettleElapsed];
        RunMore(s, [PowerMode(mode), SettleElapsed], settled, TimerElapsed);
      }
    }
  }

  lemma RunOne(s: Manager, e: Event)
    ensures Run(s, [e]) == Step(s, e).next && Log(s, [e]) == Step(s, e).outputs
  {
    assert [] + [e] == [e];
    RunEmpty(s);
    RunSnoc(s, [], e);
  }

  lemma RunMore(s: Manager, es: seq<Event>, sofar: Effect, e: Event)
    requires sofar == Effect(Run(s, es), Log(s, es))
    ensures Then(sofar, Step(sofar.next, e)) == Effect(Run(s, es + [e]), Log(s, es + [e]))
  {
    RunSnoc(s, es, e);
  }

  lemma AtNext(s: Manager, es: seq<Event>, i: nat)
    requires i < |es|
    ensures At(s, es, i + 1) == Step(At(s, es, i), es[i]).next
  {
    assert es[..i + 1][..i] == es[..i];
    RunLast(s, es[..i + 1]);
  }

  lemma AtPrefix(s: Manager, es: seq<Event>, k: nat, i: nat)
    requires i <= k <= |es|
    ensures At(s, es[..k], i) == At(s, es, i)
  {
    assert es[..k][..i] == es[..i];
  }
}
