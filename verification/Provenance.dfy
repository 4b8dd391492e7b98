/** Where the manager's values come from: for each component of its state, which event of the
    history wrote it last and what that event means, in the numbers the outside uses; and what a
    granted backup-battery request (LC_BUB) proves about the past. */
module Provenance {
  import opened LifecycleTypes
  import opened Registry
  import opened EmergencyRules
  import opened Manager

  // ---- the lifecycle state ----------------------------------------------------------

  /** The power modes that stand for a state, as the mode enumeration numbers them. */
  predicate ModeFor(mode: int, state: LcState)
  {
    match state
    case Off => mode == 0
    case BackupBattery => mode == 1
    case Logistic => mode == 2
    case Maintenance => mode == 3
    case Reset => mode == 4
    case TestMode => mode == 5                     // bench
    case On => mode == 6 || mode == 25             // full operation, NAD on
    case Idle => mode == 7
    case StayAliveConnected => mode == 8           // timed
    case Sleep => mode == 9                        // standby
    case RemoteWake => mode == 10                  // partial operation
    case Init => mode == 11 || mode == 12
    case StayAliveServices => mode == 13           // TCU only
    case Shutdown => mode == 14                    // suspend to RAM
    case Listen1 => mode == 15
    case Listen2 => mode == 16
    case Listen3 => mode == 17
    case DeepSleep => mode == 18
    case EmergencyLaw => mode == 22
    case Emergency => mode == 23
    case EmergencyLawLp => mode == 24
    case SwUpdate => false
    case StateUnnamed => false
  }

  /** All modes but 19, 20 and 21 of the enumeration stand for a state. */
  predicate MappedMode(mode: int)
  {
    0 <= mode <= 18 || 22 <= mode <= 25
  }

  /** The emergency request brings the low-power state. */
  predicate LowersPower(s: Manager, name: Text, request: LcState, incoming: LcStatus)
  {
    && request.EmergencyLawLp?
    && (|| incoming.StsOk?
        || (s.state.EmergencyLaw? && name == LEGISLATIVE_CLIENT && Has(s.clients, name)))
  }

  /** The event, handled in `s`, writes the lifecycle state. */
  predicate SetsState(s: Manager, e: Event)
  {
    match e
    case PowerMode(mode) => s.window.Closed? && MappedMode(mode)
    case Wakeup => s.state.Listen1? || s.state.Listen2? || s.state.Listen3? || s.state.EmergencyLawLp?
    case EvaluateEmergency(name, request, incoming) => LowersPower(s, name, request, incoming)
    case _ => false
  }

  /** The event, handled in `s`, puts the manager into `state`. */
  predicate Brings(s: Manager, e: Event, state: LcState)
  {
    match e
    case PowerMode(mode) => s.window.Closed? && ModeFor(mode, state)
    case Wakeup =>
      || (state.StayAliveServices? && (s.state.Listen1? || s.state.Listen2? || s.state.Listen3?))
      || (state.EmergencyLaw? && s.state.EmergencyLawLp?)
    case EvaluateEmergency(name, request, incoming) =>
      state.EmergencyLawLp? && LowersPower(s, name, request, incoming)
    case _ => false
  }

  lemma ModeMeans(mode: int, state: LcState)
    ensures ModeState(mode) == Some(state) <==> ModeFor(mode, state)
    ensures ModeState(mode) == None <==> !MappedMode(mode)
  {
  }

  lemma StateSetMeans(s: Manager, e: Event, state: LcState)
    ensures StateSet(s, e) == Some(state) <==> Brings(s, e, state)
    ensures StateSet(s, e).Some? <==> SetsState(s, e)
  {
    match e
    case PowerMode(mode) => ModeMeans(mode, state);
    case EvaluateEmergency(name, request, incoming) => LowersPowerMeans(s, name, request, incoming);
    case _ =>
  }

  lemma LowersPowerMeans(s: Manager, name: Text, request: LcState, incoming: LcStatus)
    ensures LowersPower(s, name, request, incoming)
            <==> request.EmergencyLawLp? && EmergencyStatus(s.clients, name, request, s.state, incoming).StsOk?
  {
    if request.EmergencyLawLp? {
      if c :| c in s.clients && c.name == name {
        assert Grants(c, name, request, s.state) <==> s.state.EmergencyLaw? && name == LEGISLATIVE_CLIENT;
      }
    }
  }

  /** One event: the state is the one it brings, or as before. */
  lemma StepBrings(s: Manager, e: Event, state: LcState)
    ensures Step(s, e).next.state == state <==> if SetsState(s, e) then Brings(s, e, state) else s.state == state
  {
    StepState(s, e);
    StateSetMeans(s, e, state);
  }

  /** A mode that stands for no state does nothing at all, STAY_ALIVE_SERVICES (19) apart. */
  lemma UnmappedModeDoesNothing(s: Manager, mode: int)
    requires !MappedMode(mode) && mode != 19
    ensures Step(s, PowerMode(mode)) == Effect(s, [])
  {
    ModeMeans(mode, s.state);
  }

  predicate SetsStateAt(s: Manager, es: seq<Event>, j: nat)
    requires j < |es|
  {
    SetsState(At(s, es, j), es[j])
  }

  ghost predicate LastState(s: Manager, es: seq<Event>, k: nat)
  {
    k < |es| && SetsStateAt(s, es, k) && forall j: nat | k < j < |es| :: !SetsStateAt(s, es, j)
  }

  lemma LastStateBefore(s: Manager, es: seq<Event>, k: nat)
    requires LastState(s, es, k) && k < |es| - 1
    ensures LastState(s, es[..|es| - 1], k) && !SetsState(Run(s, es[..|es| - 1]), es[|es| - 1])
    ensures At(s, es[..|es| - 1], k) == At(s, es, k)
  {
    var n := |es| - 1;
    forall j: nat | j < n ensures At(s, es[..n], j) == At(s, es, j) {
      AtPrefix(s, es, n, j);
    }
    assert !SetsStateAt(s, es, n);
    assert forall j: nat | j < n :: SetsStateAt(s, es[..n], j) == SetsStateAt(s, es, j);
  }

  lemma StateInRun(s: Manager, es: seq<Event>, state: LcState)
    requires es != []
    ensures var before, e := Run(s, es[..|es| - 1]), es[|es| - 1];
            Run(s, es).state == state <==> if SetsState(before, e) then Brings(before, e, state) else before.state == state
  {
    RunLast(s, es);
    StepBrings(Run(s, es[..|es| - 1]), es[|es| - 1], state);
  }

  /** At the end of any history the manager is in `state` if and only if the last event that wrote
      the state brought this one; for a power mode that means one of the numbers of `state`. */
  lemma {:induction false} StateIsLastSet(s: Manager, es: seq<Event>, k: nat, state: LcState)
    requires LastState(s, es, k)
    ensures Run(s, es).state == state <==> Brings(At(s, es, k), es[k], state)
  {
    StateInRun(s, es, state);
    if k < |es| - 1 {
      LastStateBefore(s, es, k);
      StateIsLastSet(s, es[..|es| - 1], k, state);
    } else {
      assert SetsStateAt(s, es, k);
    }
  }

  /** Without such an event the state is the one the history began in. */
  lemma {:induction false} StateNeverSet(s: Manager, es: seq<Event>)
    requires forall j: nat | j < |es| :: !SetsStateAt(s, es, j)
    ensures Run(s, es).state == s.state
  {
    if es == [] {
      RunEmpty(s);
    } else {
      var n := |es| - 1;
      forall j: nat | j < n ensures !SetsStateAt(s, es[..n], j) {
        AtPrefix(s, es, n, j);
        assert !SetsStateAt(s, es, j);
      }
      assert !SetsStateAt(s, es, n);
      StateNeverSet(s, es[..n]);
      StateInRun(s, es, s.state);
    }
  }

  // ---- battery, thermal state, network -----------------------------------------------

  /** The event reports an empty main battery or the backup battery.  For a status kind that the
      front end does not name, this is whatever its uninitialised flag says. */
  predicate BatteryLost(e: Event)
  {
    e.BatteryThermal? &&
    match e.kind
    case Thermal => false
    case MainBattery => e.status == 0
    case BackupBatteryKind => true
    case KindUnnamed => !e.unset
  }

  predicate OfBattery(e: Event)
  {
    e.BatteryThermal? && !e.kind.Thermal?
  }

  predicate OfThermal(e: Event)
  {
    e.BatteryThermal? && e.kind.Thermal?
  }

  /** The network-sync value 1 is NTW_NOT_OK. */
  predicate NetworkLost(e: Event)
  {
    e == NtwSync(1)
  }

  /** What one event makes of these three values. */
  lemma StepValues(s: Manager, e: Event)
    ensures var next := Step(s, e).next.info;
            && next.battery == (if !OfBattery(e) then s.info.battery
                                else if BatteryLost(e) then BatteryNok
                                else BatteryOk)
            && next.vtm == (if !OfThermal(e) then s.info.vtm
                            else if e.status == 0 then VtmOvertemp
                            else VtmNormal)
            && next.can == if !e.NtwSync? then s.info.can else if NetworkLost(e) then CanOff else CanOn
  {
    StepInfo(s, e);
  }

  ghost predicate LastBattery(es: seq<Event>, k: nat)
  {
    k < |es| && OfBattery(es[k]) && forall j | k < j < |es| :: !OfBattery(es[j])
  }

  ghost predicate LastThermal(es: seq<Event>, k: nat)
  {
    k < |es| && OfThermal(es[k]) && forall j | k < j < |es| :: !OfThermal(es[j])
  }

  ghost predicate LastCan(es: seq<Event>, k: nat)
  {
    k < |es| && es[k].NtwSync? && forall j | k < j < |es| :: !es[j].NtwSync?
  }

  lemma {:induction false} BatteryIsLastSet(s: Manager, es: seq<Event>, k: nat)
    requires LastBattery(es, k)
    ensures Run(s, es).info.battery == if BatteryLost(es[k]) then BatteryNok else BatteryOk
  {
    var init := es[..|es| - 1];
    RunLast(s, es);
    StepValues(Run(s, init), es[|es| - 1]);
    if k < |init| {
      BatteryIsLastSet(s, init, k);
    }
  }

  /** The thermal state is over-temperature exactly when the last thermal event had status 0. */
  lemma {:induction false} ThermalIsLastSet(s: Manager, es: seq<Event>, k: nat)
    requires LastThermal(es, k)
    ensures Run(s, es).info.vtm == if es[k].status == 0 then VtmOvertemp else VtmNormal
  {
    var init := es[..|es| - 1];
    RunLast(s, es);
    StepValues(Run(s, init), es[|es| - 1]);
    if k < |init| {
      ThermalIsLastSet(s, init, k);
    }
  }

  lemma {:induction false} CanIsLastSet(s: Manager, es: seq<Event>, k: nat)
    requires LastCan(es, k)
    ensures Run(s, es).info.can == if NetworkLost(es[k]) then CanOff else CanOn
  {
    var init := es[..|es| - 1];
    RunLast(s, es);
    StepValues(Run(s, init), es[|es| - 1]);
    if k < |init| {
      CanIsLastSet(s, init, k);
    }
  }

  // ---- the wakeup source ----------------------------------------------------------------

  /** A real-time-clock wakeup, of the power manager (13) or of the modem socket (3). */
  predicate ByClock(e: Event)
  {
    e == PmWakeup(13) || e == SocketWakeup(3)
  }

  /** The event, handled in `s`, reports the wakeup source `wake`. */
  predicate WakesBy(s: Manager, e: Event, wake: WakeupSource)
  {
    match wake
    case WakeCan => e == PmWakeup(1)
    case WakeMainBattery => e == PmWakeup(12)
    case WakeAccelerometer => e == PmWakeup(9)
    case WakeSms => e == PmWakeup(3) || e == SocketWakeup(0)
    case WakeMqtt => e == SocketWakeup(4)
    case WakeLm1Rtc => ByClock(e) && (s.state.Listen1? || s.state.Shutdown?)
    case WakeLm3Rtc => e == PmWakeup(7) || (ByClock(e) && s.state.Listen3?)
    case WakeUnknown => e.SocketWakeup? && e.reason != 0 && e.reason != 3 && e.reason != 4
    case WakeUnnamed => false
  }

  /** The event reports some wakeup source: a clock wakeup only in LISTEN_1, LISTEN_3 or SHUTDOWN,
      an unknown reason only if it comes from the socket. */
  predicate ReportsWakeup(s: Manager, e: Event)
  {
    || e in {PmWakeup(1), PmWakeup(3), PmWakeup(7), PmWakeup(9), PmWakeup(12)}
    || (e.SocketWakeup? && e.reason != 3)
    || (ByClock(e) && (s.state.Listen1? || s.state.Listen3? || s.state.Shutdown?))
  }

  lemma StepWakes(s: Manager, e: Event, wake: WakeupSource)
    ensures Step(s, e).next.info.wake == wake
            <==> if ReportsWakeup(s, e) then WakesBy(s, e, wake) else s.info.wake == wake
  {
    StepInfo(s, e);
  }

  predicate ReportsWakeupAt(s: Manager, es: seq<Event>, j: nat)
    requires j < |es|
  {
    ReportsWakeup(At(s, es, j), es[j])
  }

  ghost predicate LastWakeup(s: Manager, es: seq<Event>, k: nat)
  {
    k < |es| && ReportsWakeupAt(s, es, k) && forall j: nat | k < j < |es| :: !ReportsWakeupAt(s, es, j)
  }

  lemma LastWakeupBefore(s: Manager, es: seq<Event>, k: nat)
    requires LastWakeup(s, es, k) && k < |es| - 1
    ensures LastWakeup(s, es[..|es| - 1], k) && !ReportsWakeup(Run(s, es[..|es| - 1]), es[|es| - 1])
    ensures At(s, es[..|es| - 1], k) == At(s, es, k)
  {
    var n := |es| - 1;
    forall j: nat | j < n ensures At(s, es[..n], j) == At(s, es, j) {
      AtPrefix(s, es, n, j);
    }
    assert !ReportsWakeupAt(s, es, n);
    assert forall j: nat | j < n :: ReportsWakeupAt(s, es[..n], j) == ReportsWakeupAt(s, es, j);
  }

  lemma WakeupInRun(s: Manager, es: seq<Event>, wake: WakeupSource)
    requires es != []
    ensures var before, e := Run(s, es[..|es| - 1]), es[|es| - 1];
            Run(s, es).info.wake == wake
            <==> if ReportsWakeup(before, e) then WakesBy(before, e, wake) else before.info.wake == wake
  {
    RunLast(s, es);
    StepWakes(Run(s, es[..|es| - 1]), es[|es| - 1], wake);
  }

  /** The wakeup source is the one the last reporting event stands for. */
  lemma {:induction false} WakeupIsLastSet(s: Manager, es: seq<Event>, k: nat, wake: WakeupSource)
    requires LastWakeup(s, es, k)
    ensures Run(s, es).info.wake == wake <==> WakesBy(At(s, es, k), es[k], wake)
  {
    WakeupInRun(s, es, wake);
    if k < |es| - 1 {
      LastWakeupBefore(s, es, k);
      WakeupIsLastSet(s, es[..|es| - 1], k, wake);
    } else {
      assert ReportsWakeupAt(s, es, k);
    }
  }

  // ---- the backup-battery request ---------------------------------------------------------

  /** The event, handled in state `s`, starts a stay-alive phase: TCU_ONLY (13), TIMED (8) or a
      wakeup from a listening state. */
  predicate StartsStayAlive(s: Manager, e: Event)
  {
    || e == PowerMode(13) || e == PowerMode(8)
    || (e.Wakeup? && (s.state.Listen1? || s.state.Listen2? || s.state.Listen3?))
  }

  /** LC_BUB is granted exactly when the last battery event reported a lost battery, the last
      network event a lost network, and the last event that set the state started a stay-alive
      phase. */
  lemma BubProvenance(s: Manager, es: seq<Event>, name: Text, battery: nat, network: nat, mode: nat)
    requires LastBattery(es, battery) && LastCan(es, network) && LastState(s, es, mode)
    ensures StayActiveStatus(Run(s, es), name, LcBub) == StsOk
            <==> && Has(Run(s, es).clients, name)
                 && BatteryLost(es[battery])
                 && NetworkLost(es[network])
                 && StartsStayAlive(At(s, es, mode), es[mode])
  {
    BatteryIsLastSet(s, es, battery);
    CanIsLastSet(s, es, network);
    StateIsLastSet(s, es, mode, StayAliveServices);
    StateIsLastSet(s, es, mode, StayAliveConnected);
  }
}
