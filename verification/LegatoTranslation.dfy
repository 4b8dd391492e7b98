/** The translations between the CommonAPI values and the Legato values. */
module LegatoTranslation {
  import opened LifecycleTypes

  function ToLeState(state: LcState): LeState
  {
    match state
    case Init => LeInit
    case BackupBattery => LeBackupBattery
    case DeepSleep => LeDeepSleep
    case RemoteWake => LeRemoteWake
    case On => LeOn
    case Off => LeOff
    case StayAliveServices => LeStayAliveServices
    case Shutdown => LeShutdown
    case Sleep => LeSleep
    case Listen1 => LeListen1
    case Listen2 => LeListen2
    case Listen3 => LeListen3
    case Emergency => LeEmergency
    case Maintenance => LeMaintenance
    case TestMode => LeTestMode
    case SwUpdate => LeSwUpdate
    case Logistic => LeLogistic
    case Reset => LeReset
    case EmergencyLaw => LeEmergencyLaw
    case Idle => LeIdle
    case EmergencyLawLp => LeEmergencyLawLp
    case StayAliveConnected => LeStayAliveConnected
    case StateUnnamed => LeIdle
  }

  function FromLeState(state: LeState): LcState
  {
    match state
    case LeInit => Init
    case LeBackupBattery => BackupBattery
    case LeOn => On
    case LeOff => Off
    case LeStayAliveServices => StayAliveServices
    case LeShutdown => Shutdown
    case LeSleep => Sleep
    case LeDeepSleep => DeepSleep
    case LeListen1 => Listen1
    case LeListen2 => Listen2
    case LeListen3 => Listen3
    case LeEmergency => Emergency
    case LeMaintenance => Maintenance
    case LeTestMode => TestMode
    case LeSwUpdate => SwUpdate
    case LeLogistic => Logistic
    case LeReset => Reset
    case LeEmergencyLaw => EmergencyLaw
    case LeIdle => Idle
    case LeEmergencyLawLp => EmergencyLawLp
    case LeRemoteWake => RemoteWake
    case LeStayAliveConnected => StayAliveConnected
    case LeStateUnnamed => Idle
  }

  function ToLeWakeup(wake: WakeupSource): LeWakeup
  {
    match wake
    case WakeLm1Rtc => LeWakeLm1Rtc
    case WakeMainBattery => LeWakeMainBattery
    case WakeAccelerometer => LeWakeAccelerometer
    case WakeCan => LeWakeCan
    case WakeLm3Rtc => LeWakeLm3Rtc
    case WakeSms => LeWakeSms
    case WakeMqtt => LeWakeMqtt
    case WakeUnknown => LeWakeUnknown
    case WakeUnnamed => LeWakeUnknown
  }

  /** The CAN translation exchanges on and off. */
  function ToLeCan(can: CanStatus): LeCan
  {
    match can
    case CanOff => LeCanOn
    case CanOn => LeCanOff
    case CanUnnamed => LeCanOff
  }

  function ToLeBattery(battery: BatteryStatus): LeBattery
  {
    match battery
    case BatteryNok => LeBatteryNok
    case BatteryOk => LeBatteryOk
    case BatteryUnnamed => LeBatteryNok
  }

  function ToLeVtm(vtm: VtmState): LeVtm
  {
    match vtm
    case VtmNormal => LeVtmNormal
    case VtmOvertemp => LeVtmOvertemp
    case VtmUnnamed => LeVtmNormal
  }

  function ToLe(s: Snapshot): LeInfo
  {
    LeInfo(ToLeState(s.state), ToLeWakeup(s.info.wake), ToLeCan(s.info.can),
           ToLeBattery(s.info.battery), ToLeVtm(s.info.vtm))
  }

  function ToLeStatus(status: LcStatus): LeStatus
  {
    match status
    case StsNotOk => LeStsNotOk
    case StsNotRegistered => LeStsNotRegistered
    case StsOk => LeStsOk
    case StsAlreadyRegistered => LeStsAlreadyRegistered
    case StsUnnamed => LeStsNotOk
  }

  function FromLeStayActive(kind: LeStayActive): StayActiveKind
  {
    match kind
    case LeRelease => LcRelease
    case LeLock => LcLock
    case LeBub => LcBub
    case LeStayUnnamed => LcRelease
  }

  /** What a Legato listener can reconstruct of the CommonAPI tuple. */
  function FromLe(le: LeInfo): Snapshot
  {
    Snapshot(
      FromLeState(le.state),
      Info(
        match le.wake
        case LeWakeUnknown => WakeUnknown
        case LeWakeLm1Rtc => WakeLm1Rtc
        case LeWakeMainBattery => WakeMainBattery
        case LeWakeAccelerometer => WakeAccelerometer
        case LeWakeCan => WakeCan
        case LeWakeLm3Rtc => WakeLm3Rtc
        case LeWakeSms => WakeSms
        case LeWakeMqtt => WakeMqtt,
        if le.can.LeCanOn? then CanOff else CanOn,
        if le.battery.LeBatteryNok? then BatteryNok else BatteryOk,
        if le.vtm.LeVtmNormal? then VtmNormal else VtmOvertemp))
  }

  /** Every value of the tuple is one the manager names. */
  predicate Named(s: Snapshot)
  {
    && !s.state.StateUnnamed?
    && !s.info.wake.WakeUnnamed?
    && !s.info.can.CanUnnamed?
    && !s.info.battery.BatteryUnnamed?
    && !s.info.vtm.VtmUnnamed?
  }

  /** The translation loses nothing exactly on the named tuples, CAN exchange included. */
  lemma TranslationInverts(s: Snapshot)
    ensures FromLe(ToLe(s)) == s <==> Named(s)
  {
  }
}
