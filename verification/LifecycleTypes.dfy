/** The values the lifecycle manager passes around: the CommonAPI enumerations, the Legato
    enumerations, the client record, and the observable outputs.

    The interface definition files of both channels are not part of this model.  Each enumeration has the
    literals the manager names.  One that the manager reads has one `...Unnamed` constructor more,
    for every literal it does not name, so that the `default` and last `else` branches of the
    source keep a meaning; the others are only handed out. */
module LifecycleTypes {

  /** A client name or a message: the numeric value of each `char` as the compiler reads it.
      A signed `char` above 127 is a negative code, an unsigned one is not; both are covered. */
  type Text = seq<int>

  datatype Option<+T> = None | Some(value: T)

  datatype LcState =
    | Init | BackupBattery | DeepSleep | RemoteWake | On | Off | StayAliveServices | Shutdown
    | Sleep | Listen1 | Listen2 | Listen3 | Emergency | Maintenance | TestMode | SwUpdate
    | Logistic | Reset | EmergencyLaw | Idle | EmergencyLawLp | StayAliveConnected | StateUnnamed

  datatype WakeupSource =
    | WakeUnknown | WakeLm1Rtc | WakeMainBattery | WakeAccelerometer | WakeCan | WakeLm3Rtc
    | WakeSms | WakeMqtt | WakeUnnamed

  datatype CanStatus = CanOff | CanOn | CanUnnamed

  datatype BatteryStatus = BatteryNok | BatteryOk | BatteryUnnamed

  datatype VtmState = VtmNormal | VtmOvertemp | VtmUnnamed

  datatype LcStatus = StsOk | StsNotOk | StsNotRegistered | StsAlreadyRegistered | StsUnnamed

  datatype StayActiveKind = LcRelease | LcLock | LcBub | LcStayUnnamed

  /** NAD_additionalLifecycleStateInfo. */
  datatype Info = Info(wake: WakeupSource, can: CanStatus, battery: BatteryStatus, vtm: VtmState)

  /** The five values of one CommonAPI state notification. */
  datatype Snapshot = Snapshot(state: LcState, info: Info)

  datatype LeState =
    | LeInit | LeBackupBattery | LeDeepSleep | LeRemoteWake | LeOn | LeOff | LeStayAliveServices
    | LeShutdown | LeSleep | LeListen1 | LeListen2 | LeListen3 | LeEmergency | LeMaintenance
    | LeTestMode | LeSwUpdate | LeLogistic | LeReset | LeEmergencyLaw | LeIdle
    | LeEmergencyLawLp | LeStayAliveConnected | LeStateUnnamed

  datatype LeWakeup =
    | LeWakeUnknown | LeWakeLm1Rtc | LeWakeMainBattery | LeWakeAccelerometer | LeWakeCan
    | LeWakeLm3Rtc | LeWakeSms | LeWakeMqtt

  datatype LeCan = LeCanOff | LeCanOn

  datatype LeBattery = LeBatteryNok | LeBatteryOk

  datatype LeVtm = LeVtmNormal | LeVtmOvertemp

  datatype LeStatus = LeStsOk | LeStsNotOk | LeStsNotRegistered | LeStsAlreadyRegistered

  datatype LeStayActive = LeRelease | LeLock | LeBub | LeStayUnnamed

  /** lifecycleBroadcastinfo_plus_type: the cached tuple that Legato handlers read. */
  datatype LeInfo = LeInfo(state: LeState, wake: LeWakeup, can: LeCan, battery: LeBattery, vtm: LeVtm)

  /** client_t. */
  datatype Client = Client(
    name: Text,
    lcState: LcState,
    stayActive: StayActiveKind,
    eCall: bool,
    eCallLaw: bool,
    testMode: bool)

  datatype Pending = PendingInactive | PendingActive

  /** tcu_parameters_type; `provider` is None when the sender leaves it unset. */
  datatype TcuParams = TcuParams(pending: Pending, provider: Option<int>, unlock: int)

  datatype SocWakeup = SocSms | SocSpurious | SocMqtt

  /** Everything an observer outside the manager can see, in order. */
  datatype Output =
    | Notified(snapshot: Snapshot)     // CommonAPI state event
    | Reported(info: LeInfo)           // Legato event report
    | Sent(params: TcuParams)          // update_TCU_Parameters
    | CallStatusSent(call: LcState)    // Update_Emergency_Call_status
    | WakeupSent(reason: SocWakeup)    // SendEvent_SOC_WakeupReason_TCU
    | Waited(seconds: nat)             // a sleep of the calling thread

  // Power modes, as the MCU numbers them.
  const MODE_TCU_ONLY := 13
  const MODE_STAY_ALIVE_SERVICES := 19

  // Wakeup reasons of the power manager.
  const PM_CAN_ACTIVITY := 1
  const PM_SMS := 3
  const PM_LM3_RTC := 7
  const PM_IMU_WAKE := 9
  const PM_MAINBAT_WAKEUP := 12
  const PM_SOC_RTC_WAKE := 13

  // Wakeup reasons of the modem socket.
  const SOCKET_SMS := 0
  const SOCKET_POWERKEY := 1
  const SOCKET_MODEM_SPURIOUS := 2
  const SOCKET_RTC := 3
  const SOCKET_MQTT := 4

  const NTW_NOT_OK := 1

  function Codes(s: string): Text
  {
    seq(|s|, i requires 0 <= i < |s| => s[i] as int)
  }

  const LEGISLATIVE_CLIENT: Text := Codes("tlmapp_mw_legislativecall")
}
