/** What each channel carries over a whole history, entry by entry: which events of the history an
    announcement, a report or an emergency call status comes from, and what it says, in the values
    the outside uses. */
module ChannelHistories {
  import opened LifecycleTypes
  import opened EmergencyRules
  import opened LegatoTranslation
  import opened Manager
  import opened Broadcasts
  import opened Provenance

  // ---- traces by events ---------------------------------------------------------------

  /** `at` are, one to one and in order, the positions that the entries of `trace` come from, and
      the other positions put nothing there. */
  ghost predicate InOrder<O>(emitted: seq<seq<O>>, trace: seq<O>, at: seq<nat>)
  {
    && |at| == |trace|
    && (forall i, j | 0 <= i < j < |at| :: at[i] < at[j])
    && (forall i | 0 <= i < |at| :: at[i] < |emitted| && emitted[at[i]] == [trace[i]])
    && (forall j: nat | j < |emitted| && emitted[j] != [] :: j in at)
  }

  lemma InOrderSnoc<O>(emitted: seq<seq<O>>, trace: seq<O>, at: seq<nat>, now: seq<O>)
    requires InOrder(emitted, trace, at) && |now| <= 1
    ensures InOrder(emitted + [now], trace + now, if now == [] then at else at + [|emitted|])
  {
    var all := if now == [] then at else at + [|emitted|];
    var emitted', trace' := emitted + [now], trace + now;
    if now != [] {
      assert all[|at|] == |emitted| && now == [now[0]];
    }
    assert forall i, j | 0 <= i < j < |all| :: all[i] < all[j];
    forall i | 0 <= i < |all| ensures all[i] < |emitted'| && emitted'[all[i]] == [trace'[i]] {
      if i < |at| {
        assert emitted[at[i]] == [trace[i]];
      }
    }
    forall j: nat | j < |emitted'| && emitted'[j] != [] ensures j in all {
      if j < |emitted| {
        assert j in at;
      }
    }
  }

  /** What each event of the history put on a channel. */
  function Emitted<O>(pick: Output -> Option<O>, s: Manager, es: seq<Event>): (r: seq<seq<O>>)
    ensures |r| == |es|
  {
    seq(|es|, j requires 0 <= j < |es| => Collect(pick, Step(At(s, es, j), es[j]).outputs))
  }

  lemma EmittedLast<O>(pick: Output -> Option<O>, s: Manager, es: seq<Event>)
    requires es != []
    ensures var n := |es| - 1;
            var now := Collect(pick, Step(At(s, es, n), es[n]).outputs);
            && Emitted(pick, s, es) == Emitted(pick, s, es[..n]) + [now]
            && Collect(pick, Log(s, es)) == Collect(pick, Log(s, es[..n])) + now
  {
    var n := |es| - 1;
    forall j: nat | j < n ensures At(s, es[..n], j) == At(s, es, j) {
      AtPrefix(s, es, n, j);
    }
    RunLast(s, es);
    CollectSplit(pick, Log(s, es[..n]), Step(Run(s, es[..n]), es[n]).outputs);
  }

  /** If no event puts more than one entry on the channel, the entries come from events in order. */
  lemma {:induction false} TraceByEvents<O>(pick: Output -> Option<O>, s: Manager, es: seq<Event>) returns (at: seq<nat>)
    requires forall j | 0 <= j < |es| :: |Emitted(pick, s, es)[j]| <= 1
    ensures InOrder(Emitted(pick, s, es), Collect(pick, Log(s, es)), at)
  {
    if es == [] {
      RunEmpty(s);
      at := [];
    } else {
      var n := |es| - 1;
      EmittedLast(pick, s, es);
      var before, now := Emitted(pick, s, es[..n]), Emitted(pick, s, es)[n];
      assert forall j | 0 <= j < n :: before[j] == Emitted(pick, s, es)[j];
      at := TraceByEvents(pick, s, es[..n]);
      InOrderSnoc(before, Collect(pick, Log(s, es[..n])), at, now);
      at := if now == [] then at else at + [n];
    }
  }

  // ---- announcements --------------------------------------------------------------------

  /** The event, handled in `s`, announces exactly the tuple `t`. */
  predicate Announces(s: Manager, e: Event, t: Snapshot)
  {
    match e
    case PowerMode(mode) =>
      && s.window.Closed? && ModeFor(mode, t.state) && t.info == s.info
      && (mode == 13 ==> s.state.Listen1? || s.state.Listen2? || s.state.Listen3? || s.state.Shutdown?)
    case SettleElapsed => s.window.Settling? && t.state == s.state && t.info == s.info
    case BatteryThermal(kind, status, _) =>
      && t.state == s.state && t.info.wake == s.info.wake && t.info.can == s.info.can
      && if kind.Thermal? then
           t.info.battery == s.info.battery && t.info.vtm == if status == 0 then VtmOvertemp else VtmNormal
         else
           t.info.vtm == s.info.vtm && t.info.battery == if BatteryLost(e) then BatteryNok else BatteryOk
    case Wakeup => Brings(s, e, t.state) && t.info == s.info
    case EvaluateEmergency(_, _, _) => Brings(s, e, t.state) && t.info == s.info
    case _ => false
  }

  /** The event, handled in `s`, announces something. */
  predicate AnnouncesSome(s: Manager, e: Event)
  {
    match e
    case PowerMode(mode) =>
      && s.window.Closed? && MappedMode(mode)
      && (mode == 13 ==> s.state.Listen1? || s.state.Listen2? || s.state.Listen3? || s.state.Shutdown?)
    case SettleElapsed => s.window.Settling?
    case BatteryThermal(_, _, _) => true
    case Wakeup => SetsState(s, e)
    case EvaluateEmergency(_, _, _) => SetsState(s, e)
    case _ => false
  }

  lemma BroadcastMeans(s: Manager, e: Event, t: Snapshot)
    ensures BroadcastOf(s, e) == Told(t) <==> Announces(s, e, t)
    ensures BroadcastOf(s, e).Told? <==> AnnouncesSome(s, e)
  {
    match e
    case PowerMode(mode) => ModeMeans(mode, t.state);
    case BatteryThermal(_, _, _) => StepValues(s, e); StepInfo(s, e);
    case EvaluateEmergency(name, request, incoming) => LowersPowerMeans(s, name, request, incoming);
    case _ =>
  }

  lemma StepAnnounces(s: Manager, e: Event, t: Snapshot)
    ensures Notifications(Step(s, e).outputs) == [t] <==> Announces(s, e, t)
    ensures |Notifications(Step(s, e).outputs)| == if AnnouncesSome(s, e) then 1 else 0
  {
    StepChannels(s, e);
    BroadcastMeans(s, e, t);
  }

  /** Over any history the CommonAPI trace has, in order, one entry for each announcing event and no
      other, and the entry is the tuple that event stands for. */
  lemma NotificationsByEvents(s: Manager, es: seq<Event>) returns (at: seq<nat>)
    ensures var trace := Notifications(Log(s, es));
            && |at| == |trace|
            && (forall i, j | 0 <= i < j < |at| :: at[i] < at[j])
            && (forall i | 0 <= i < |at| :: at[i] < |es| && Announces(At(s, es, at[i]), es[at[i]], trace[i]))
            && (forall j: nat | j < |es| :: j in at <==> AnnouncesSome(At(s, es, j), es[j]))
  {
    var trace := Notifications(Log(s, es));
    var emitted := Emitted(NOTIFIED, s, es);
    forall j: nat | j < |es| ensures |emitted[j]| == if AnnouncesSome(At(s, es, j), es[j]) then 1 else 0 {
      StepAnnounces(At(s, es, j), es[j], SnapshotOf(s));
    }
    at := TraceByEvents(NOTIFIED, s, es);
    forall i | 0 <= i < |at| ensures Announces(At(s, es, at[i]), es[at[i]], trace[i]) {
      StepAnnounces(At(s, es, at[i]), es[at[i]], trace[i]);
    }
  }

  /** A wakeup is answered OK if and only if it comes in a listening state or in low power, if and
      only if it changes the state, and if and only if it announces; from a listening state it sends
      before it announces. */
  lemma WakeupReply(s: Manager)
    ensures var r := Step(s, Event.Wakeup);
            && (WakeupStatus(s) == StsOk
                <==> s.state.Listen1? || s.state.Listen2? || s.state.Listen3? || s.state.EmergencyLawLp?)
            && (WakeupStatus(s) == StsOk <==> r.next.state != s.state)
            && (WakeupStatus(s) == StsOk <==> Notifications(r.outputs) != [])
            && (WakeupStatus(s) != StsOk ==> WakeupStatus(s) == StsNotOk && r == Effect(s, []))
            && (WakeupStatus(s) == StsOk ==>
                  var before := if s.state.EmergencyLawLp? then [] else [Sent(TcuParams(PendingActive, None, 1))];
                  |before| < |r.outputs| && r.outputs[..|before|] == before && r.outputs[|before|].Notified?)
  {
    StepAnnounces(s, Event.Wakeup, SnapshotOf(s));
  }

  // ---- reports ----------------------------------------------------------------------------

  /** The Legato state of the same name; a state that is not named becomes IDLE. */
  predicate SameState(le: LeState, state: LcState)
  {
    match le
    case LeInit => state.Init?
    case LeBackupBattery => state.BackupBattery?
    case LeDeepSleep => state.DeepSleep?
    case LeRemoteWake => state.RemoteWake?
    case LeOn => state.On?
    case LeOff => state.Off?
    case LeStayAliveServices => state.StayAliveServices?
    case LeShutdown => state.Shutdown?
    case LeSleep => state.Sleep?
    case LeListen1 => state.Listen1?
    case LeListen2 => state.Listen2?
    case LeListen3 => state.Listen3?
    case LeEmergency => state.Emergency?
    case LeMaintenance => state.Maintenance?
    case LeTestMode => state.TestMode?
    case LeSwUpdate => state.SwUpdate?
    case LeLogistic => state.Logistic?
    case LeReset => state.Reset?
    case LeEmergencyLaw => state.EmergencyLaw?
    case LeIdle => state.Idle? || state.StateUnnamed?
    case LeEmergencyLawLp => state.EmergencyLawLp?
    case LeStayAliveConnected => state.StayAliveConnected?
    case LeStateUnnamed => false
  }

  predicate SameWakeup(le: LeWakeup, wake: WakeupSource)
  {
    match le
    case LeWakeUnknown => wake.WakeUnknown? || wake.WakeUnnamed?
    case LeWakeLm1Rtc => wake.WakeLm1Rtc?
    case LeWakeMainBattery => wake.WakeMainBattery?
    case LeWakeAccelerometer => wake.WakeAccelerometer?
    case LeWakeCan => wake.WakeCan?
    case LeWakeLm3Rtc => wake.WakeLm3Rtc?
    case LeWakeSms => wake.WakeSms?
    case LeWakeMqtt => wake.WakeMqtt?
  }

  /** The report says what the notification says, but that CAN on and off are exchanged. */
  predicate SaysSame(le: LeInfo, t: Snapshot)
  {
    && SameState(le.state, t.state)
    && SameWakeup(le.wake, t.info.wake)
    && (le.can.LeCanOn? <==> t.info.can.CanOff?)
    && (le.battery.LeBatteryOk? <==> t.info.battery.BatteryOk?)
    && (le.vtm.LeVtmOvertemp? <==> t.info.vtm.VtmOvertemp?)
  }

  /** The translation is the only tuple that says the same. */
  lemma TranslationSaysSame(le: LeInfo, t: Snapshot)
    ensures SaysSame(le, t) <==> le == ToLe(t)
  {
  }

  /** Once the event id exists there are as many reports as notifications, and each says the
      same as its notification. */
  lemma ReportsSaySame(s: Manager, es: seq<Event>)
    requires s.eventId
    ensures var told, reported := Notifications(Log(s, es)), Reports(Log(s, es));
            |reported| == |told| && forall i | 0 <= i < |told| :: SaysSame(reported[i], told[i])
  {
    ChannelsAgree(s, es);
    var told, reported := Notifications(Log(s, es)), Reports(Log(s, es));
    forall i | 0 <= i < |told| ensures SaysSame(reported[i], told[i]) {
      TranslationSaysSame(reported[i], told[i]);
    }
  }

  /** Every report comes right after the notification whose tuple it reports; with `all`, every
      notification is followed by its report. */
  ghost predicate Paired(log: seq<Output>, all: bool)
  {
    && (forall i | 0 <= i < |log| && log[i].Reported? ::
          i > 0 && log[i - 1].Notified? && SaysSame(log[i].info, log[i - 1].snapshot))
    && (all ==> forall i | 0 <= i < |log| && log[i].Notified? :: i + 1 < |log| && log[i + 1].Reported?)
  }

  lemma PairedConcat(a: seq<Output>, b: seq<Output>, all: bool)
    requires Paired(a, all) && Paired(b, all)
    ensures Paired(a + b, all)
  {
    var log := a + b;
    forall i | 0 <= i < |log| && log[i].Reported?
      ensures i > 0 && log[i - 1].Notified? && SaysSame(log[i].info, log[i - 1].snapshot)
    {
      if i >= |a| {
        assert log[i] == b[i - |a|] && i - |a| > 0;
      }
    }
    if all {
      forall i | 0 <= i < |log| && log[i].Notified? ensures i + 1 < |log| && log[i + 1].Reported? {
        if i >= |a| {
          assert log[i] == b[i - |a|];
        } else {
          assert a[i].Notified?;
        }
      }
    }
  }

  lemma AnnouncedPaired(s: Manager)
    ensures Paired(Announced(s).outputs, s.eventId)
  {
    TranslationSaysSame(ToLe(SnapshotOf(s)), SnapshotOf(s));
  }

  lemma UntoldPaired(log: seq<Output>, all: bool)
    requires forall o | o in log :: !o.Notified? && !o.Reported?
    ensures Paired(log, all)
  {
  }

  lemma AnnouncedThenPaired(s: Manager, o: Output)
    requires !o.Notified? && !o.Reported?
    ensures Paired(Announced(s).outputs + [o], s.eventId) && Paired([o] + Announced(s).outputs, s.eventId)
  {
    AnnouncedPaired(s);
    UntoldPaired([o], s.eventId);
    PairedConcat(Announced(s).outputs, [o], s.eventId);
    PairedConcat([o], Announced(s).outputs, s.eventId);
  }

  lemma PowerModePaired(s: Manager, mode: int)
    ensures Paired(StepPowerMode(s, mode).outputs, s.eventId)
  {
    if BroadcastOf(s, PowerMode(mode)).Silent? {
      UntoldPaired(StepPowerMode(s, mode).outputs, s.eventId);
    } else {
      AnnouncedPaired(s.(state := ModeState(mode).value));
      AnnouncedThenPaired(s.(state := ModeState(mode).value), Waited(200));
    }
  }

  lemma WakeupPaired(s: Manager)
    ensures Paired(StepWakeup(s).outputs, s.eventId)
  {
    AnnouncedPaired(s.(state := EmergencyLaw));
    AnnouncedThenPaired(s.(state := StayAliveServices), Sent(ACTIVE));
  }

  lemma StepPaired(s: Manager, e: Event)
    ensures Paired(Step(s, e).outputs, s.eventId)
  {
    match e
    case PowerMode(mode) => PowerModePaired(s, mode);
    case SettleElapsed =>
      AnnouncedThenPaired(s, Waited(120));
      AnnouncedThenPaired(s, Waited(21));
    case BatteryThermal(_, _, _) => AnnouncedPaired(s.(info := Step(s, e).next.info));
    case Wakeup => WakeupPaired(s);
    case EvaluateEmergency(name, request, incoming) =>
      AnnouncedPaired(s.(clients := Settle(s.clients, name, request, s.state), state := EmergencyLawLp));
    case _ => UntoldPaired(Step(s, e).outputs, s.eventId);
  }

  /** In the order of all outputs of any history, CommonAPI is always told first: each report comes
      right after its notification, and once the event id exists each notification is followed
      by its report. */
  lemma {:induction false} ReportsFollowNotifications(s: Manager, es: seq<Event>)
    ensures Paired(Log(s, es), s.eventId)
  {
    if es == [] {
      RunEmpty(s);
    } else {
      var init, last := es[..|es| - 1], es[|es| - 1];
      var before := Run(s, init);
      ReportsFollowNotifications(s, init);
      if s.eventId {
        ChannelsAgree(s, init);
      }
      RunLast(s, es);
      StepPaired(before, last);
      PairedConcat(Log(s, init), Step(before, last).outputs, s.eventId);
    }
  }

  // ---- emergency call statuses ------------------------------------------------------------

  const CALL_STATUS: Output -> Option<LcState> := (o: Output) => if o.CallStatusSent? then Some(o.call) else None

  /** The Update_Emergency_Call_status trace. */
  function CallStatuses(log: seq<Output>): seq<LcState> { Collect(CALL_STATUS, log) }

  /** An emergency call of one of the four kinds that the microcontroller is told of. */
  predicate CallsOut(e: Event)
  {
    e.TriggerEmergency?
    && (e.request.Emergency? || e.request.EmergencyLaw? || e.request.EmergencyLawLp? || e.request.On?)
  }

  lemma {:induction false} NothingPicked<O>(pick: Output -> Option<O>, log: seq<Output>)
    requires forall o | o in log :: pick(o) == None
    ensures Collect(pick, log) == []
  {
    if log != [] {
      assert log[0] in log;
      NothingPicked(pick, log[1..]);
    }
  }

  lemma OthersSendNoCallStatus(s: Manager, e: Event)
    requires !e.TriggerEmergency?
    ensures forall o | o in Step(s, e).outputs :: !o.CallStatusSent?
  {
  }

  lemma StepCallStatus(s: Manager, e: Event)
    ensures CallStatuses(Step(s, e).outputs) == if CallsOut(e) then [e.request] else []
  {
    if e.TriggerEmergency? {
      CollectOne(CALL_STATUS, CallStatusSent(e.request));
    } else {
      OthersSendNoCallStatus(s, e);
      NothingPicked(CALL_STATUS, Step(s, e).outputs);
    }
  }

  /** Over any history the microcontroller is told, in order, of exactly the emergency calls of the
      four kinds, each unchanged; no other event ever tells it of a call. */
  lemma CallStatusesByEvents(s: Manager, es: seq<Event>) returns (at: seq<nat>)
    ensures var trace := CallStatuses(Log(s, es));
            && |at| == |trace|
            && (forall i, j | 0 <= i < j < |at| :: at[i] < at[j])
            && (forall i | 0 <= i < |at| :: at[i] < |es| && CallsOut(es[at[i]]) && trace[i] == es[at[i]].request)
            && (forall j: nat | j < |es| :: j in at <==> CallsOut(es[j]))
  {
    var emitted := Emitted(CALL_STATUS, s, es);
    forall j: nat | j < |es| ensures emitted[j] == if CallsOut(es[j]) then [es[j].request] else [] {
      StepCallStatus(At(s, es, j), es[j]);
    }
    at := TraceByEvents(CALL_STATUS, s, es);
  }

  /** A Legato emergency call is told to the microcontroller under the same name. */
  lemma LegatoCallStatus(s: Manager, le: LeState, request: LcState)
    ensures CallStatuses(StepTrigger(s, FromLeState(le)).outputs) == [request]
            <==> SameState(le, request)
                 && (request.Emergency? || request.EmergencyLaw? || request.EmergencyLawLp? || request.On?)
  {
    var e := TriggerEmergency(FromLeState(le), true);
    StepCallStatus(s, e);
    assert Step(s, e) == StepTrigger(s, FromLeState(le));
  }
}
