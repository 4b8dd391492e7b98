/** The two broadcast channels and the Legato cache, over whole histories. */
module Broadcasts {
  import opened LifecycleTypes
  import opened Names
  import opened Registry
  import opened EmergencyRules
  import opened LegatoTranslation
  import opened Manager
  import Reachability

  // ---- channels as projections of the output log ------------------------------

  function Collect<O>(pick: Output -> Option<O>, log: seq<Output>): seq<O>
  {
    if log == [] then []
    else (match pick(log[0]) case Some(o) => [o] case None => []) + Collect(pick, log[1..])
  }

  lemma {:induction false} CollectSplit<O>(pick: Output -> Option<O>, a: seq<Output>, b: seq<Output>)
    ensures Collect(pick, a + b) == Collect(pick, a) + Collect(pick, b)
  {
    if a == [] {
      assert a + b == b;
    } else {
      assert (a + b)[1..] == a[1..] + b;
      CollectSplit(pick, a[1..], b);
    }
  }

  lemma CollectOne<O>(pick: Output -> Option<O>, o: Output)
    ensures Collect(pick, [o]) == match pick(o) case Some(x) => [x] case None => []
  {
    assert Collect(pick, [o][1..]) == [];
    var here := match pick(o) case Some(x) => [x] case None => [];
    assert Collect(pick, [o]) == here + [];
  }

  const NOTIFIED: Output -> Option<Snapshot> := (o: Output) => if o.Notified? then Some(o.snapshot) else None
  const REPORTED: Output -> Option<LeInfo> := (o: Output) => if o.Reported? then Some(o.info) else None
  const SENT: Output -> Option<TcuParams> := (o: Output) => if o.Sent? then Some(o.params) else None
  const WAITED: Output -> Option<nat> := (o: Output) => if o.Waited? then Some(o.seconds) else None

  /** The CommonAPI event trace. */
  function Notifications(log: seq<Output>): seq<Snapshot> { Collect(NOTIFIED, log) }

  /** The Legato report trace. */
  function Reports(log: seq<Output>): seq<LeInfo> { Collect(REPORTED, log) }

  /** The update_TCU_Parameters trace. */
  function Sends(log: seq<Output>): seq<TcuParams> { Collect(SENT, log) }

  /** The sleeps. */
  function Waits(log: seq<Output>): seq<nat> { Collect(WAITED, log) }

  lemma ChannelsSplit(a: seq<Output>, b: seq<Output>)
    ensures Notifications(a + b) == Notifications(a) + Notifications(b)
    ensures Reports(a + b) == Reports(a) + Reports(b)
    ensures Sends(a + b) == Sends(a) + Sends(b)
    ensures Waits(a + b) == Waits(a) + Waits(b)
  {
    CollectSplit(NOTIFIED, a, b);
    CollectSplit(REPORTED, a, b);
    CollectSplit(SENT, a, b);
    CollectSplit(WAITED, a, b);
  }

  lemma ChannelsOne(o: Output)
    ensures Notifications([o]) == if o.Notified? then [o.snapshot] else []
    ensures Reports([o]) == if o.Reported? then [o.info] else []
    ensures Sends([o]) == if o.Sent? then [o.params] else []
    ensures Waits([o]) == if o.Waited? then [o.seconds] else []
  {
    CollectOne(NOTIFIED, o);
    CollectOne(REPORTED, o);
    CollectOne(SENT, o);
    CollectOne(WAITED, o);
  }

  function Translated(trace: seq<Snapshot>): (r: seq<LeInfo>)
    ensures |r| == |trace|
  {
    seq(|trace|, i requires 0 <= i < |trace| => ToLe(trace[i]))
  }

  function Recovered(trace: seq<LeInfo>): (r: seq<Snapshot>)
    ensures |r| == |trace|
  {
    seq(|trace|, i requires 0 <= i < |trace| => FromLe(trace[i]))
  }

  // ---- what one event broadcasts ------------------------------------------------

  /** What is announced by an event, if anything. */
  datatype Broadcast = Silent | Told(snapshot: Snapshot)

  function BroadcastOf(s: Manager, e: Event): Broadcast
  {
    match e
    case PowerMode(mode) =>
      if !s.window.Closed? || mode == MODE_STAY_ALIVE_SERVICES then Silent
      else (match ModeState(mode)
            case None => Silent
            case Some(state) =>
              if state.StayAliveServices? && !Listening(s.state) && !s.state.Shutdown? then Silent
              else Told(Snapshot(state, s.info)))
    case SettleElapsed => if s.window.Settling? then Told(SnapshotOf(s)) else Silent
    case BatteryThermal(_, _, _) => Told(Snapshot(s.state, Step(s, e).next.info))
    case Wakeup => 
      if s.state.EmergencyLawLp? then Told(Snapshot(EmergencyLaw, s.info))
      else if Listening(s.state) then Told(Snapshot(StayAliveServices, s.info))
      else Silent
    case EvaluateEmergency(name, request, incoming) =>
      if request.EmergencyLawLp? && EmergencyStatus(s.clients, name, request, s.state, incoming).StsOk?
      then Told(Snapshot(EmergencyLawLp, s.info)) else Silent
    case _ => Silent
  }

  lemma AnnouncedChannels(s: Manager)
    ensures var log := Announced(s).outputs;
            && Notifications(log) == [SnapshotOf(s)]
            && Reports(log) == (if s.eventId then [ToLe(SnapshotOf(s))] else [])
            && Sends(log) == [] && Waits(log) == []
  {
    var told, reported := Notified(SnapshotOf(s)), Reported(ToLe(SnapshotOf(s)));
    ChannelsOne(told);
    ChannelsOne(reported);
    ChannelsSplit([told], [reported]);
    assert [told] + [reported] == [told, reported];
  }

  /** An announcement followed by one output that is neither a notification nor a report. */
  lemma AnnouncedThen(s: Manager, o: Output)
    requires !o.Notified? && !o.Reported?
    ensures var log := Announced(s).outputs + [o];
            && Notifications(log) == [SnapshotOf(s)]
            && Reports(log) == if s.eventId then [ToLe(SnapshotOf(s))] else []
  {
    AnnouncedChannels(s);
    ChannelsOne(o);
    ChannelsSplit(Announced(s).outputs, [o]);
  }

  /** The log carries just this broadcast: the same tuple on both channels. */
  ghost predicate Carries(log: seq<Output>, b: Broadcast, eventId: bool)
  {
    match b
    case Silent => Notifications(log) == [] && Reports(log) == []
    case Told(t) => Notifications(log) == [t] && Reports(log) == if eventId then [ToLe(t)] else []
  }

  lemma OneOutputIsSilent(log: seq<Output>)
    requires |log| <= 1 && forall o | o in log :: !o.Notified? && !o.Reported?
    ensures Carries(log, Silent, true) && Carries(log, Silent, false)
  {
    if |log| == 1 {
      assert log == [log[0]];
      ChannelsOne(log[0]);
    }
  }

  lemma PowerModeChannels(s: Manager, mode: int)
    ensures Carries(StepPowerMode(s, mode).outputs, BroadcastOf(s, PowerMode(mode)), s.eventId)
  {
    if BroadcastOf(s, PowerMode(mode)).Silent? {
      OneOutputIsSilent(StepPowerMode(s, mode).outputs);
    } else {
      var entered := s.(state := ModeState(mode).value);
      AnnouncedChannels(entered);
      AnnouncedThen(entered, Waited(200));
    }
  }

  lemma WakeupChannels(s: Manager)
    ensures Carries(StepWakeup(s).outputs, BroadcastOf(s, Event.Wakeup), s.eventId)
  {
    var woken := s.(state := StayAliveServices);
    AnnouncedChannels(woken);
    AnnouncedChannels(s.(state := EmergencyLaw));
    ChannelsOne(Sent(ACTIVE));
    ChannelsSplit([Sent(ACTIVE)], Announced(woken).outputs);
  }

  /** Each event notifies and reports at most once, the same tuple on both channels. */
  lemma StepChannels(s: Manager, e: Event)
    ensures Carries(Step(s, e).outputs, BroadcastOf(s, e), s.eventId)
  {
    match e
    case PowerMode(mode) =>
      PowerModeChannels(s, mode);
    case SettleElapsed =>
      AnnouncedThen(s, Waited(120));
      AnnouncedThen(s, Waited(21));
    case BatteryThermal(_, _, _) =>
      AnnouncedChannels(s.(info := Step(s, e).next.info));
    case Wakeup =>
      WakeupChannels(s);
    case EvaluateEmergency(name, request, incoming) =>
      AnnouncedChannels(s.(clients := Settle(s.clients, name, request, s.state), state := EmergencyLawLp));
    case _ =>
      OneOutputIsSilent(Step(s, e).outputs);
  }

  lemma EventIdStep(s: Manager, e: Event)
    ensures Step(s, e).next.eventId == (s.eventId || e.Advertise?)
  {
  }

  // ---- the two channels agree -----------------------------------------------------

  /** Once the event id exists the Legato trace is the translation of the CommonAPI trace, entry
      by entry and in order. */
  lemma {:induction false} ChannelsAgree(s: Manager, es: seq<Event>)
    requires s.eventId
    ensures Run(s, es).eventId
    ensures Reports(Log(s, es)) == Translated(Notifications(Log(s, es)))
  {
    if es == [] {
      RunEmpty(s);
    } else {
      var init, last := es[..|es| - 1], es[|es| - 1];
      var t := Run(s, init);
      ChannelsAgree(s, init);
      RunLast(s, es);
      EventIdStep(t, last);
      StepChannels(t, last);
      ChannelsSplit(Log(s, init), Step(t, last).outputs);
    }
  }

  lemma {:induction false} NoReportsBeforeAdvertise(s: Manager, es: seq<Event>)
    requires !s.eventId && forall i | 0 <= i < |es| :: !es[i].Advertise?
    ensures !Run(s, es).eventId && Reports(Log(s, es)) == []
  {
    if es == [] {
      RunEmpty(s);
    } else {
      var init, last := es[..|es| - 1], es[|es| - 1];
      NoReportsBeforeAdvertise(s, init);
      RunLast(s, es);
      EventIdStep(Run(s, init), last);
      StepChannels(Run(s, init), last);
      ChannelsSplit(Log(s, init), Step(Run(s, init), last).outputs);
    }
  }

  /** From start-up: the Legato trace is the translation of exactly the notifications made after
      the event id was created. */
  lemma ChannelsAgreeFromStart(s: Manager, before: seq<Event>, after: seq<Event>)
    requires !s.eventId && forall i | 0 <= i < |before| :: !before[i].Advertise?
    ensures var es := before + [Advertise] + after;
            var early := |Notifications(Log(s, before))|;
            && early <= |Notifications(Log(s, es))|
            && Reports(Log(s, es)) == Translated(Notifications(Log(s, es))[early..])
  {
    var mid := Run(s, before + [Advertise]);
    NoReportsBeforeAdvertise(s, before);
    RunSnoc(s, before, Advertise);
    RunSplit(s, before + [Advertise], after);
    ChannelsAgree(mid, after);
    var log, later := Log(s, before), Log(mid, after);
    assert Log(s, before + [Advertise]) == log + [] == log;
    ChannelsSplit(log, later);
    assert (Notifications(log) + Notifications(later))[|Notifications(log)|..] == Notifications(later);
  }

  // ---- the CommonAPI trace can be recovered ------------------------------------------

  lemma StepNamed(s: Manager, e: Event)
    requires Named(SnapshotOf(s))
    ensures Named(SnapshotOf(Step(s, e).next))
  {
    StepState(s, e);
    StepInfo(s, e);
  }

  lemma BroadcastNamed(s: Manager, e: Event)
    requires Named(SnapshotOf(s)) && BroadcastOf(s, e).Told?
    ensures Named(BroadcastOf(s, e).snapshot)
  {
    if e.BatteryThermal? {
      StepNamed(s, e);
    }
  }

  lemma {:induction false} NotificationsAreNamed(s: Manager, es: seq<Event>)
    requires Named(SnapshotOf(s))
    ensures Named(SnapshotOf(Run(s, es)))
    ensures forall t | t in Notifications(Log(s, es)) :: Named(t)
  {
    if es == [] {
      RunEmpty(s);
    } else {
      var init, last := es[..|es| - 1], es[|es| - 1];
      NotificationsAreNamed(s, init);
      RunLast(s, es);
      StepNamed(Run(s, init), last);
      if BroadcastOf(Run(s, init), last).Told? {
        BroadcastNamed(Run(s, init), last);
      }
      StepChannels(Run(s, init), last);
      ChannelsSplit(Log(s, init), Step(Run(s, init), last).outputs);
    }
  }

  /** A Legato listener can rebuild the CommonAPI trace exactly when every tuple in it is named;
      from a state of named values that is always so. */
  lemma CommonApiTraceRecoverable(s: Manager, es: seq<Event>)
    requires s.eventId
    ensures Recovered(Reports(Log(s, es))) == Notifications(Log(s, es))
            <==> forall t | t in Notifications(Log(s, es)) :: Named(t)
    ensures Named(SnapshotOf(s)) ==> Recovered(Reports(Log(s, es))) == Notifications(Log(s, es))
  {
    ChannelsAgree(s, es);
    var trace := Notifications(Log(s, es));
    forall i | 0 <= i < |trace| ensures Recovered(Translated(trace))[i] == trace[i] <==> Named(trace[i]) {
      TranslationInverts(trace[i]);
    }
    if Named(SnapshotOf(s)) {
      NotificationsAreNamed(s, es);
    }
  }

  // ---- the cache -----------------------------------------------------------------------

  /** The cache shows the manager's state (except during the 2 s sleep, when the new state has not
      been announced), its battery and thermal values, and the wakeup source and CAN status of
      the last notification. */
  ghost predicate Coherent(s: Manager, last: Snapshot)
  {
    && (!s.window.Settling? ==> s.cache.state == ToLeState(s.state))
    && InfoCoherent(s, last)
  }

  ghost predicate InfoCoherent(s: Manager, last: Snapshot)
  {
    && s.cache.battery == ToLeBattery(s.info.battery)
    && s.cache.vtm == ToLeVtm(s.info.vtm)
    && s.cache.wake == ToLeWakeup(last.info.wake)
    && s.cache.can == ToLeCan(last.info.can)
  }

  /** A Legato registration keeps the cached state true exactly when the name is not blank, or the
      caller's default state happens to translate to the same value. */
  lemma LegatoRegistrationCoherence(s: Manager, name: Text, defaultState: LcState, incoming: LcStatus)
    ensures StepLegatoRegister(s, name, defaultState, incoming).next.cache.state == ToLeState(s.state)
            <==> Trim(name) != [] || ToLeState(defaultState) == ToLeState(s.state)
    ensures StepLegatoRegister(s, name, defaultState, incoming).next.cache.(state := s.cache.state) == s.cache
  {
  }

  /** A blank name does break it: one space, in state On, with the default Idle. */
  lemma BlankRegistrationBreaksCache(s: Manager)
    requires s.state.On? && s.cache.state == LeOn
    ensures StepLegatoRegister(s, [32], Idle, StsNotOk).next.cache.state == LeIdle != ToLeState(s.state)
  {
  }

  /** The event writes the cached state: a broadcast or a Legato registration. */
  predicate CacheWrite(s: Manager, e: Event)
  {
    e.LegatoRegister? || BroadcastOf(s, e).Told?
  }

  /** As the last event to write the cached state it leaves `state` there, unless it is a blank
      registration whose default translates to another value. */
  predicate LeavesState(e: Event, state: LcState)
  {
    e.LegatoRegister? && Trim(e.name) == [] ==> ToLeState(e.defaultState) == ToLeState(state)
  }

  lemma BroadcastCoherent(s: Manager, e: Event)
    requires s.eventId && BroadcastOf(s, e).Told?
    ensures Coherent(Step(s, e).next, BroadcastOf(s, e).snapshot)
    ensures !e.LegatoRegister?
  {
  }

  /** An event that does not write the cache leaves the state alone too, or begins or is in the
      2 s sleep. */
  lemma QuietEvent(s: Manager, e: Event)
    requires !CacheWrite(s, e)
    ensures var next := Step(s, e).next;
            && next.cache == s.cache
            && next.info.battery == s.info.battery && next.info.vtm == s.info.vtm
            && (next.window.Settling? || (!s.window.Settling? && next.state == s.state))
  {
  }

  lemma RegistrationCoherent(s: Manager, e: Event, last: Snapshot)
    requires e.LegatoRegister? && InfoCoherent(s, last)
    ensures var next := Step(s, e).next;
            && InfoCoherent(next, last)
            && (Coherent(next, last) <==> next.window.Settling? || LeavesState(e, next.state))
  {
    LegatoRegistrationCoherence(s, e.name, e.defaultState, e.incoming);
  }

  ghost predicate WritesAt(s: Manager, es: seq<Event>, j: nat)
    requires j < |es|
  {
    CacheWrite(At(s, es, j), es[j])
  }

  ghost predicate LastCacheWrite(s: Manager, es: seq<Event>, k: nat)
  {
    k < |es| && WritesAt(s, es, k) && forall j: nat | k < j < |es| :: !WritesAt(s, es, j)
  }

  lemma LastCacheWriteStays(s: Manager, es: seq<Event>, k: nat)
    requires es != [] && LastCacheWrite(s, es[..|es| - 1], k)
    requires !CacheWrite(Run(s, es[..|es| - 1]), es[|es| - 1])
    ensures LastCacheWrite(s, es, k)
  {
    var n := |es| - 1;
    forall j: nat | j < n ensures WritesAt(s, es[..n], j) == WritesAt(s, es, j) {
      AtPrefix(s, es, n, j);
    }
  }

  /** At every point of a history that comes after a report, the cache shows the manager's battery
      and thermal values and the wakeup source and CAN status of the last notification; and outside
      the 2 s sleep it shows the manager's state if and only if the last event to write the cached
      state was a broadcast, a registration under a name, or a blank one that happened to fit. */
  lemma {:induction false} CacheCoherence(s: Manager, es: seq<Event>) returns (k: nat)
    requires Reports(Log(s, es)) != []
    ensures LastCacheWrite(s, es, k)
    ensures Run(s, es).eventId
    ensures Notifications(Log(s, es)) != []
    ensures var now, told := Run(s, es), Notifications(Log(s, es));
            var last := told[|told| - 1];
            && InfoCoherent(now, last)
            && (Coherent(now, last) <==> now.window.Settling? || LeavesState(es[k], now.state))
  {
    assert es != [] by {
      RunEmpty(s);
    }
    var n := |es| - 1;
    var init, e := es[..n], es[n];
    var t := Run(s, init);
    RunLast(s, es);
    StepChannels(t, e);
    ChannelsSplit(Log(s, init), Step(t, e).outputs);
    EventIdStep(t, e);
    k := n;
    if BroadcastOf(t, e).Told? {
      if Reports(Log(s, init)) != [] {
        var _ := CacheCoherence(s, init);
      }
      BroadcastCoherent(t, e);
    } else {
      var earlier := CacheCoherence(s, init);
      var told := Notifications(Log(s, init));
      if e.LegatoRegister? {
        RegistrationCoherent(t, e, told[|told| - 1]);
      } else {
        QuietEvent(t, e);
        LastCacheWriteStays(s, es, earlier);
        k := earlier;
      }
    }
  }

  /** The outputs of the low-power round trip, channel by channel. */
  lemma LowPowerRoundTripChannels(s: Manager, incoming: LcStatus)
    requires s.state.EmergencyLaw? && Has(s.clients, LEGISLATIVE_CLIENT) && !incoming.StsOk?
    ensures var log := Log(s, [EvaluateEmergency(LEGISLATIVE_CLIENT, EmergencyLawLp, incoming), Event.Wakeup]);
            && Notifications(log) == [Snapshot(EmergencyLawLp, s.info), Snapshot(EmergencyLaw, s.info)]
            && Sends(log) == [] && Waits(log) == []
  {
    Reachability.LowPowerRoundTrip(s, incoming);
    var low := s.(state := EmergencyLawLp);
    AnnouncedChannels(low);
    AnnouncedChannels(s);
    ChannelsSplit(Announced(low).outputs, Announced(s).outputs);
  }
}
