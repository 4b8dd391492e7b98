/** The update_TCU_Parameters trace over whole histories. */
module PendingActions {
  import opened LifecycleTypes
  import opened Names
  import opened Registry
  import opened EmergencyRules
  import opened Manager
  import opened RegistryHistory
  import opened Broadcasts

  /** The event, handled in `s`, sends TCU parameters. */
  predicate Sending(s: Manager, e: Event)
  {
    match e
    case StayActive(name, _) => Has(s.clients, name)
    case Wakeup => s.state.Listen1? || s.state.Listen2? || s.state.Listen3?
    case PowerMode(mode) => mode == 19 && s.window.Closed? && !s.state.StayAliveServices?
    case TimerElapsed => s.window.Timing?
    case JumpToListen2 => true
    case _ => false
  }

  /** The event asks the TCU to stay active: a granted lock, a wakeup from a listening state, or a
      STAY_ALIVE_SERVICES mode (19) from another state. */
  predicate Activates(s: Manager, e: Event)
  {
    || (e.StayActive? && e.want.LcLock? && Has(s.clients, e.name) && MayStay(s, LcLock))
    || (e.Wakeup? && (s.state.Listen1? || s.state.Listen2? || s.state.Listen3?))
    || (e == PowerMode(19) && s.window.Closed? && !s.state.StayAliveServices?)
  }

  function ParamsOf(s: Manager, e: Event): TcuParams
  {
    TcuParams(
      if Activates(s, e) then PendingActive else PendingInactive,
      if e.JumpToListen2? then Some(0) else None,
      1)
  }

  /** What the event sends, if anything. */
  function SendOf(s: Manager, e: Event): seq<TcuParams>
  {
    if Sending(s, e) then [ParamsOf(s, e)] else []
  }

  lemma OneOutputSends(log: seq<Output>)
    requires |log| <= 1
    ensures Sends(log) == if |log| == 1 && log[0].Sent? then [log[0].params] else []
  {
    if |log| == 1 {
      assert log == [log[0]];
      ChannelsOne(log[0]);
    }
  }

  lemma AnnouncedSendsNothing(s: Manager, o: Output)
    requires !o.Sent?
    ensures Sends(Announced(s).outputs) == [] && Sends(Announced(s).outputs + [o]) == []
  {
    AnnouncedChannels(s);
    ChannelsOne(o);
    ChannelsSplit(Announced(s).outputs, [o]);
  }

  lemma PowerModeSends(s: Manager, mode: int)
    ensures Sends(StepPowerMode(s, mode).outputs) == SendOf(s, PowerMode(mode))
  {
    if |StepPowerMode(s, mode).outputs| <= 1 {
      OneOutputSends(StepPowerMode(s, mode).outputs);
    }
    if ModeState(mode).Some? {
      AnnouncedSendsNothing(s.(state := ModeState(mode).value), Waited(200));
    }
  }

  lemma WakeupSends(s: Manager)
    ensures Sends(StepWakeup(s).outputs) == SendOf(s, Event.Wakeup)
  {
    var woken := s.(state := StayAliveServices);
    AnnouncedChannels(woken);
    AnnouncedChannels(s.(state := EmergencyLaw));
    ChannelsOne(Sent(ACTIVE));
    ChannelsSplit([Sent(ACTIVE)], Announced(woken).outputs);
  }

  /** A stay-active request of a registered client sends exactly once, and otherwise nothing. */
  lemma StayActiveSends(s: Manager, name: Text, want: StayActiveKind)
    ensures Sends(StepStayActive(s, name, want).outputs)
            == if !Has(s.clients, name) then []
               else if want.LcLock? && (s.state.StayAliveServices? || s.state.StayAliveConnected?) then [ACTIVE]
               else [INACTIVE]
  {
    OneOutputSends(StepStayActive(s, name, want).outputs);
  }

  lemma EmergencySendsNothing(s: Manager, name: Text, request: LcState, incoming: LcStatus)
    ensures Sends(StepEmergency(s, name, request, incoming).outputs) == []
  {
    var settled := s.(clients := Settle(s.clients, name, request, s.state), state := EmergencyLawLp);
    AnnouncedSendsNothing(settled, Waited(0));
  }

  lemma BatterySendsNothing(s: Manager, kind: BatteryKind, status: int, unset: bool)
    ensures Sends(StepBattery(s, kind, status, unset).outputs) == []
  {
    AnnouncedSendsNothing(s.(info := StepBattery(s, kind, status, unset).next.info), Waited(0));
  }

  /** Every event sends at most once; it sends exactly when `Sending` says, and what it sends has
      unlock status 1 and the pending action that `Activates` says. */
  lemma StepSends(s: Manager, e: Event)
    ensures Sends(Step(s, e).outputs) == SendOf(s, e)
  {
    match e
    case PowerMode(mode) => PowerModeSends(s, mode);
    case Wakeup => WakeupSends(s);
    case StayActive(name, want) => StayActiveSends(s, name, want);
    case SettleElapsed =>
      AnnouncedSendsNothing(s, Waited(120));
      AnnouncedSendsNothing(s, Waited(21));
    case BatteryThermal(kind, status, unset) => BatterySendsNothing(s, kind, status, unset);
    case EvaluateEmergency(name, request, incoming) => EmergencySendsNothing(s, name, request, incoming);
    case _ => OneOutputSends(Step(s, e).outputs);
  }

  /** What each event of the history sent. */
  function SendHistory(s: Manager, es: seq<Event>): seq<TcuParams>
  {
    if es == [] then []
    else
      var init, last := es[..|es| - 1], es[|es| - 1];
      SendHistory(s, init) + SendOf(Run(s, init), last)
  }

  lemma SendsLast(s: Manager, es: seq<Event>)
    requires es != []
    ensures var init, last := es[..|es| - 1], es[|es| - 1];
            Sends(Log(s, es)) == Sends(Log(s, init)) + SendOf(Run(s, init), last)
  {
    var init, last := es[..|es| - 1], es[|es| - 1];
    RunLast(s, es);
    StepSends(Run(s, init), last);
    ChannelsSplit(Log(s, init), Step(Run(s, init), last).outputs);
  }

  /** The trace of sends has one entry for each sending event, in order, and no other. */
  lemma {:induction false} SendsAreSendingEvents(s: Manager, es: seq<Event>)
    ensures Sends(Log(s, es)) == SendHistory(s, es)
    ensures forall p | p in Sends(Log(s, es)) :: p.unlock == 1
  {
    if es == [] {
      RunEmpty(s);
    } else {
      SendsAreSendingEvents(s, es[..|es| - 1]);
      SendsLast(s, es);
    }
  }

  function SendingAt(s: Manager, es: seq<Event>, j: nat): bool
    requires j < |es|
  {
    Sending(At(s, es, j), es[j])
  }

  ghost predicate LastSending(s: Manager, es: seq<Event>, k: nat)
  {
    k < |es| && SendingAt(s, es, k) && forall j: nat | k < j < |es| :: !SendingAt(s, es, j)
  }

  lemma LastSendingBefore(s: Manager, es: seq<Event>, k: nat)
    requires LastSending(s, es, k) && k < |es| - 1
    ensures LastSending(s, es[..|es| - 1], k) && !Sending(Run(s, es[..|es| - 1]), es[|es| - 1])
    ensures At(s, es[..|es| - 1], k) == At(s, es, k)
  {
    var n := |es| - 1;
    forall j: nat | j < n ensures At(s, es[..n], j) == At(s, es, j) {
      AtPrefix(s, es, n, j);
    }
    assert !SendingAt(s, es, n);
    assert forall j: nat | j < n :: SendingAt(s, es[..n], j) == SendingAt(s, es, j);
  }

  /** The pending action the TCU last heard of is "stay active" exactly when the last sending
      event was one that activates. */
  lemma {:induction false} LastPending(s: Manager, es: seq<Event>, k: nat)
    requires LastSending(s, es, k)
    ensures var sends := Sends(Log(s, es));
            && sends != []
            && sends[|sends| - 1] == ParamsOf(At(s, es, k), es[k])
            && (sends[|sends| - 1].pending.PendingActive? <==> Activates(At(s, es, k), es[k]))
  {
    SendsLast(s, es);
    if k < |es| - 1 {
      LastSendingBefore(s, es, k);
      LastPending(s, es[..|es| - 1], k);
    } else {
      assert SendingAt(s, es, k);
    }
  }

  // ---- pending actions and held locks ---------------------------------------------------

  predicate HoldsLock(cs: seq<Client>, name: Text)
  {
    exists c :: c in cs && c.name == name && c.stayActive.LcLock?
  }

  predicate SomeLock(cs: seq<Client>)
  {
    exists c :: c in cs && c.stayActive.LcLock?
  }

  /** Some record other than the one found under `name` holds a lock. */
  predicate LockElsewhere(cs: seq<Client>, name: Text)
  {
    exists i :: 0 <= i < |cs| && i != IndexOf(cs, name) && cs[i].stayActive.LcLock?
  }

  /** When a sending event leaves the pending action and the locks in agreement, as seen before it:
      a granted lock always does; a granted release or backup-battery request if no other client
      holds a lock; what sends "inactive" without touching a record if nobody does; and what sends
      "active" without touching a record if somebody does. */
  predicate Agreeing(s: Manager, e: Event)
  {
    match e
    case StayActive(name, want) =>
      if MayStay(s, want) then want.LcLock? || !LockElsewhere(s.clients, name) else !SomeLock(s.clients)
    case Wakeup => SomeLock(s.clients)
    case PowerMode(_) => SomeLock(s.clients)
    case _ => !SomeLock(s.clients)
  }

  lemma LocksAfterGrant(cs: seq<Client>, name: Text, want: StayActiveKind)
    requires Has(cs, name)
    ensures SomeLock(WithStayActive(cs, name, want)) <==> want.LcLock? || LockElsewhere(cs, name)
  {
    var after, i := WithStayActive(cs, name, want), IndexOf(cs, name);
    assert after[i] in after;
    if j :| 0 <= j < |cs| && j != i && cs[j].stayActive.LcLock? {
      assert after[j] in after;
    }
    if c :| c in after && c.stayActive.LcLock? {
      var j :| 0 <= j < |after| && after[j] == c;
      assert j != i ==> cs[j] == c;
    }
  }

  /** A sending event tells the TCU to stay active just when some client then holds a lock, if and
      only if `Agreeing` held before it. */
  lemma PendingMatchesLocks(s: Manager, e: Event)
    requires Sending(s, e)
    ensures (ParamsOf(s, e).pending.PendingActive? <==> SomeLock(Step(s, e).next.clients)) <==> Agreeing(s, e)
  {
    StepClients(s, e);
    if e.StayActive? {
      LocksAfterGrant(s.clients, e.name, e.want);
    }
  }

  lemma QuietGrantsNoLock(s: Manager, e: Event, name: Text)
    requires WellFormed(s.clients) && !Sending(s, e) && HoldsLock(NextClients(s, e), name)
    ensures HoldsLock(s.clients, name) && !Removes(e, name)
  {
    var c :| c in NextClients(s, e) && c.name == name && c.stayActive.LcLock?;
    var before := NextRecord(s, e, c);
    assert Grant(s, e, name) == None;
    assert before.Some? && before.value.name == name;
  }

  lemma QuietTakesNoLock(s: Manager, e: Event, name: Text)
    requires WellFormed(s.clients) && !Sending(s, e) && HoldsLock(s.clients, name) && !Removes(e, name)
    ensures HoldsLock(NextClients(s, e), name)
  {
    var next := NextClients(s, e);
    var c :| c in s.clients && c.name == name && c.stayActive.LcLock?;
    match e {
      case EvaluateEmergency(who, request, _) =>
        var i :| 0 <= i < |s.clients| && s.clients[i] == c;
        assert next[i] in next && next[i].name == name;
      case Unregister(raw) =>
        UnregisteredNames(s.clients, Trim(raw));
      case _ =>
        assert c in next;
    }
  }

  /** Events that send nothing grant no lock and take none away, but by unregistration. */
  lemma QuietLocks(s: Manager, e: Event, name: Text)
    requires WellFormed(s.clients) && !Sending(s, e)
    ensures HoldsLock(NextClients(s, e), name) <==> HoldsLock(s.clients, name) && !Removes(e, name)
  {
    if HoldsLock(NextClients(s, e), name) {
      QuietGrantsNoLock(s, e, name);
    } else if HoldsLock(s.clients, name) && !Removes(e, name) {
      QuietTakesNoLock(s, e, name);
    }
  }

  /** A client held a lock right after event `k` and was not unregistered since. */
  ghost predicate LockKept(s: Manager, es: seq<Event>, k: nat, name: Text)
    requires k < |es|
  {
    && HoldsLock(At(s, es, k + 1).clients, name)
    && forall j | k < j < |es| :: !Removes(es[j], name)
  }

  lemma LockKeptLast(s: Manager, es: seq<Event>, k: nat, name: Text)
    requires k < |es| - 1
    ensures LockKept(s, es, k, name)
            <==> LockKept(s, es[..|es| - 1], k, name) && !Removes(es[|es| - 1], name)
  {
    AtPrefix(s, es, |es| - 1, k + 1);
  }

  /** The locks held now are those held right after the last sending event, except of clients
      unregistered since. */
  lemma {:induction false} LocksSinceLastSend(s: Manager, es: seq<Event>, k: nat, name: Text)
    requires s.clients == [] && LastSending(s, es, k)
    ensures HoldsLock(Run(s, es).clients, name) <==> LockKept(s, es, k, name)
  {
    var n := |es| - 1;
    var init := es[..n];
    if k == n {
      assert es[..n + 1] == es;
    } else {
      LastSendingBefore(s, es, k);
      LocksSinceLastSend(s, init, k, name);
      LockKeptLast(s, es, k, name);
      RunNames(s, init);
      QuietLocks(Run(s, init), es[n], name);
      StepInRun(s, es);
    }
  }

  /** Over whole histories: the TCU has last heard "stay active" just when some client holds a
      lock now, if and only if the last sending event activates just when some client that held a
      lock right after it has not been unregistered since. */
  lemma LastPendingMatchesLocks(s: Manager, es: seq<Event>, k: nat)
    requires s.clients == [] && LastSending(s, es, k)
    ensures var sends := Sends(Log(s, es));
            && sends != []
            && ((sends[|sends| - 1].pending.PendingActive? <==> SomeLock(Run(s, es).clients))
                <==> (Activates(At(s, es, k), es[k]) <==> exists name :: LockKept(s, es, k, name)))
  {
    LastPending(s, es, k);
    var now := Run(s, es).clients;
    forall name ensures HoldsLock(now, name) <==> LockKept(s, es, k, name) {
      LocksSinceLastSend(s, es, k, name);
    }
    if c :| c in now && c.stayActive.LcLock? {
      assert HoldsLock(now, c.name);
    }
  }

  /** A pending "stay active" with no lock held: a wakeup from a listening state sends it, whoever
      is registered. */
  lemma WakeupNeedsNoLock(s: Manager)
    requires (s.state.Listen1? || s.state.Listen2? || s.state.Listen3?) && s.clients == []
    ensures Sends(Step(s, Event.Wakeup).outputs) == [ACTIVE]
    ensures !SomeLock(Step(s, Event.Wakeup).next.clients)
  {
    StepSends(s, Event.Wakeup);
  }

  /** A lock held with "inactive" pending: when one client is granted a lock and another then
      releases, the TCU is told to go inactive while the first still holds it. */
  lemma ReleaseOverridesOtherLocks(s: Manager, holder: Text, other: Text)
    requires Has(s.clients, holder) && Has(s.clients, other) && holder != other
    requires s.state.StayAliveServices? || s.state.StayAliveConnected?
    ensures var first := StepStayActive(s, holder, LcLock);
            var second := StepStayActive(first.next, other, LcRelease);
            && first.outputs == [Sent(ACTIVE)] && second.outputs == [Sent(INACTIVE)]
            && HoldsLock(second.next.clients, holder)
  {
    LockSurvives(s.clients, holder, other);
  }

  lemma LockSurvives(cs: seq<Client>, holder: Text, other: Text)
    requires Has(cs, holder) && Has(cs, other) && holder != other
    ensures var locked := WithStayActive(cs, holder, LcLock);
            Has(locked, other) && HoldsLock(WithStayActive(locked, other, LcRelease), holder)
  {
    var locked := WithStayActive(cs, holder, LcLock);
    var released := WithStayActive(locked, other, LcRelease);
    assert forall i | 0 <= i < |cs| :: locked[i].name == cs[i].name;
    SameNames(cs, locked);
    var i := IndexOf(cs, holder);
    assert released[i] == locked[i];
    assert released[i] in released;
  }
}
