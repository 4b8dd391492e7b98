/** The stay-alive window that a TCU_ONLY event opens: one announcement, timed waits during which
    any other handler may run, and one send that closes it. */
module StayAliveWindow {
  import opened LifecycleTypes
  import opened LegatoTranslation
  import opened Manager
  import opened Broadcasts
  import Reachability

  /** The event belongs to the thread that handles power modes. */
  predicate OfModeThread(e: Event)
  {
    e.PowerMode? || e.SettleElapsed? || e.TimerElapsed?
  }

  /** No emergency request of the history was handed an OK status. */
  predicate Unforced(es: seq<Event>)
  {
    forall i | 0 <= i < |es| :: es[i].EvaluateEmergency? ==> !es[i].incoming.StsOk?
  }

  /** A behaviour: states, the events between them, and what each event output. */
  datatype Behavior = Behavior(states: seq<Manager>, events: seq<Event>, outputs: seq<seq<Output>>)

  ghost predicate StepOk(b: Behavior, i: nat)
    requires i < |b.events| == |b.outputs| && |b.states| == |b.events| + 1
  {
    && Enabled(b.states[i], b.events[i])
    && Step(b.states[i], b.events[i]) == Effect(b.states[i + 1], b.outputs[i])
  }

  ghost predicate Valid(b: Behavior)
  {
    && |b.states| == |b.events| + 1 && |b.outputs| == |b.events|
    && (forall i: nat | i < |b.events| :: StepOk(b, i))
    && Unforced(b.events)
  }

  /** Every legal history is such a behaviour. */
  lemma HistoryIsBehavior(s: Manager, es: seq<Event>) returns (b: Behavior)
    requires Legal(s, es) && Unforced(es)
    ensures Valid(b) && b.events == es
    ensures forall i: nat | i <= |es| :: b.states[i] == At(s, es, i)
  {
    b := Behavior(
      seq(|es| + 1, i requires 0 <= i <= |es| => At(s, es, i)),
      es,
      seq(|es|, i requires 0 <= i < |es| => Step(At(s, es, i), es[i]).outputs));
    forall i: nat | i < |es| ensures StepOk(b, i) {
      assert Enabled(Run(s, es[..i]), es[i]);
      AtNext(s, es, i);
    }
  }

  /** The position of the first event of the mode thread at or after `from`, or the length. */
  function NextOfMode(es: seq<Event>, from: nat): (k: nat)
    requires from <= |es|
    ensures from <= k <= |es|
    ensures forall j | from <= j < k :: !OfModeThread(es[j])
    ensures k < |es| ==> OfModeThread(es[k])
    decreases |es| - from
  {
    if from == |es| || OfModeThread(es[from]) then from else NextOfMode(es, from + 1)
  }

  /** What the mode thread outputs from event `from` up to, not including, event `to`. */
  function ModeLog(b: Behavior, from: nat, to: nat): seq<Output>
    requires from <= to <= |b.events| == |b.outputs|
  {
    if from == to then []
    else ModeLog(b, from, to - 1) + if OfModeThread(b.events[to - 1]) then b.outputs[to - 1] else []
  }

  lemma {:induction false} ModeLogSkip(b: Behavior, from: nat, mid: nat, to: nat)
    requires from <= mid <= to <= |b.events| == |b.outputs|
    requires forall j | mid <= j < to :: !OfModeThread(b.events[j])
    ensures ModeLog(b, from, to) == ModeLog(b, from, mid)
  {
    if mid < to {
      ModeLogSkip(b, from, mid, to - 1);
    }
  }

  lemma StepSleeps(s: Manager, e: Event)
    requires !OfModeThread(e) && (e.EvaluateEmergency? ==> !e.incoming.StsOk?)
    requires s.state.StayAliveServices?
    ensures Step(s, e).next.state.StayAliveServices? && Step(s, e).next.window == s.window
  {
    Reachability.StepState(s, e);
  }

  /** While the mode thread sleeps, every interleaving of other handlers leaves the window and
      STAY_ALIVE_SERVICES as they are. */
  lemma {:induction false} SleepIsStable(b: Behavior, i: nat, j: nat)
    requires Valid(b) && i <= j <= |b.events|
    requires forall k | i <= k < j :: !OfModeThread(b.events[k])
    requires b.states[i].state.StayAliveServices?
    ensures b.states[j].state.StayAliveServices? && b.states[j].window == b.states[i].window
  {
    if i < j {
      SleepIsStable(b, i, j - 1);
      assert StepOk(b, j - 1);
      StepSleeps(b.states[j - 1], b.events[j - 1]);
    }
  }

  predicate AnnouncesFirst(state: LcState)
  {
    state.Listen1? || state.Listen2? || state.Listen3? || state.Shutdown?
  }

  /** The seconds the mode thread sleeps after the announcement, when it has slept 2 before it. */
  function TimerAfterSettling(s: Manager): nat
  {
    if s.info.wake.WakeAccelerometer? then 120 else 21
  }

  /** One sleep: after event `i` the window is `window`, until the mode thread's next event. */
  ghost predicate SleepsFrom(b: Behavior, i: nat, window: Window)
    requires i < |b.events| && |b.states| == |b.events| + 1
  {
    var k := NextOfMode(b.events, i + 1);
    && (forall j | i < j <= k :: b.states[j].state.StayAliveServices? && b.states[j].window == window)
    && (k < |b.events| ==> b.events[k] == if window.Settling? then SettleElapsed else TimerElapsed)
  }

  lemma SleepBegins(b: Behavior, i: nat, window: Window)
    requires Valid(b) && i < |b.events|
    requires !window.Closed? && b.states[i + 1].window == window
    requires b.states[i + 1].state.StayAliveServices?
    ensures SleepsFrom(b, i, window)
  {
    var k := NextOfMode(b.events, i + 1);
    forall j | i < j <= k
      ensures b.states[j].state.StayAliveServices? && b.states[j].window == window
    {
      SleepIsStable(b, i + 1, j);
    }
    if k < |b.events| {
      assert StepOk(b, k);
    }
  }

  lemma OpeningStep(s: Manager)
    requires s.window.Closed?
    ensures var r := StepPowerMode(s, MODE_TCU_ONLY);
            && r.next.state.StayAliveServices?
            && if AnnouncesFirst(s.state) then
                 && r.next.window == Timing
                 && r.outputs == Announced(s.(state := StayAliveServices)).outputs + [Waited(200)]
               else r.next.window == Settling && r.outputs == [Waited(2)]
  {
  }

  lemma SettlingStep(s: Manager)
    requires s.window.Settling? && s.state.StayAliveServices?
    ensures var r := StepSettle(s);
            && r.next.state.StayAliveServices? && r.next.window == Timing
            && r.outputs == Announced(s).outputs + [Waited(TimerAfterSettling(s))]
  {
  }

  lemma ClosingStep(s: Manager)
    requires s.window.Timing?
    ensures StepTimer(s) == Effect(s.(window := Closed), [Sent(INACTIVE)])
  {
  }

  /** A TCU_ONLY event announces at once from a listening state or shutdown, and sleeps first
      otherwise. */
  lemma WindowOpens(b: Behavior, i: nat)
    requires Valid(b) && i < |b.events| && b.events[i] == PowerMode(MODE_TCU_ONLY)
    ensures if AnnouncesFirst(b.states[i].state) then
              && b.outputs[i] == Announced(b.states[i].(state := StayAliveServices)).outputs + [Waited(200)]
              && SleepsFrom(b, i, Timing)
            else
              b.outputs[i] == [Waited(2)] && SleepsFrom(b, i, Settling)
  {
    assert StepOk(b, i);
    OpeningStep(b.states[i]);
    SleepBegins(b, i, b.states[i + 1].window);
  }

  lemma WindowSettles(b: Behavior, j: nat)
    requires Valid(b) && j < |b.events| && b.events[j] == SettleElapsed
    requires b.states[j].state.StayAliveServices? && b.states[j].window.Settling?
    ensures b.outputs[j] == Announced(b.states[j]).outputs + [Waited(TimerAfterSettling(b.states[j]))]
    ensures SleepsFrom(b, j, Timing)
  {
    assert StepOk(b, j);
    SettlingStep(b.states[j]);
    SleepBegins(b, j, Timing);
  }

  lemma WindowCloses(b: Behavior, k: nat)
    requires Valid(b) && k < |b.events| && b.events[k] == TimerElapsed && b.states[k].window.Timing?
    ensures b.outputs[k] == [Sent(INACTIVE)] && b.states[k + 1].window.Closed?
  {
    assert StepOk(b, k);
    ClosingStep(b.states[k]);
  }

  /** `k` is the first timer to elapse after `i`. */
  ghost predicate ElapsesFirst(es: seq<Event>, i: nat, k: nat)
  {
    i < k < |es| && es[k].TimerElapsed? && forall j | i < j < k :: !es[j].TimerElapsed?
  }

  /** What the mode thread does in one window, in this order and nothing else: the first wait, if
      there is one; the announcement of STAY_ALIVE_SERVICES, to CommonAPI and perhaps then to Legato;
      the second wait; one send of STAY_INACTIVE. */
  ghost predicate WindowLog(log: seq<Output>, first: nat, second: nat)
  {
    exists t: Snapshot, report: seq<Output> {:trigger [Notified(t)] + report} ::
      && t.state.StayAliveServices?
      && (report == [] || report == [Reported(ToLe(t))])
      && log == (if first > 0 then [Waited(first)] else []) + ([Notified(t)] + report)
                + [Waited(second), Sent(TcuParams(PendingInactive, None, 1))]
  }

  /** The log of a window is as described whatever was announced. */
  lemma WindowLogShape(a: Manager, settled: bool, wait: nat)
    requires a.state.StayAliveServices?
    ensures var before := if settled then [Waited(2)] else [];
            WindowLog(before + (Announced(a).outputs + [Waited(wait)]) + [Sent(INACTIVE)],
                      if settled then 2 else 0, wait)
  {
    var before := if settled then [Waited(2)] else [];
    var log := before + (Announced(a).outputs + [Waited(wait)]) + [Sent(INACTIVE)];
    var t := SnapshotOf(a);
    var report := if a.eventId then [Reported(ToLe(t))] else [];
    assert Announced(a).outputs == [Notified(t)] + report;
    assert log == before + ([Notified(t)] + report) + [Waited(wait), Sent(INACTIVE)];
  }

  /** The mode thread's log of a window without a first sleep: its event, then its timer. */
  lemma ShortLog(b: Behavior, i: nat, k: nat)
    requires i < k < |b.events| == |b.outputs| && OfModeThread(b.events[i]) && OfModeThread(b.events[k])
    requires forall x | i < x < k :: !OfModeThread(b.events[x])
    ensures ModeLog(b, i, k + 1) == b.outputs[i] + b.outputs[k]
  {
    ModeLogSkip(b, i, i + 1, k);
    assert ModeLog(b, i, i + 1) == [] + b.outputs[i];
  }

  /** The same with a first sleep that ends at `j`. */
  lemma LongLog(b: Behavior, i: nat, j: nat, k: nat)
    requires i < j < k < |b.events| == |b.outputs|
    requires OfModeThread(b.events[i]) && OfModeThread(b.events[j]) && OfModeThread(b.events[k])
    requires forall x | i < x < k && x != j :: !OfModeThread(b.events[x])
    ensures ModeLog(b, i, k + 1) == b.outputs[i] + b.outputs[j] + b.outputs[k]
  {
    ShortLog(b, i, j);
    ModeLogSkip(b, i, j + 1, k);
  }

  lemma WindowFromListening(b: Behavior, i: nat, k: nat)
    requires Valid(b) && i < |b.events| && b.events[i] == PowerMode(MODE_TCU_ONLY)
    requires ElapsesFirst(b.events, i, k) && AnnouncesFirst(b.states[i].state)
    ensures WindowLog(ModeLog(b, i, k + 1), 0, 200)
    ensures NextOfMode(b.events, i + 1) == k && b.states[k].state.StayAliveServices?
  {
    WindowOpens(b, i);
    ShortLog(b, i, k);
    WindowCloses(b, k);
    WindowLogShape(b.states[i].(state := StayAliveServices), false, 200);
    assert [] + b.outputs[i] == b.outputs[i];
  }

  lemma WindowFromOther(b: Behavior, i: nat, k: nat)
    requires Valid(b) && i < |b.events| && b.events[i] == PowerMode(MODE_TCU_ONLY)
    requires ElapsesFirst(b.events, i, k) && !AnnouncesFirst(b.states[i].state)
    ensures var j := NextOfMode(b.events, i + 1);
            && j < k && NextOfMode(b.events, j + 1) == k && b.events[j] == SettleElapsed
            && WindowLog(ModeLog(b, i, k + 1), 2, TimerAfterSettling(b.states[j]))
            && b.states[k].state.StayAliveServices?
  {
    WindowOpens(b, i);
    var j := NextOfMode(b.events, i + 1);
    WindowSettles(b, j);
    LongLog(b, i, j, k);
    WindowCloses(b, k);
    WindowLogShape(b.states[j], true, TimerAfterSettling(b.states[j]));
  }

  /** Every TCU_ONLY event whose timer elapses leads, under every interleaving of the other
      handlers, to exactly one announcement of STAY_ALIVE_SERVICES by the mode thread followed by
      exactly one send of STAY_INACTIVE; the thread has slept 200 s between them if the event came
      in a listening state or in shutdown, and otherwise 2 s before and 120 s or 21 s between them,
      according to the wakeup source at the end of the first 2 s.  No other power-mode event is handled meanwhile, and the state
      is still STAY_ALIVE_SERVICES when the window closes. */
  lemma WindowProtocol(b: Behavior, i: nat, k: nat)
    requires Valid(b) && i < |b.events| && b.events[i] == PowerMode(MODE_TCU_ONLY)
    requires ElapsesFirst(b.events, i, k)
    ensures var wake := b.states[NextOfMode(b.events, i + 1)].info.wake;
            if AnnouncesFirst(b.states[i].state) then WindowLog(ModeLog(b, i, k + 1), 0, 200)
            else WindowLog(ModeLog(b, i, k + 1), 2, if wake.WakeAccelerometer? then 120 else 21)
    ensures forall j | i < j < k :: !b.events[j].PowerMode?
    ensures b.states[k].state.StayAliveServices?
  {
    if AnnouncesFirst(b.states[i].state) {
      WindowFromListening(b, i, k);
    } else {
      WindowFromOther(b, i, k);
    }
  }

  /** While no timer has elapsed after a TCU_ONLY event its window is open and no further
      power-mode event is handled. */
  lemma WindowStaysOpen(b: Behavior, i: nat)
    requires Valid(b) && i < |b.events| && b.events[i] == PowerMode(MODE_TCU_ONLY)
    requires forall j | i < j < |b.events| :: !b.events[j].TimerElapsed?
    ensures var last := b.states[|b.events|];
            !last.window.Closed? && last.state.StayAliveServices?
    ensures forall j | i < j < |b.events| :: !b.events[j].PowerMode?
  {
    WindowOpens(b, i);
    var j := NextOfMode(b.events, i + 1);
    if j < |b.events| {
      WindowSettles(b, j);
      var k := NextOfMode(b.events, j + 1);
      assert k == |b.events|;
    }
  }

  function CountTcuOnly(es: seq<Event>): nat
  {
    if es == [] then 0
    else CountTcuOnly(es[..|es| - 1]) + if es[|es| - 1] == PowerMode(MODE_TCU_ONLY) then 1 else 0
  }

  function CountElapsed(es: seq<Event>): nat
  {
    if es == [] then 0
    else CountElapsed(es[..|es| - 1]) + if es[|es| - 1].TimerElapsed? then 1 else 0
  }

  lemma WindowOfStep(s: Manager, e: Event)
    requires Enabled(s, e)
    ensures !Step(s, e).next.window.Closed?
            <==> e == PowerMode(MODE_TCU_ONLY) || (!s.window.Closed? && !e.TimerElapsed?)
  {
  }

  /** Timers and TCU_ONLY events correspond one to one: as many timers have elapsed as TCU_ONLY
      events were handled, one fewer while a window is open.  Hence no other power mode ever
      starts a timer. */
  lemma {:induction false} TimersMatchTcuOnly(s: Manager, es: seq<Event>)
    requires Legal(s, es) && s.window.Closed?
    ensures CountElapsed(es) + (if Run(s, es).window.Closed? then 0 else 1) == CountTcuOnly(es)
  {
    if es == [] {
      RunEmpty(s);
    } else {
      var n := |es| - 1;
      LegalPrefix(s, es, n);
      TimersMatchTcuOnly(s, es[..n]);
      RunLast(s, es);
      assert Enabled(Run(s, es[..n]), es[n]);
      WindowOfStep(Run(s, es[..n]), es[n]);
    }
  }

  lemma LegalPrefix(s: Manager, es: seq<Event>, n: nat)
    requires n <= |es| && Legal(s, es)
    ensures Legal(s, es[..n])
  {
    forall i | 0 <= i < n ensures Enabled(Run(s, es[..n][..i]), es[..n][i]) {
      assert es[..n][..i] == es[..i];
    }
  }

  /** A power mode other than TCU_ONLY never waits and never leaves a window open. */
  lemma OtherModesDoNotWait(s: Manager, mode: int)
    requires s.window.Closed? && mode != MODE_TCU_ONLY
    ensures Waits(StepPowerMode(s, mode).outputs) == []
    ensures StepPowerMode(s, mode).next.window.Closed?
  {
    ChannelsOne(Sent(ACTIVE));
    if ModeState(mode).Some? {
      AnnouncedChannels(s.(state := ModeState(mode).value));
    }
  }
}
