/** Which lifecycle states can follow which while no power-mode event arrives: client calls,
    setters, timers and Legato calls only. */
module Reachability {
  import opened LifecycleTypes
  import opened Names
  import opened Registry
  import opened EmergencyRules
  import opened Manager
  import opened Provenance

  /** Not a power-mode event, and not an emergency request that was handed an OK status. */
  predicate Quiet(e: Event)
  {
    && !e.PowerMode?
    && (e.EvaluateEmergency? ==> !e.incoming.StsOk?)
  }

  predicate AllQuiet(es: seq<Event>)
  {
    forall i | 0 <= i < |es| :: Quiet(es[i])
  }

  /** The only ways a state can change: a listening state wakes up to STAY_ALIVE_SERVICES, and
      the two legislative states alternate. */
  predicate MayBecome(a: LcState, b: LcState)
  {
    || a == b
    || ((a.Listen1? || a.Listen2? || a.Listen3?) && b.StayAliveServices?)
    || (a.EmergencyLaw? && b.EmergencyLawLp?)
    || (a.EmergencyLawLp? && b.EmergencyLaw?)
  }

  /** The exact condition under which an emergency request changes the state: with a status other
      than OK handed in, only from EMERGENCY_LAW and only for the legislative client; with OK
      handed in, every request for the low-power state does. */
  lemma EmergencyStateChange(s: Manager, name: Text, request: LcState, incoming: LcStatus)
    ensures StepEmergency(s, name, request, incoming).next.state
            == if && request.EmergencyLawLp?
                  && (|| incoming.StsOk?
                      || (s.state.EmergencyLaw? && name == LEGISLATIVE_CLIENT && Has(s.clients, name)))
               then EmergencyLawLp else s.state
  {
    LowersPowerMeans(s, name, request, incoming);
  }

  lemma StepState(s: Manager, e: Event)
    requires Quiet(e)
    ensures MayBecome(s.state, Step(s, e).next.state)
  {
    if e.EvaluateEmergency? {
      EmergencyStateChange(s, e.name, e.request, e.incoming);
    }
  }

  lemma {:induction false} RunState(s: Manager, es: seq<Event>)
    requires AllQuiet(es)
    ensures MayBecome(s.state, Run(s, es).state)
  {
    if es == [] {
      RunEmpty(s);
    } else {
      var init := es[..|es| - 1];
      RunState(s, init);
      RunLast(s, es);
      StepState(Run(s, init), es[|es| - 1]);
    }
  }

  /** Between any two moments of a history without power-mode events the state is kept, or moved
      as `MayBecome` says; in particular a listening state moves at most once, and
      STAY_ALIVE_SERVICES never moves. */
  lemma StateBetweenModes(s: Manager, es: seq<Event>, i: nat, j: nat)
    requires i <= j <= |es|
    requires AllQuiet(es[i..j])
    ensures MayBecome(At(s, es, i).state, At(s, es, j).state)
    ensures At(s, es, i).state.StayAliveServices? ==> At(s, es, j).state.StayAliveServices?
  {
    assert es[..j] == es[..i] + es[i..j];
    RunSplit(s, es[..i], es[i..j]);
    RunState(At(s, es, i), es[i..j]);
  }

  lemma LegislativeNameIsClean()
    ensures LEGISLATIVE_CLIENT != [] && Trim(LEGISLATIVE_CLIENT) == LEGISLATIVE_CLIENT
  {
    var n := LEGISLATIVE_CLIENT;
    assert |n| == |"tlmapp_mw_legislativecall"| == 25;
    assert n[0] == 't' as int && n[24] == 'l' as int;
    TrimFixedPoint(n);
  }

  /** From EMERGENCY_LAW the legislative client can register and go to low power. */
  lemma LowPowerHappens(s: Manager) returns (es: seq<Event>)
    requires s.state.EmergencyLaw?
    ensures AllQuiet(es) && Run(s, es).state == EmergencyLawLp
  {
    LegislativeNameIsClean();
    var join := Event.Register(LEGISLATIVE_CLIENT, StsNotRegistered);
    var lower := EvaluateEmergency(LEGISLATIVE_CLIENT, EmergencyLawLp, StsNotOk);
    es := [join, lower];
    RunTwo(s, join, lower);
    JoinedIsPresent(s, LEGISLATIVE_CLIENT);
    EmergencyStateChange(Step(s, join).next, LEGISLATIVE_CLIENT, EmergencyLawLp, StsNotOk);
  }

  /** Each permitted change does happen in some history. */
  lemma EveryChangeHappens(s: Manager, target: LcState) returns (es: seq<Event>)
    requires MayBecome(s.state, target)
    ensures AllQuiet(es) && Run(s, es).state == target
  {
    if s.state == target {
      es := [];
      RunEmpty(s);
    } else if s.state.EmergencyLaw? {
      es := LowPowerHappens(s);
    } else {
      es := [Event.Wakeup];
      RunOne(s, Event.Wakeup);
    }
  }

  lemma JoinedIsPresent(s: Manager, name: Text)
    requires name != [] && Trim(name) == name
    ensures Has(Step(s, Event.Register(name, StsNotRegistered)).next.clients, name)
  {
    var cs := Registered(s.clients, name, s.state, StsNotRegistered);
    if !Has(s.clients, name) {
      assert cs[|s.clients|] in cs && cs[|s.clients|].name == name;
    }
  }

  lemma RunTwo(s: Manager, e: Event, f: Event)
    ensures Run(s, [e, f]) == Step(Step(s, e).next, f).next
    ensures Log(s, [e, f]) == Step(s, e).outputs + Step(Step(s, e).next, f).outputs
  {
    assert [e] + [f] == [e, f];
    RunOne(s, e);
    RunSnoc(s, [e], f);
  }

  /** Without power-mode events a state can be reached exactly if it is permitted. */
  lemma ReachableBetweenModes(s: Manager, target: LcState)
    ensures (exists es :: AllQuiet(es) && Run(s, es).state == target) <==> MayBecome(s.state, target)
  {
    if es :| AllQuiet(es) && Run(s, es).state == target {
      RunState(s, es);
    }
    if MayBecome(s.state, target) {
      var es := EveryChangeHappens(s, target);
      assert AllQuiet(es) && Run(s, es).state == target;
    }
  }

  // ---- the low-power round trip ---------------------------------------------

  /** From EMERGENCY_LAW the registered legislative client can go to the low-power state; the next
      wakeup comes back.  The registry and all other information are as before, and the outputs
      are the two announcements, with no send between. */
  lemma LowPowerRoundTrip(s: Manager, incoming: LcStatus)
    requires s.state.EmergencyLaw? && Has(s.clients, LEGISLATIVE_CLIENT)
    requires !incoming.StsOk?
    ensures var es := [EvaluateEmergency(LEGISLATIVE_CLIENT, EmergencyLawLp, incoming), Event.Wakeup];
            && EmergencyStatus(s.clients, LEGISLATIVE_CLIENT, EmergencyLawLp, s.state, incoming) == StsOk
            && Run(s, es[..1]).state == EmergencyLawLp && WakeupStatus(Run(s, es[..1])) == StsOk
            && Run(s, es) == Announced(s).next
            && Run(s, es).clients == s.clients && Run(s, es).state == EmergencyLaw
            && Log(s, es) == Announced(s.(state := EmergencyLawLp)).outputs + Announced(s).outputs
  {
    var lower := EvaluateEmergency(LEGISLATIVE_CLIENT, EmergencyLawLp, incoming);
    RunTwo(s, lower, Event.Wakeup);
    RunOne(s, lower);
    assert [lower, Event.Wakeup][..1] == [lower];
    OtherRequestsMarkNothing(s.clients, LEGISLATIVE_CLIENT, EmergencyLawLp, s.state, incoming);
    var low := s.(state := EmergencyLawLp);
    assert Step(s, lower) == Announced(low);
    assert Announced(low).next.(state := EmergencyLaw, cache := s.cache) == s;
  }

  /** From a listening state or low power a wakeup succeeds; a second one right after it is refused
      and does nothing. */
  lemma SecondWakeupFails(s: Manager)
    requires s.state.Listen1? || s.state.Listen2? || s.state.Listen3? || s.state.EmergencyLawLp?
    ensures var once := Step(s, Event.Wakeup).next;
            && WakeupStatus(s) == StsOk
            && WakeupStatus(once) == StsNotOk && Step(once, Event.Wakeup) == Effect(once, [])
  {
  }
}
