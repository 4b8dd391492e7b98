/** The registry over whole histories: who is in it, what each record remembers, and why. */
module RegistryHistory {
  import opened LifecycleTypes
  import opened Names
  import opened Registry
  import opened EmergencyRules
  import opened LegatoTranslation
  import opened Manager

  /** The event is a registration that can put `name` into the registry. */
  predicate Registers(e: Event, name: Text)
  {
    && (e.Register? || e.LegatoRegister?)
    && name != [] && Trim(e.name) == name
    && !e.incoming.StsAlreadyRegistered?
  }

  predicate Removes(e: Event, name: Text)
  {
    e.Unregister? && name != [] && Trim(e.name) == name
  }

  /** When a registered client may have this kind: a release always; a lock in a stay-alive state;
      the backup battery there too, with the network gone and the main battery not OK. */
  predicate MayStay(s: Manager, kind: StayActiveKind)
  {
    || kind.LcRelease?
    || (&& (s.state.StayAliveServices? || s.state.StayAliveConnected?)
        && (kind.LcLock? || (kind.LcBub? && s.info.can.CanOff? && s.info.battery.BatteryNok?)))
  }

  /** The event is a stay-active request that is granted to `name`; names are compared untrimmed. */
  predicate GrantsStay(s: Manager, e: Event, name: Text)
  {
    e.StayActive? && e.name == name && Has(s.clients, name) && MayStay(s, e.want)
  }

  /** The registry after one event. */
  function NextClients(s: Manager, e: Event): seq<Client>
  {
    match e
    case Register(name, incoming) => Registered(s.clients, Trim(name), s.state, incoming)
    case LegatoRegister(name, _, incoming) => Registered(s.clients, Trim(name), s.state, incoming)
    case Unregister(name) => if Trim(name) == [] then s.clients else Unregistered(s.clients, Trim(name))
    case StayActive(name, want) =>
      if MayStay(s, want) then WithStayActive(s.clients, name, want) else s.clients
    case EvaluateEmergency(name, request, _) => Settle(s.clients, name, request, s.state)
    case _ => s.clients
  }

  lemma StepClients(s: Manager, e: Event)
    ensures Step(s, e).next.clients == NextClients(s, e)
  {
  }

  /** The outcome of a stay-active request: OK if and only if the name is registered and the kind
      may be had; then the record found under the name shows it and nothing else changes;
      otherwise the registry stays as it was. */
  lemma StayActiveOutcome(s: Manager, name: Text, kind: StayActiveKind)
    ensures var cs, next, i := s.clients, Step(s, StayActive(name, kind)).next.clients, IndexOf(s.clients, name);
            if Has(cs, name) && MayStay(s, kind) then
              && StayActiveStatus(s, name, kind) == StsOk
              && |next| == |cs| && next[i] == cs[i].(stayActive := kind)
              && forall j | 0 <= j < |cs| && j != i :: next[j] == cs[j]
            else StayActiveStatus(s, name, kind) == StsNotOk && next == cs
  {
  }

  /** In every state a registered client can release, and an unnamed kind is refused. */
  lemma ReleaseIsGranted(s: Manager, name: Text)
    requires Has(s.clients, name)
    ensures StayActiveStatus(s, name, LcRelease) == StsOk
    ensures Step(s, StayActive(name, LcRelease)).next.clients[IndexOf(s.clients, name)].stayActive == LcRelease
    ensures StayActiveStatus(s, name, LcStayUnnamed) == StsNotOk
    ensures Step(s, StayActive(name, LcStayUnnamed)).next == s
  {
    StayActiveOutcome(s, name, LcRelease);
    StayActiveOutcome(s, name, LcStayUnnamed);
  }

  /** A stay-active request over Legato: a lock and a backup-battery request mean the same here, every
      other kind means a release. */
  lemma LegatoStayActiveOutcome(s: Manager, name: Text, le: LeStayActive)
    ensures var kind := if le.LeLock? then LcLock else if le.LeBub? then LcBub else LcRelease;
            && Step(s, StayActive(name, FromLeStayActive(le))) == Step(s, StayActive(name, kind))
            && ToLeStatus(StayActiveStatus(s, name, FromLeStayActive(le)))
               == if Has(s.clients, name) && MayStay(s, kind) then LeStsOk else LeStsNotOk
  {
    StayActiveOutcome(s, name, FromLeStayActive(le));
  }

  lemma NextNames(s: Manager, e: Event)
    requires WellFormed(s.clients)
    ensures WellFormed(NextClients(s, e))
    ensures forall n :: Has(NextClients(s, e), n) <==> Registers(e, n) || (Has(s.clients, n) && !Removes(e, n))
  {
    match e
    case Register(name, incoming) =>
      TrimIdempotent(name);
      RegisteredNames(s.clients, Trim(name), s.state, incoming);
    case LegatoRegister(name, _, incoming) =>
      TrimIdempotent(name);
      RegisteredNames(s.clients, Trim(name), s.state, incoming);
    case Unregister(name) =>
      UnregisteredNames(s.clients, Trim(name));
    case StayActive(name, want) =>
      StayActiveNames(s.clients, name, want);
    case EvaluateEmergency(name, request, _) =>
      SameNames(s.clients, Settle(s.clients, name, request, s.state));
    case _ =>
  }

  /** What one event makes of the record `before` of the same name, if it keeps it. */
  ghost predicate Carries(grant: Option<StayActiveKind>, before: Client, c: Client)
  {
    && c.name == before.name
    && c.lcState == before.lcState
    && c.stayActive == if grant.Some? then grant.value else before.stayActive
  }

  /** Every record after an event was there before it, or was made by it. */
  lemma NextRecord(s: Manager, e: Event, c: Client) returns (before: Option<Client>)
    requires WellFormed(s.clients) && c in NextClients(s, e)
    ensures match before
            case Some(b) => b in s.clients && Carries(Grant(s, e, c.name), b, c) && !Removes(e, c.name)
            case None => Registers(e, c.name) && !Has(s.clients, c.name) && c == NewClient(c.name, s.state)
  {
    match e {
      case StayActive(name, want) =>
        var i :| 0 <= i < |s.clients| && NextClients(s, e)[i] == c;
        assert s.clients[i] in s.clients;
        return Some(s.clients[i]);
      case EvaluateEmergency(name, request, _) =>
        var i :| 0 <= i < |s.clients| && Settle(s.clients, name, request, s.state)[i] == c;
        return Some(s.clients[i]);
      case Unregister(name) =>
        UnregisteredNames(s.clients, Trim(name));
        return Some(c);
      case _ =>
        return if c in s.clients then Some(c) else None;
    }
  }

  lemma {:induction false} RunNames(s: Manager, es: seq<Event>)
    requires s.clients == []
    ensures WellFormed(Run(s, es).clients)
  {
    if es == [] {
      RunEmpty(s);
    } else {
      RunNames(s, es[..|es| - 1]);
      StepInRun(s, es);
      NextNames(Run(s, es[..|es| - 1]), es[|es| - 1]);
    }
  }

  lemma StepInRun(s: Manager, es: seq<Event>)
    requires es != []
    ensures Run(s, es).clients == NextClients(Run(s, es[..|es| - 1]), es[|es| - 1])
  {
    RunLast(s, es);
    StepClients(Run(s, es[..|es| - 1]), es[|es| - 1]);
  }

  /** `name` was registered at `k` and never unregistered afterwards. */
  ghost predicate RegisteredSince(es: seq<Event>, k: nat, name: Text)
  {
    k < |es| && Registers(es[k], name) && forall j | k < j < |es| :: !Removes(es[j], name)
  }

  lemma SinceLast(es: seq<Event>, name: Text)
    requires es != []
    ensures var init, last := es[..|es| - 1], es[|es| - 1];
            (exists k: nat :: RegisteredSince(es, k, name))
            <==> Registers(last, name) || (!Removes(last, name) && exists k: nat :: RegisteredSince(init, k, name))
  {
    var init, last := es[..|es| - 1], es[|es| - 1];
    if Registers(last, name) {
      assert RegisteredSince(es, |es| - 1, name);
    } else if k: nat :| !Removes(last, name) && RegisteredSince(init, k, name) {
      assert RegisteredSince(es, k, name);
    }
    if k: nat :| RegisteredSince(es, k, name) {
      assert k < |init| ==> RegisteredSince(init, k, name);
    }
  }

  /** A name is present exactly when the latest registration or unregistration of it was a
      registration. */
  lemma {:induction false} Presence(s: Manager, es: seq<Event>, name: Text)
    requires s.clients == []
    ensures Has(Run(s, es).clients, name) <==> exists k: nat :: RegisteredSince(es, k, name)
  {
    if es == [] {
      RunEmpty(s);
    } else {
      var init := es[..|es| - 1];
      Presence(s, init, name);
      RunNames(s, init);
      StepInRun(s, es);
      NextNames(Run(s, init), es[|es| - 1]);
      SinceLast(es, name);
    }
  }

  /** After any history a registration under a name is answered OK if and only if the latest
      registration or unregistration of the name was no registration, and then adds one record, with
      the state of now, released and without any emergency flag; otherwise the answer is
      ALREADY_REGISTERED and nothing changes.  Under a blank name the caller's status comes back. */
  lemma RegisterReply(s: Manager, es: seq<Event>, raw: Text, incoming: LcStatus)
    requires s.clients == [] && !incoming.StsAlreadyRegistered?
    ensures var now, name := Run(s, es), Trim(raw);
            var reply, next := RegisterStatus(now.clients, name, incoming), Step(now, Event.Register(raw, incoming)).next;
            if name == [] then reply == incoming && next == now
            else if exists k: nat :: RegisteredSince(es, k, name) then reply == StsAlreadyRegistered && next == now
            else
              && reply == StsOk
              && next.clients == now.clients + [Client(name, now.state, LcRelease, false, false, false)]
  {
    Presence(s, es, Trim(raw));
  }

  /** After any history an unregistration under a name is answered OK if and only if the latest
      registration or unregistration of the name was a registration, and then one record goes; otherwise
      the answer is NOT_OK and nothing changes.  Under a blank name there is no answer. */
  lemma UnregisterReplies(s: Manager, es: seq<Event>, raw: Text)
    requires s.clients == []
    ensures var now, name := Run(s, es), Trim(raw);
            var reply, next := UnregisterReply(now.clients, name), Step(now, Unregister(raw)).next;
            if name == [] then reply == None && next == now
            else if exists k: nat :: RegisteredSince(es, k, name) then
              reply == Some(StsOk) && |next.clients| == |now.clients| - 1 && !Has(next.clients, name)
            else reply == Some(StsNotOk) && next == now
  {
    var now := Run(s, es);
    Presence(s, es, Trim(raw));
    RunNames(s, es);
    UnregisteredNames(now.clients, Trim(raw));
  }

  /** The reply of a registration as a Legato client sees it; `incoming` is what its caller's status
      variable holds. */
  lemma LegatoRegisterReply(s: Manager, es: seq<Event>, raw: Text, incoming: LcStatus)
    requires s.clients == [] && !incoming.StsAlreadyRegistered?
    ensures ToLeStatus(RegisterStatus(Run(s, es).clients, Trim(raw), incoming))
            == if Trim(raw) == [] then
                 (if incoming.StsOk? then LeStsOk
                  else if incoming.StsNotRegistered? then LeStsNotRegistered
                  else LeStsNotOk)
               else if exists k: nat :: RegisteredSince(es, k, Trim(raw)) then LeStsAlreadyRegistered
               else LeStsOk
  {
    RegisterReply(s, es, raw, incoming);
  }

  predicate NoFlags(cs: seq<Client>)
  {
    forall c | c in cs :: !c.eCall && !c.eCallLaw && !c.testMode
  }

  lemma NextNoFlags(s: Manager, e: Event)
    requires !e.EvaluateEmergency? && NoFlags(s.clients)
    ensures NoFlags(NextClients(s, e))
  {
  }

  /** Only `evaluateLC_Emergency` ever sets an emergency flag: without it, as the program calls it
      nowhere, no record ever carries one. */
  lemma {:induction false} FlagsNeverSet(s: Manager, es: seq<Event>)
    requires s.clients == [] && forall i | 0 <= i < |es| :: !es[i].EvaluateEmergency?
    ensures NoFlags(Run(s, es).clients)
  {
    if es == [] {
      RunEmpty(s);
    } else {
      FlagsNeverSet(s, es[..|es| - 1]);
      StepInRun(s, es);
      NextNoFlags(Run(s, es[..|es| - 1]), es[|es| - 1]);
    }
  }

  /** What an event grants to `name`, if it grants anything. */
  function Grant(s: Manager, e: Event, name: Text): Option<StayActiveKind>
  {
    if GrantsStay(s, e, name) then Some(e.want) else None
  }

  /** What each event of the history granted to `name`. */
  function GrantHistory(s: Manager, es: seq<Event>, name: Text): seq<Option<StayActiveKind>>
  {
    seq(|es|, j requires 0 <= j < |es| => Grant(At(s, es, j), es[j], name))
  }

  lemma GrantHistoryLast(s: Manager, es: seq<Event>, name: Text)
    requires es != []
    ensures var n := |es| - 1;
            GrantHistory(s, es, name)
            == GrantHistory(s, es[..n], name) + [Grant(Run(s, es[..n]), es[n], name)]
  {
    var n := |es| - 1;
    forall j: nat | j < n ensures At(s, es[..n], j) == At(s, es, j) {
      AtPrefix(s, es, n, j);
    }
  }

  /** The last grant at or after position `k` is of `value`, or there is none and `value` is
      LC_RELEASE. */
  ghost predicate LastGrantIs(grants: seq<Option<StayActiveKind>>, k: nat, value: StayActiveKind)
  {
    || (value == LcRelease && forall j | k <= j < |grants| :: grants[j] == None)
    || exists j ::
      && k <= j < |grants| && grants[j] == Some(value)
      && forall i | j < i < |grants| :: grants[i] == None
  }

  lemma LastGrantExtends(
    grants: seq<Option<StayActiveKind>>, k: nat, earlier: StayActiveKind, more: Option<StayActiveKind>)
    requires k <= |grants| && LastGrantIs(grants, k, earlier)
    ensures LastGrantIs(grants + [more], k, if more.Some? then more.value else earlier)
  {
    var all := grants + [more];
    if more.Some? {
      assert all[|grants|] == more;
    } else if j :| k <= j < |grants| && grants[j] == Some(earlier) && forall i | j < i < |grants| :: grants[i] == None {
      assert all[j] == Some(earlier);
    }
  }

  /** The record was inserted by event `k`, holds the state of that moment, has not been removed
      since, and shows the last stay-active value granted since. */
  ghost predicate InsertedBy(s: Manager, es: seq<Event>, k: nat, c: Client)
  {
    && RegisteredSince(es, k, c.name)
    && !Has(At(s, es, k).clients, c.name)
    && c.lcState == At(s, es, k).state
    && LastGrantIs(GrantHistory(s, es, c.name), k + 1, c.stayActive)
  }

  lemma InsertedNow(s: Manager, es: seq<Event>, before: Manager, c: Client)
    requires es != [] && before == Run(s, es[..|es| - 1])
    requires Registers(es[|es| - 1], c.name) && !Has(before.clients, c.name)
    requires c.lcState == before.state && c.stayActive == LcRelease
    ensures InsertedBy(s, es, |es| - 1, c)
  {
    assert LastGrantIs(GrantHistory(s, es, c.name), |es|, c.stayActive);
  }

  lemma SinceExtends(es: seq<Event>, k: nat, name: Text)
    requires es != [] && RegisteredSince(es[..|es| - 1], k, name) && !Removes(es[|es| - 1], name)
    ensures RegisteredSince(es, k, name)
  {
  }

  lemma InsertedEarlier(
    s: Manager, es: seq<Event>, k: nat, b: Client, c: Client, grant: Option<StayActiveKind>)
    requires es != [] && InsertedBy(s, es[..|es| - 1], k, b)
    requires !Removes(es[|es| - 1], c.name)
    requires GrantHistory(s, es, c.name) == GrantHistory(s, es[..|es| - 1], c.name) + [grant]
    requires Carries(grant, b, c)
    ensures InsertedBy(s, es, k, c)
  {
    SinceExtends(es, k, c.name);
    AtPrefix(s, es, |es| - 1, k);
    LastGrantExtends(GrantHistory(s, es[..|es| - 1], c.name), k + 1, b.stayActive, grant);
  }

  /** Every record of every reachable registry is explained by the history. */
  lemma {:induction false} RecordsAreExplained(s: Manager, es: seq<Event>, c: Client)
    requires s.clients == [] && c in Run(s, es).clients
    ensures exists k: nat :: InsertedBy(s, es, k, c)
  {
    if es == [] {
      RunEmpty(s);
    } else {
      var n := |es| - 1;
      var t := Run(s, es[..n]);
      RunNames(s, es[..n]);
      StepInRun(s, es);
      var before := NextRecord(t, es[n], c);
      match before {
        case Some(b) =>
          RecordsAreExplained(s, es[..n], b);
          var k: nat :| InsertedBy(s, es[..n], k, b);
          GrantHistoryLast(s, es, c.name);
          InsertedEarlier(s, es, k, b, c, Grant(t, es[n], c.name));
        case None =>
          InsertedNow(s, es, t, c);
      }
    }
  }

  /** In every reachable registry a stay-active request under a name with low ends is refused,
      changes nothing and sends nothing. */
  lemma UntrimmedStayActiveIsRefused(s: Manager, es: seq<Event>, name: Text, want: StayActiveKind)
    requires s.clients == [] && Trim(name) != name
    ensures Step(Run(s, es), StayActive(name, want)) == Effect(Run(s, es), [])
    ensures StayActiveStatus(Run(s, es), name, want) == StsNotOk
  {
    RunNames(s, es);
    UntrimmedNameIsAbsent(Run(s, es).clients, name);
  }
}
