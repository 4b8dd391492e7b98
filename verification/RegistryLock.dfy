/** The registry under concurrency.  Any number of calls run at the same time, interleaved step by
    step: a registration reads the lifecycle state outside the lock, every call scans the registry
    record by record inside it, and every call ends with a second locked section that prints.
    Meanwhile the lifecycle state changes at any time, for it is not guarded by the lock. */
module RegistryLock {
  import opened LifecycleTypes
  import opened Names
  import opened Registry

  datatype Call =
    | CallRegister(raw: Text, incoming: LcStatus)
    | CallUnregister(raw: Text)
    | CallStayActive(name: Text, want: StayActiveKind)
    | CallPrint

  /** Where a call is. */
  datatype Pc =
    | Waiting                // not called yet
    | Entered
    | WantLock
    | Scanning(i: nat)
    | Acting(i: nat)
    | Unlocking
    | WantPrint
    | Printing(i: nat)
    | PrintUnlocking
    | Done

  /** A call in progress.  `started` and `readAt` are moments, as positions in the history of the
      lifecycle state; `seen` is the state read at `readAt`. */
  datatype Thread = Thread(call: Call, pc: Pc, started: nat, seen: LcState, readAt: nat)

  /** A finished registry section: whose call, the state it had read, whether a stay-active request
      was permitted, and the reply. */
  datatype Section = Section(
    thread: nat, call: Call, seen: LcState, started: nat, readAt: nat, at: nat,
    granted: bool, reply: Option<LcStatus>)

  /** Every value the lifecycle state has had; the last is the current one. */
  type StateHistory = states: seq<LcState> | states != [] witness [Init]

  datatype System = System(
    threads: seq<Thread>,
    holder: Option<nat>,        // who holds m_clients_mtx
    clients: seq<Client>,
    states: StateHistory,       // NAD_LifecycleState over time
    acquired: seq<nat>,         // who acquired the lock for a registry section, in order
    sections: seq<Section>)     // the registry sections carried out, in order

  /** One step of call `t`, or a change of the lifecycle state.  `granted` is what the unguarded
      reads of state, CAN and battery decide about a lock or backup-battery request. */
  datatype Action = Go(t: nat, granted: bool) | SetState(state: LcState)

  /** The name the call looks for. */
  function Key(call: Call): Text
  {
    match call
    case CallRegister(raw, _) => Trim(raw)
    case CallUnregister(raw) => Trim(raw)
    case CallStayActive(name, _) => name
    case CallPrint => []
  }

  /** A blank name sends a registration or unregistration straight to printing. */
  predicate SkipsRegistry(call: Call)
  {
    match call
    case CallRegister(raw, _) => Trim(raw) == []
    case CallUnregister(raw) => Trim(raw) == []
    case CallStayActive(_, _) => false
    case CallPrint => true
  }

  /** A release is always permitted, an unnamed kind never. */
  predicate Permitted(want: StayActiveKind, granted: bool)
  {
    want.LcRelease? || (granted && !want.LcStayUnnamed?)
  }

  predicate InSection(pc: Pc)
  {
    pc.Scanning? || pc.Acting? || pc.Unlocking? || pc.Printing? || pc.PrintUnlocking?
  }

  predicate Acquiring(pc: Pc)
  {
    pc.WantLock? || pc.WantPrint?
  }

  /** The call has its registry section behind it, or skipped it. */
  predicate Past(pc: Pc)
  {
    pc.Unlocking? || pc.WantPrint? || pc.Printing? || pc.PrintUnlocking? || pc.Done?
  }

  predicate Start(s: System)
  {
    && (forall t | t in s.threads :: t.pc == Waiting)
    && s.holder == None && s.clients == []
    && s.acquired == [] && s.sections == []
  }

  predicate Possible(s: System, a: Action)
  {
    match a
    case SetState(_) => true
    case Go(t, _) =>
      && t < |s.threads|
      && !s.threads[t].pc.Done?
      && (Acquiring(s.threads[t].pc) ==> s.holder == None)
  }

  function Move(s: System, t: nat, pc: Pc): System
    requires t < |s.threads|
  {
    s.(threads := s.threads[t := s.threads[t].(pc := pc)])
  }

  /** The body of the section once the scan has stopped at `i`. */
  function ActAt(cs: seq<Client>, thread: Thread, i: nat, granted: bool): seq<Client>
  {
    match thread.call
    case CallRegister(_, incoming) =>
      if i >= |cs| && !incoming.StsAlreadyRegistered? then cs + [NewClient(Key(thread.call), thread.seen)] else cs
    case CallUnregister(_) => if i < |cs| then cs[..i] + cs[i + 1..] else cs
    case CallStayActive(_, want) =>
      if i < |cs| && Permitted(want, granted) then cs[i := cs[i].(stayActive := want)] else cs
    case CallPrint => cs
  }

  /** What the section replies once the scan has stopped at `i`. */
  function ReplyAt(cs: seq<Client>, call: Call, i: nat, granted: bool): Option<LcStatus>
  {
    match call
    case CallRegister(_, incoming) =>
      Some(if i < |cs| || incoming.StsAlreadyRegistered? then StsAlreadyRegistered else StsOk)
    case CallUnregister(_) => Some(if i < |cs| then StsOk else StsNotOk)
    case CallStayActive(_, want) => Some(if i < |cs| && Permitted(want, granted) then StsOk else StsNotOk)
    case CallPrint => None
  }

  function GoStep(s: System, t: nat, granted: bool): System
    requires t < |s.threads|
  {
    var thread := s.threads[t];
    match thread.pc
    case Waiting =>
      s.(threads := s.threads[t := thread.(pc := Entered, started := |s.states| - 1)])
    case Entered =>
      if SkipsRegistry(thread.call) then Move(s, t, WantPrint)
      else if thread.call.CallRegister? then
        s.(threads := s.threads[t := thread.(pc := WantLock, seen := s.states[|s.states| - 1], readAt := |s.states| - 1)])
      else Move(s, t, WantLock)
    case WantLock => Move(s, t, Scanning(0)).(holder := Some(t), acquired := s.acquired + [t])
    case Scanning(i) =>
      Move(s, t, if i < |s.clients| && s.clients[i].name != Key(thread.call) then Scanning(i + 1) else Acting(i))
    case Acting(i) =>
      var reply := ReplyAt(s.clients, thread.call, i, granted);
      var section :=
        Section(t, thread.call, thread.seen, thread.started, thread.readAt, |s.states| - 1, granted, reply);
      Move(s, t, Unlocking).(clients := ActAt(s.clients, thread, i, granted), sections := s.sections + [section])
    case Unlocking => Move(s, t, WantPrint).(holder := None)
    case WantPrint => Move(s, t, Printing(0)).(holder := Some(t))
    case Printing(i) => Move(s, t, if i < |s.clients| then Printing(i + 1) else PrintUnlocking)
    case PrintUnlocking => Move(s, t, Done).(holder := None)
    case Done => s
  }

  function Act(s: System, a: Action): System
    requires Possible(s, a)
  {
    match a
    case SetState(state) => s.(states := s.states + [state])
    case Go(t, granted) => GoStep(s, t, granted)
  }

  // ---- the sequential meaning of the sections -------------------------------------------

  /** The registry operation of one section, as a single step. */
  function Carry(cs: seq<Client>, section: Section): seq<Client>
  {
    match section.call
    case CallRegister(raw, incoming) => Registered(cs, Trim(raw), section.seen, incoming)
    case CallUnregister(raw) => if Trim(raw) == [] then cs else Unregistered(cs, Trim(raw))
    case CallStayActive(name, want) =>
      if Permitted(want, section.granted) then WithStayActive(cs, name, want) else cs
    case CallPrint => cs
  }

  /** What that operation replies. */
  function ReplyOf(cs: seq<Client>, section: Section): Option<LcStatus>
  {
    match section.call
    case CallRegister(raw, incoming) => Some(RegisterStatus(cs, Trim(raw), incoming))
    case CallUnregister(raw) => UnregisterReply(cs, Trim(raw))
    case CallStayActive(name, want) =>
      Some(if Has(cs, name) && Permitted(want, section.granted) then StsOk else StsNotOk)
    case CallPrint => None
  }

  /** The sections carried out one after the other. */
  function Replay(sections: seq<Section>): seq<Client>
  {
    if sections == [] then [] else Carry(Replay(sections[..|sections| - 1]), sections[|sections| - 1])
  }

  function ThreadsOf(sections: seq<Section>): seq<nat>
  {
    seq(|sections|, i requires 0 <= i < |sections| => sections[i].thread)
  }

  // ---- the invariant ------------------------------------------------------------------------

  /** The lock is held exactly by the call that is inside a section. */
  ghost predicate LockOk(s: System)
  {
    && (s.holder.Some? ==> s.holder.value < |s.threads|)
    && forall t | 0 <= t < |s.threads| :: InSection(s.threads[t].pc) <==> s.holder == Some(t)
  }

  /** The scan has passed only records with other names. */
  ghost predicate ScanOk(cs: seq<Client>, thread: Thread)
  {
    match thread.pc
    case Scanning(i) =>
      !SkipsRegistry(thread.call) && i <= |cs| && forall j | 0 <= j < i :: cs[j].name != Key(thread.call)
    case Acting(i) =>
      && !SkipsRegistry(thread.call)
      && i <= |cs| && (forall j | 0 <= j < i :: cs[j].name != Key(thread.call))
      && (i < |cs| ==> cs[i].name == Key(thread.call))
    case Printing(i) => i <= |cs|
    case _ => true
  }

  /** The moments a call remembers are real ones. */
  ghost predicate MomentsOk(states: StateHistory, thread: Thread)
  {
    match thread.pc
    case Waiting => true
    case Entered => thread.started < |states|
    case WantLock => !SkipsRegistry(thread.call) && ReadOk(states, thread)
    case Scanning(_) => ReadOk(states, thread)
    case Acting(_) => ReadOk(states, thread)
    case _ => true
  }

  ghost predicate ReadOk(states: StateHistory, thread: Thread)
  {
    thread.call.CallRegister? ==>
      && thread.started <= thread.readAt < |states|
      && states[thread.readAt] == thread.seen
  }

  /** The state a registration stored was current at some moment between the start of the call and
      the insertion. */
  ghost predicate SectionOk(states: StateHistory, section: Section)
  {
    && section.at < |states|
    && (section.call.CallRegister? ==>
          section.started <= section.readAt <= section.at && states[section.readAt] == section.seen)
  }

  /** The calls that acquired the lock are those of the sections, in order, and perhaps one whose
      section is under way. */
  ghost predicate OrderOk(s: System)
  {
    var done := ThreadsOf(s.sections);
    match s.holder
    case None => s.acquired == done
    case Some(t) =>
      t < |s.threads| &&
      var pc := s.threads[t].pc;
      s.acquired == if pc.Scanning? || pc.Acting? then done + [t] else done
  }

  /** The sections are those of the calls that are past theirs, one for each, and none for a call
      that skips the registry. */
  ghost predicate CallsOk(threads: seq<Thread>, sections: seq<Section>)
  {
    && (forall section | section in sections :: SectionIsCall(threads, section))
    && (forall i, j | 0 <= i < j < |sections| :: sections[i].thread != sections[j].thread)
    && (forall t | 0 <= t < |threads| && Past(threads[t].pc) && !SkipsRegistry(threads[t].call) ::
          t in ThreadsOf(sections))
  }

  ghost predicate SectionIsCall(threads: seq<Thread>, section: Section)
  {
    && section.thread < |threads|
    && var thread := threads[section.thread];
    && Past(thread.pc) && section.call == thread.call && !SkipsRegistry(thread.call)
    && section.started == thread.started
  }

  /** Each section replied what the operation replies on the registry of its turn. */
  ghost predicate RepliesOk(sections: seq<Section>)
  {
    forall i | 0 <= i < |sections| :: sections[i].reply == ReplyOf(Replay(sections[..i]), sections[i])
  }

  /** The lock and the calls in progress. */
  ghost predicate ProgressOk(s: System)
  {
    && LockOk(s)
    && (forall t | 0 <= t < |s.threads| :: ScanOk(s.clients, s.threads[t]) && MomentsOk(s.states, s.threads[t]))
    && OrderOk(s)
  }

  /** The sections carried out so far explain the registry. */
  ghost predicate SectionsOk(s: System)
  {
    && (forall section | section in s.sections :: SectionOk(s.states, section))
    && CallsOk(s.threads, s.sections)
    && RepliesOk(s.sections)
    && s.clients == Replay(s.sections)
    && WellFormed(s.clients)
  }

  ghost predicate Inv(s: System)
  {
    ProgressOk(s) && SectionsOk(s)
  }

  lemma CarryWellFormed(cs: seq<Client>, section: Section)
    requires WellFormed(cs)
    ensures WellFormed(Carry(cs, section))
  {
    match section.call
    case CallRegister(raw, incoming) =>
      TrimIdempotent(raw);
      RegisteredNames(cs, Trim(raw), section.seen, incoming);
    case CallUnregister(raw) =>
      UnregisteredNames(cs, Trim(raw));
    case CallStayActive(name, want) =>
      StayActiveNames(cs, name, want);
    case CallPrint =>
  }

  /** Acting at the position where the scan stopped is the registry operation itself. */
  lemma ActIsCarry(cs: seq<Client>, thread: Thread, i: nat, section: Section)
    requires thread.pc == Acting(i) && ScanOk(cs, thread)
    requires section.call == thread.call && section.seen == thread.seen
    ensures ActAt(cs, thread, i, section.granted) == Carry(cs, section)
    ensures ReplyAt(cs, thread.call, i, section.granted) == ReplyOf(cs, section)
  {
    assert i == IndexOf(cs, Key(thread.call));
  }

  lemma ReplaySnoc(sections: seq<Section>, section: Section)
    ensures Replay(sections + [section]) == Carry(Replay(sections), section)
    ensures ThreadsOf(sections + [section]) == ThreadsOf(sections) + [section.thread]
  {
    assert (sections + [section])[..|sections|] == sections;
  }

  lemma RepliesSnoc(sections: seq<Section>, section: Section)
    requires RepliesOk(sections) && section.reply == ReplyOf(Replay(sections), section)
    ensures RepliesOk(sections + [section])
  {
    var all := sections + [section];
    forall i | 0 <= i < |all| ensures all[i].reply == ReplyOf(Replay(all[..i]), all[i]) {
      assert all[..i] == sections[..i];
      assert sections[..|sections|] == sections;
    }
  }

  lemma SetStateKeepsInv(s: System, state: LcState)
    requires Inv(s)
    ensures Inv(s.(states := s.states + [state]))
  {
    var n := s.(states := s.states + [state]);
    forall t | 0 <= t < |n.threads| ensures MomentsOk(n.states, n.threads[t]) {
      assert MomentsOk(s.states, s.threads[t]);
    }
    forall section | section in n.sections ensures SectionOk(n.states, section) {
      assert SectionOk(s.states, section);
    }
  }

  lemma ActingKeepsCalls(threads: seq<Thread>, sections: seq<Section>, t: nat, section: Section)
    requires CallsOk(threads, sections)
    requires t < |threads| && threads[t].pc.Acting? && !SkipsRegistry(threads[t].call)
    requires section.thread == t && section.call == threads[t].call && section.started == threads[t].started
    ensures CallsOk(threads[t := threads[t].(pc := Unlocking)], sections + [section])
  {
    ReplaySnoc(sections, section);
    forall i | 0 <= i < |sections| ensures sections[i].thread != t {
      assert SectionIsCall(threads, sections[i]);
    }
  }

  /** The locked action is the registry operation of the call, and is recorded as a section. */
  lemma ActingCarries(s: System, t: nat, granted: bool) returns (section: Section)
    requires t < |s.threads| && s.threads[t].pc.Acting?
    requires ScanOk(s.clients, s.threads[t]) && MomentsOk(s.states, s.threads[t])
    ensures GoStep(s, t, granted)
            == s.(threads := s.threads[t := s.threads[t].(pc := Unlocking)],
                  clients := Carry(s.clients, section),
                  sections := s.sections + [section])
    ensures section.reply == ReplyOf(s.clients, section) && SectionOk(s.states, section)
    ensures section.thread == t && section.call == s.threads[t].call && section.started == s.threads[t].started
  {
    var n := GoStep(s, t, granted);
    section := n.sections[|s.sections|];
    ActIsCarry(s.clients, s.threads[t], s.threads[t].pc.i, section);
  }

  lemma SectionsExtend(s: System, section: Section)
    requires SectionsOk(s) && SectionOk(s.states, section)
    requires section.reply == ReplyOf(s.clients, section)
    ensures var sections := s.sections + [section];
            && (forall x | x in sections :: SectionOk(s.states, x))
            && RepliesOk(sections)
            && Carry(s.clients, section) == Replay(sections)
            && WellFormed(Replay(sections))
  {
    ReplaySnoc(s.sections, section);
    RepliesSnoc(s.sections, section);
    CarryWellFormed(s.clients, section);
  }

  lemma ActingKeepsSections(s: System, t: nat, granted: bool)
    requires Inv(s) && t < |s.threads| && s.threads[t].pc.Acting?
    ensures SectionsOk(GoStep(s, t, granted))
  {
    assert ScanOk(s.clients, s.threads[t]) && MomentsOk(s.states, s.threads[t]);
    var section := ActingCarries(s, t, granted);
    SectionsExtend(s, section);
    ActingKeepsCalls(s.threads, s.sections, t, section);
  }

  lemma ActingKeepsProgress(s: System, t: nat, granted: bool)
    requires ProgressOk(s) && t < |s.threads| && s.threads[t].pc.Acting?
    ensures ProgressOk(GoStep(s, t, granted))
  {
    var n := GoStep(s, t, granted);
    ReplaySnoc(s.sections, n.sections[|s.sections|]);
    assert s.holder == Some(t);
    forall u | 0 <= u < |n.threads| ensures ScanOk(n.clients, n.threads[u]) && MomentsOk(n.states, n.threads[u]) {
      assert u != t ==> !InSection(s.threads[u].pc) && n.threads[u] == s.threads[u];
    }
  }

  lemma GoKeepsLock(s: System, t: nat, granted: bool)
    requires LockOk(s) && Possible(s, Go(t, granted))
    ensures LockOk(GoStep(s, t, granted))
  {
  }

  lemma GoKeepsOrder(s: System, t: nat, granted: bool)
    requires LockOk(s) && OrderOk(s) && Possible(s, Go(t, granted)) && !s.threads[t].pc.Acting?
    ensures OrderOk(GoStep(s, t, granted))
  {
    var pc := s.threads[t].pc;
    assert InSection(pc) <==> s.holder == Some(t);
  }

  /** A step outside the locked action moves one call on and leaves the rest alone. */
  lemma GoKeepsOwn(s: System, t: nat, granted: bool)
    requires t < |s.threads| && !s.threads[t].pc.Acting?
    requires ScanOk(s.clients, s.threads[t]) && MomentsOk(s.states, s.threads[t])
    ensures var n := GoStep(s, t, granted);
            && n.clients == s.clients && n.states == s.states && n.sections == s.sections
            && |n.threads| == |s.threads| && n.threads == s.threads[t := n.threads[t]]
            && ScanOk(n.clients, n.threads[t]) && MomentsOk(n.states, n.threads[t])
            && MovesOn(s.threads[t], n.threads[t])
  {
  }

  ghost predicate MovesOn(before: Thread, after: Thread)
  {
    && after.call == before.call
    && (Past(before.pc) ==> Past(after.pc) && after.started == before.started)
    && (Past(after.pc) && !SkipsRegistry(after.call) ==> Past(before.pc))
  }

  lemma GoKeepsCalls(threads: seq<Thread>, sections: seq<Section>, t: nat, after: Thread)
    requires CallsOk(threads, sections) && t < |threads| && MovesOn(threads[t], after)
    ensures CallsOk(threads[t := after], sections)
  {
    forall section | section in sections ensures SectionIsCall(threads[t := after], section) {
      assert SectionIsCall(threads, section);
    }
  }

  lemma GoKeepsInv(s: System, t: nat, granted: bool)
    requires Inv(s) && Possible(s, Go(t, granted)) && !s.threads[t].pc.Acting?
    ensures Inv(GoStep(s, t, granted))
  {
    var n := GoStep(s, t, granted);
    GoKeepsLock(s, t, granted);
    GoKeepsOrder(s, t, granted);
    GoKeepsOwn(s, t, granted);
    GoKeepsCalls(s.threads, s.sections, t, n.threads[t]);
    forall u | 0 <= u < |n.threads| ensures ScanOk(n.clients, n.threads[u]) && MomentsOk(n.states, n.threads[u]) {
      assert u != t ==> n.threads[u] == s.threads[u];
    }
  }

  lemma InvKept(s: System, a: Action)
    requires Inv(s) && Possible(s, a)
    ensures Inv(Act(s, a))
  {
    match a
    case SetState(state) => SetStateKeepsInv(s, state);
    case Go(t, granted) =>
      if s.threads[t].pc.Acting? {
        ActingKeepsProgress(s, t, granted);
        ActingKeepsSections(s, t, granted);
      } else {
        GoKeepsInv(s, t, granted);
      }
  }

  // ---- whole runs -----------------------------------------------------------------------------

  ghost predicate Reaches(start: System, actions: seq<Action>, s: System)
  {
    if actions == [] then s == start
    else
      var init, last := actions[..|actions| - 1], actions[|actions| - 1];
      exists before :: Reaches(start, init, before) && Possible(before, last) && s == Act(before, last)
  }

  lemma {:induction false} ReachableInv(start: System, actions: seq<Action>, s: System)
    requires Start(start) && Reaches(start, actions, s)
    ensures Inv(s)
  {
    if actions != [] {
      var init, last := actions[..|actions| - 1], actions[|actions| - 1];
      var before :| Reaches(start, init, before) && Possible(before, last) && s == Act(before, last);
      ReachableInv(start, init, before);
      InvKept(before, last);
    }
  }

  /** In every interleaving: at most one call is inside a section, no call about to acquire the
      lock already holds it, and no finished call still does. */
  lemma LockSafety(start: System, actions: seq<Action>, s: System, t: nat, u: nat)
    requires Start(start) && Reaches(start, actions, s)
    requires t < |s.threads| && u < |s.threads|
    ensures InSection(s.threads[t].pc) && InSection(s.threads[u].pc) ==> t == u
    ensures Acquiring(s.threads[t].pc) ==> s.holder != Some(t)
    ensures s.threads[t].pc.Done? ==> s.holder != Some(t)
  {
    ReachableInv(start, actions, s);
  }

  lemma SectionsAreCalls(s: System)
    requires SectionsOk(s)
    ensures forall i | 0 <= i < |s.sections| ::
              s.sections[i].thread < |s.threads| && s.sections[i].call == s.threads[s.sections[i].thread].call
    ensures forall t | 0 <= t < |s.threads| ::
              t in ThreadsOf(s.sections) <==> Past(s.threads[t].pc) && !SkipsRegistry(s.threads[t].call)
  {
    forall i | 0 <= i < |s.sections| ensures SectionIsCall(s.threads, s.sections[i]) {
      assert s.sections[i] in s.sections;
    }
  }

  /** In every interleaving the registry is what results from carrying out the locked sections one
      after the other, in the order in which the calls acquired the lock; each call that does not
      skip the registry has exactly one section once it is past it, and got the reply that its
      operation gives in that order. */
  lemma Linearisable(start: System, actions: seq<Action>, s: System)
    requires Start(start) && Reaches(start, actions, s)
    ensures s.clients == Replay(s.sections) && WellFormed(s.clients)
    ensures ThreadsOf(s.sections) <= s.acquired <= ThreadsOf(s.sections) + if s.holder.Some? then [s.holder.value] else []
    ensures s.holder == None ==> s.acquired == ThreadsOf(s.sections)
    ensures forall i | 0 <= i < |s.sections| ::
              && s.sections[i].thread < |s.threads|
              && s.sections[i].call == s.threads[s.sections[i].thread].call
              && s.sections[i].reply == ReplyOf(Replay(s.sections[..i]), s.sections[i])
    ensures forall i, j | 0 <= i < j < |s.sections| :: s.sections[i].thread != s.sections[j].thread
    ensures forall t | 0 <= t < |s.threads| ::
              t in ThreadsOf(s.sections) <==> Past(s.threads[t].pc) && !SkipsRegistry(s.threads[t].call)
  {
    ReachableInv(start, actions, s);
    SectionsAreCalls(s);
  }

  /** In every interleaving a release by a registered client is granted and shows, an unnamed kind is
      refused, and a lock or backup-battery request is granted as the unguarded reads decided. */
  lemma StayActiveSections(start: System, actions: seq<Action>, s: System, i: nat)
    requires Start(start) && Reaches(start, actions, s)
    requires i < |s.sections| && s.sections[i].call.CallStayActive?
    ensures var section := s.sections[i];
            var before, after := Replay(s.sections[..i]), Replay(s.sections[..i + 1]);
            var at := IndexOf(before, section.call.name);
            if && Has(before, section.call.name)
               && (section.call.want.LcRelease?
                   || (section.granted && (section.call.want.LcLock? || section.call.want.LcBub?)))
            then
              section.reply == Some(StsOk) && after == before[at := before[at].(stayActive := section.call.want)]
            else section.reply == Some(StsNotOk) && after == before
  {
    ReachableInv(start, actions, s);
    ReplaySnoc(s.sections[..i], s.sections[i]);
    assert s.sections[..i + 1] == s.sections[..i] + [s.sections[i]];
  }

  predicate Unregisters(call: Call, name: Text)
  {
    call.CallUnregister? && name != [] && Trim(call.raw) == name
  }

  /** Section `k` put the record into the registry: it is a registration of that name while the name
      was absent, it had read the state the record shows, and the name was not unregistered since. */
  ghost predicate InsertedBy(sections: seq<Section>, k: nat, c: Client)
  {
    && k < |sections|
    && sections[k].call.CallRegister? && Trim(sections[k].call.raw) == c.name
    && sections[k].seen == c.lcState
    && !Has(Replay(sections[..k]), c.name)
    && sections[k].reply == Some(StsOk)
    && forall j | k < j < |sections| :: !Unregisters(sections[j].call, c.name)
  }

  /** Every record after a section was there before it, or was inserted by it. */
  lemma CarryRecord(cs: seq<Client>, section: Section, c: Client) returns (before: Option<Client>)
    requires WellFormed(cs) && c in Carry(cs, section)
    ensures match before
            case Some(b) =>
              b in cs && b.name == c.name && b.lcState == c.lcState && !Unregisters(section.call, c.name)
            case None =>
              && section.call.CallRegister? && Trim(section.call.raw) == c.name && section.seen == c.lcState
              && !Has(cs, c.name) && ReplyOf(cs, section) == Some(StsOk)
  {
    match section.call {
      case CallStayActive(name, want) =>
        var i :| 0 <= i < |cs| && Carry(cs, section)[i] == c;
        return Some(cs[i]);
      case CallUnregister(raw) =>
        UnregisteredNames(cs, Trim(raw));
        return Some(c);
      case _ =>
        return if c in cs then Some(c) else None;
    }
  }

  lemma {:induction false} ReplayWellFormed(sections: seq<Section>)
    ensures WellFormed(Replay(sections))
  {
    if sections != [] {
      var n := |sections| - 1;
      ReplayWellFormed(sections[..n]);
      CarryWellFormed(Replay(sections[..n]), sections[n]);
    }
  }

  lemma InsertedEarlier(sections: seq<Section>, k: nat, b: Client, c: Client)
    requires sections != [] && InsertedBy(sections[..|sections| - 1], k, b)
    requires b.name == c.name && b.lcState == c.lcState
    requires !Unregisters(sections[|sections| - 1].call, c.name)
    ensures InsertedBy(sections, k, c)
  {
    assert sections[..|sections| - 1][..k] == sections[..k];
  }

  /** Every record of a replayed registry was inserted by one of the sections. */
  lemma {:induction false} ReplayRecord(sections: seq<Section>, c: Client) returns (k: nat)
    requires RepliesOk(sections) && c in Replay(sections)
    ensures InsertedBy(sections, k, c)
  {
    var n := |sections| - 1;
    var init := sections[..n];
    assert forall i | 0 <= i < n :: init[..i] == sections[..i];
    ReplayWellFormed(init);
    var before := CarryRecord(Replay(init), sections[n], c);
    match before {
      case Some(b) =>
        k := ReplayRecord(init, b);
        InsertedEarlier(sections, k, b, c);
      case None =>
        k := n;
    }
  }

  /** In every interleaving the state stored in a record was the lifecycle state at some moment
      between the start of the call that inserted it and the insertion. */
  lemma RecordedStateWasCurrent(start: System, actions: seq<Action>, s: System, c: Client) returns (k: nat)
    requires Start(start) && Reaches(start, actions, s) && c in s.clients
    ensures InsertedBy(s.sections, k, c)
    ensures var section := s.sections[k];
            && section.thread < |s.threads| && s.threads[section.thread].call == section.call
            && section.started == s.threads[section.thread].started
            && section.started <= section.readAt <= section.at < |s.states|
            && s.states[section.readAt] == c.lcState
  {
    ReachableInv(start, actions, s);
    k := ReplayRecord(s.sections, c);
    assert SectionOk(s.states, s.sections[k]) && SectionIsCall(s.threads, s.sections[k]);
  }

  // ---- the lock is always given back --------------------------------------------------------------

  /** How many of its own steps a call needs at most to leave the section it is in. */
  function StepsToRelease(s: System, t: nat): nat
    requires t < |s.threads|
  {
    match s.threads[t].pc
    case Scanning(i) => if i <= |s.clients| then |s.clients| - i + 3 else 0
    case Acting(_) => 2
    case Unlocking => 1
    case Printing(i) => if i <= |s.clients| then |s.clients| - i + 2 else 0
    case PrintUnlocking => 1
    case _ => 0
  }

  lemma HolderCanGo(s: System, t: nat)
    requires ProgressOk(s) && s.holder == Some(t)
    ensures t < |s.threads| && StepsToRelease(s, t) > 0
    ensures forall granted :: Possible(s, Go(t, granted))
  {
    assert InSection(s.threads[t].pc);
    assert ScanOk(s.clients, s.threads[t]);
  }

  lemma OwnStepCloser(s: System, t: nat, granted: bool)
    requires ProgressOk(s) && s.holder == Some(t) && t < |s.threads|
    ensures StepsToRelease(GoStep(s, t, granted), t) < StepsToRelease(s, t)
    ensures StepsToRelease(s, t) == 1 ==> GoStep(s, t, granted).holder == None
  {
    assert InSection(s.threads[t].pc);
    assert ScanOk(s.clients, s.threads[t]);
  }

  lemma OtherStepNeutral(s: System, t: nat, a: Action)
    requires ProgressOk(s) && s.holder == Some(t) && t < |s.threads| && Possible(s, a)
    requires a.Go? ==> a.t != t
    ensures var n := Act(s, a);
            && t < |n.threads| && n.threads[t] == s.threads[t]
            && n.clients == s.clients && n.holder == s.holder
  {
    if a.Go? {
      assert !InSection(s.threads[a.t].pc);
    }
  }

  /** The holder can always go on, each of its steps brings it closer to the release, the last one
      releases, and no step of another call or change of state sets it back. */
  lemma HolderReleases(start: System, actions: seq<Action>, s: System, a: Action)
    requires Start(start) && Reaches(start, actions, s) && Possible(s, a)
    requires s.holder.Some?
    ensures var t := s.holder.value;
            && t < |s.threads| && StepsToRelease(s, t) > 0
            && (forall granted :: Possible(s, Go(t, granted)))
            && t < |Act(s, a).threads|
            && if a.Go? && a.t == t then
                 && StepsToRelease(Act(s, a), t) < StepsToRelease(s, t)
                 && (StepsToRelease(s, t) == 1 ==> Act(s, a).holder == None)
               else
                 StepsToRelease(Act(s, a), t) == StepsToRelease(s, t) && Act(s, a).holder == s.holder
  {
    ReachableInv(start, actions, s);
    var t := s.holder.value;
    HolderCanGo(s, t);
    if a.Go? && a.t == t {
      OwnStepCloser(s, t, a.granted);
    } else {
      OtherStepNeutral(s, t, a);
    }
  }
}
