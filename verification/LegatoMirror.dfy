/** The Legato cache under concurrency.  One thread reports: it writes the five cached fields one
    after the other and then queues an event.  Another thread delivers the queued events in order,
    but what it hands to the handler is read from the live cache, field by field and in any order,
    not from the event.  Every interleaving of the two is considered. */
module LegatoMirror {
  import opened LifecycleTypes
  import opened LegatoTranslation

  const FIELDS := 5

  /** Replace field `f` of the cache by that of `from`, in the order the reporter writes them. */
  function SetField(cache: LeInfo, f: nat, from: LeInfo): LeInfo
    requires f < FIELDS
  {
    match f
    case 0 => cache.(state := from.state)
    case 1 => cache.(wake := from.wake)
    case 2 => cache.(can := from.can)
    case 3 => cache.(battery := from.battery)
    case _ => cache.(vtm := from.vtm)
  }

  predicate SameField(a: LeInfo, b: LeInfo, f: nat)
    requires f < FIELDS
  {
    match f
    case 0 => a.state == b.state
    case 1 => a.wake == b.wake
    case 2 => a.can == b.can
    case 3 => a.battery == b.battery
    case _ => a.vtm == b.vtm
  }

  /** A delivery: the number of its event, the tuple read so far, and for each field already read
      the number of the report that had written it. */
  datatype Delivery = Delivery(event: nat, info: LeInfo, read: map<nat, nat>)

  datatype Mirror = Mirror(
    told: seq<Snapshot>,         // the reports begun, in order; report n is told[n - 1]
    written: nat,                // fields of the latest report already written
    queued: nat,                 // reports that have queued their event
    cache: LeInfo,
    version: seq<nat>,           // for each field the number of the report that wrote it, 0 if none
    queue: seq<nat>,             // events queued and not yet taken
    reading: Option<Delivery>,   // the delivery in progress
    delivered: seq<Delivery>)

  datatype Action = Begin(snapshot: Snapshot) | Write | Queue | Take | Read(field: nat) | Hand

  predicate Start(m: Mirror)
  {
    && m.told == [] && m.written == FIELDS && m.queued == 0
    && m.version == [0, 0, 0, 0, 0]
    && m.queue == [] && m.reading == None && m.delivered == []
  }

  predicate Possible(m: Mirror, a: Action)
  {
    match a
    case Begin(_) => m.queued == |m.told|
    case Write => m.queued < |m.told| && m.written < FIELDS
    case Queue => m.queued < |m.told| && m.written == FIELDS
    case Take => m.reading == None && m.queue != []
    case Read(f) => m.reading.Some? && f < FIELDS && f !in m.reading.value.read
    case Hand => m.reading.Some? && forall f | 0 <= f < FIELDS :: f in m.reading.value.read
  }

  function Act(m: Mirror, a: Action): Mirror
    requires |m.version| == FIELDS && Possible(m, a)
  {
    match a
    case Begin(t) => m.(told := m.told + [t], written := 0)
    case Write =>
      m.(
      cache := SetField(m.cache, m.written, ToLe(m.told[|m.told| - 1])),
      version := m.version[m.written := |m.told|],
      written := m.written + 1)
    case Queue => m.(queue := m.queue + [|m.told|], queued := |m.told|)
    case Take => m.(queue := m.queue[1..], reading := Some(Delivery(m.queue[0], m.cache, map[])))
    case Read(f) =>
      var d := m.reading.value;
      m.(reading := Some(d.(info := SetField(d.info, f, m.cache), read := d.read[f := m.version[f]])))
    case Hand => m.(delivered := m.delivered + [m.reading.value], reading := None)
  }

  // ---- the invariant ----------------------------------------------------------------

  /** Every cached field holds the value of the report whose number it carries; the reporter is
      at most one report ahead of the queue. */
  ghost predicate CacheOk(m: Mirror)
  {
    && |m.version| == FIELDS && m.written <= FIELDS
    && m.queued <= |m.told| <= m.queued + 1
    && (m.queued == |m.told| ==> m.written == FIELDS)
    && (forall f | 0 <= f < FIELDS :: m.version[f] == if f < m.written then |m.told| else m.queued)
    && (forall f | 0 <= f < FIELDS && m.version[f] > 0 :: SameField(m.cache, ToLe(m.told[m.version[f] - 1]), f))
  }

  /** The events taken so far are 1, 2, 3, ... and the queue continues the count. */
  ghost predicate QueueOk(m: Mirror)
  {
    var taken := |m.delivered| + if m.reading.Some? then 1 else 0;
    && taken + |m.queue| == m.queued
    && (forall i | 0 <= i < |m.queue| :: m.queue[i] == taken + 1 + i)
    && (forall i | 0 <= i < |m.delivered| :: m.delivered[i].event == i + 1)
    && (m.reading.Some? ==> m.reading.value.event == taken)
  }

  /** What has been read of field `f` in a delivery: from a report no older than the event, no newer
      than the cache, and with that report's value. */
  ghost predicate ReadOk(m: Mirror, d: Delivery, f: nat)
    requires f < FIELDS && |m.version| == FIELDS && f in d.read
  {
    && 1 <= d.event <= d.read[f] <= m.version[f] <= |m.told|
    && SameField(d.info, ToLe(m.told[d.read[f] - 1]), f)
  }

  ghost predicate DeliveriesOk(m: Mirror)
    requires |m.version| == FIELDS
  {
    && (forall i, f | 0 <= i < |m.delivered| && 0 <= f < FIELDS ::
          f in m.delivered[i].read && ReadOk(m, m.delivered[i], f))
    && (m.reading.Some? ==> forall f | 0 <= f < FIELDS && f in m.reading.value.read :: ReadOk(m, m.reading.value, f))
  }

  /** Per field, later deliveries carry the value of the same or a later report. */
  ghost predicate NeverGoesBack(m: Mirror)
    requires |m.version| == FIELDS && DeliveriesOk(m)
  {
    && (forall i, j, f | 0 <= i < j < |m.delivered| && 0 <= f < FIELDS ::
          m.delivered[i].read[f] <= m.delivered[j].read[f])
    && (m.reading.Some? ==> forall i, f | 0 <= i < |m.delivered| && 0 <= f < FIELDS && f in m.reading.value.read ::
          m.delivered[i].read[f] <= m.reading.value.read[f])
  }

  ghost predicate Inv(m: Mirror)
  {
    CacheOk(m) && QueueOk(m) && DeliveriesOk(m) && NeverGoesBack(m)
  }

  lemma SetFieldAt(cache: LeInfo, f: nat, from: LeInfo, g: nat)
    requires f < FIELDS && g < FIELDS
    ensures SameField(SetField(cache, f, from), if f == g then from else cache, g)
  {
  }

  lemma CacheKept(m: Mirror, a: Action)
    requires Inv(m) && Possible(m, a)
    ensures CacheOk(Act(m, a))
  {
    var n := Act(m, a);
    if a.Write? {
      forall f | 0 <= f < FIELDS && n.version[f] > 0
        ensures SameField(n.cache, ToLe(n.told[n.version[f] - 1]), f)
      {
        SetFieldAt(m.cache, m.written, ToLe(m.told[|m.told| - 1]), f);
        SameFieldTrans(n.cache, if f == m.written then ToLe(m.told[|m.told| - 1]) else m.cache,
                       ToLe(n.told[n.version[f] - 1]), f);
      }
    }
  }

  lemma SameFieldTrans(a: LeInfo, b: LeInfo, c: LeInfo, f: nat)
    requires f < FIELDS && SameField(a, b, f)
    ensures SameField(b, c, f) ==> SameField(a, c, f)
    ensures SameField(b, b, f)
  {
  }

  lemma QueueKept(m: Mirror, a: Action)
    requires Inv(m) && Possible(m, a)
    ensures QueueOk(Act(m, a))
  {
  }

  lemma ReadKept(m: Mirror, a: Action, d: Delivery, f: nat)
    requires Inv(m) && Possible(m, a) && f < FIELDS && f in d.read && ReadOk(m, d, f)
    ensures ReadOk(Act(m, a), d, f)
  {
  }

  /** Reading a field takes over its value and its version. */
  lemma ReadNow(m: Mirror, f: nat)
    requires Inv(m) && Possible(m, Read(f))
    ensures var n := Act(m, Read(f));
            forall g | 0 <= g < FIELDS && g in n.reading.value.read :: ReadOk(n, n.reading.value, g)
  {
    var d := m.reading.value;
    var n := Act(m, Read(f));
    var e := n.reading.value;
    forall g | 0 <= g < FIELDS && g in e.read
      ensures ReadOk(n, e, g)
    {
      SetFieldAt(d.info, f, m.cache, g);
      var from := if f == g then m.cache else d.info;
      SameFieldTrans(e.info, from, ToLe(m.told[e.read[g] - 1]), g);
    }
  }

  lemma DeliveriesKept(m: Mirror, a: Action)
    requires Inv(m) && Possible(m, a)
    ensures |Act(m, a).version| == FIELDS && DeliveriesOk(Act(m, a))
  {
    var n := Act(m, a);
    forall i, f | 0 <= i < |m.delivered| && 0 <= f < FIELDS
      ensures ReadOk(n, m.delivered[i], f)
    {
      ReadKept(m, a, m.delivered[i], f);
    }
    if a.Read? {
      ReadNow(m, a.field);
    } else if m.reading.Some? {
      forall f | 0 <= f < FIELDS && f in m.reading.value.read ensures ReadOk(n, m.reading.value, f) {
        ReadKept(m, a, m.reading.value, f);
      }
    }
  }

  lemma InvKept(m: Mirror, a: Action)
    requires Inv(m) && Possible(m, a)
    ensures Inv(Act(m, a))
  {
    CacheKept(m, a);
    QueueKept(m, a);
    DeliveriesKept(m, a);
    if a.Read? {
      var n := Act(m, a);
      forall i, f | 0 <= i < |n.delivered| && 0 <= f < FIELDS && f in n.reading.value.read
        ensures n.delivered[i].read[f] <= n.reading.value.read[f]
      {
        assert ReadOk(m, m.delivered[i], f);
      }
    }
  }

  // ---- whole runs -----------------------------------------------------------------------

  /** `m` can be reached from a start by some interleaving. */
  ghost predicate Reaches(start: Mirror, actions: seq<Action>, m: Mirror)
  {
    if actions == [] then m == start
    else
      var init, last := actions[..|actions| - 1], actions[|actions| - 1];
      exists before ::
        && Reaches(start, init, before)
        && |before.version| == FIELDS && Possible(before, last)
        && m == Act(before, last)
  }

  lemma {:induction false} ReachableInv(start: Mirror, actions: seq<Action>, m: Mirror)
    requires Start(start) && Reaches(start, actions, m)
    ensures Inv(m)
  {
    if actions != [] {
      var init, last := actions[..|actions| - 1], actions[|actions| - 1];
      var before :| Reaches(start, init, before) && |before.version| == FIELDS
                    && Possible(before, last) && m == Act(before, last);
      ReachableInv(start, init, before);
      InvKept(before, last);
    }
  }

  /** In every interleaving the i-th delivery is of event i, and each of its fields has the
      value of some report numbered i or later; per field these numbers never decrease. */
  lemma DeliveriesAreRecent(start: Mirror, actions: seq<Action>, m: Mirror, i: nat, f: nat)
    requires Start(start) && Reaches(start, actions, m)
    requires i < |m.delivered| && f < FIELDS
    ensures var d := m.delivered[i];
            && d.event == i + 1
            && f in d.read && d.event <= d.read[f] <= |m.told|
            && SameField(d.info, ToLe(m.told[d.read[f] - 1]), f)
            && forall j | i < j < |m.delivered| :: f in m.delivered[j].read && d.read[f] <= m.delivered[j].read[f]
  {
    ReachableInv(start, actions, m);
    assert ReadOk(m, m.delivered[i], f);
  }

  /** No report in progress, nothing queued, nothing being delivered. */
  predicate AtRest(m: Mirror)
  {
    m.queued == |m.told| && m.queue == [] && m.reading == None
  }

  /** Whenever everything is at rest, as many deliveries as reports have been made and the last
      tuple delivered is the translation of the last broadcast, however torn earlier ones were. */
  lemma Convergence(start: Mirror, actions: seq<Action>, m: Mirror)
    requires Start(start) && Reaches(start, actions, m)
    requires AtRest(m) && m.told != []
    ensures |m.delivered| == |m.told|
    ensures m.delivered[|m.delivered| - 1].info == ToLe(m.told[|m.told| - 1])
    ensures m.cache == ToLe(m.told[|m.told| - 1])
  {
    ReachableInv(start, actions, m);
    var n := |m.told|;
    var d := m.delivered[n - 1];
    var last := ToLe(m.told[n - 1]);
    forall f | 0 <= f < FIELDS ensures SameField(d.info, last, f) {
      assert ReadOk(m, d, f);
      assert m.version[f] == n;
    }
    AllFields(d.info, last);
    CacheWhole(m);
  }

  lemma AllFields(a: LeInfo, b: LeInfo)
    requires forall f | 0 <= f < FIELDS :: SameField(a, b, f)
    ensures a == b
  {
    assert SameField(a, b, 0) && SameField(a, b, 1) && SameField(a, b, 2) && SameField(a, b, 3) && SameField(a, b, 4);
  }

  /** While no report is half written the cache is the translation of the one last written. */
  lemma CacheWhole(m: Mirror)
    requires CacheOk(m) && (m.written == 0 || m.written == FIELDS) && m.version[0] > 0
    ensures m.version[0] <= |m.told| && m.cache == ToLe(m.told[m.version[0] - 1])
  {
    var last := ToLe(m.told[m.version[0] - 1]);
    forall f | 0 <= f < FIELDS ensures SameField(m.cache, last, f) {
      assert m.version[f] == m.version[0];
    }
    AllFields(m.cache, last);
  }

  // ---- when a delivery is whole -----------------------------------------------------------

  /** All five fields were read while report `n` was the last to have written them. */
  ghost predicate OneReport(d: Delivery, n: nat)
  {
    forall f | 0 <= f < FIELDS :: f in d.read && d.read[f] == n
  }

  /** The tuple was broadcast. */
  ghost predicate WasTold(m: Mirror, info: LeInfo)
  {
    exists t :: t in m.told && info == ToLe(t)
  }

  /** A delivery read from one report hands over that report's tuple. */
  lemma OneReportIsWhole(start: Mirror, actions: seq<Action>, m: Mirror, i: nat, n: nat)
    requires Start(start) && Reaches(start, actions, m)
    requires i < |m.delivered| && OneReport(m.delivered[i], n)
    ensures 1 <= n <= |m.told| && m.delivered[i].info == ToLe(m.told[n - 1])
  {
    var d := m.delivered[i];
    DeliveriesAreRecent(start, actions, m, i, 0);
    var whole := ToLe(m.told[n - 1]);
    forall f | 0 <= f < FIELDS ensures SameField(d.info, whole, f) {
      DeliveriesAreRecent(start, actions, m, i, f);
    }
    AllFields(d.info, whole);
  }

  predicate SameMove(a: Action, b: Action)
  {
    a == b || (a.Begin? && b.Begin?)
  }

  /** The same interleaving, perhaps of other broadcasts. */
  predicate SameSchedule(xs: seq<Action>, ys: seq<Action>)
  {
    |xs| == |ys| && forall i | 0 <= i < |xs| :: SameMove(xs[i], ys[i])
  }

  predicate SameReads(d: Delivery, e: Delivery)
  {
    d.event == e.event && d.read == e.read
  }

  /** All but the values. */
  ghost predicate SameShape(m: Mirror, n: Mirror)
  {
    && |m.told| == |n.told| && m.written == n.written && m.queued == n.queued
    && m.version == n.version && m.queue == n.queue
    && (m.reading.Some? <==> n.reading.Some?)
    && (m.reading.Some? ==> SameReads(m.reading.value, n.reading.value))
    && |m.delivered| == |n.delivered|
    && forall i | 0 <= i < |m.delivered| :: SameReads(m.delivered[i], n.delivered[i])
  }

  lemma ShapeKept(m: Mirror, a: Action, n: Mirror, b: Action)
    requires |m.version| == FIELDS && SameShape(m, n) && SameMove(a, b) && Possible(m, a)
    ensures Possible(n, b) && SameShape(Act(m, a), Act(n, b))
  {
  }

  /** What was read from which report depends on the interleaving alone. */
  lemma {:induction false} ScheduleShapes(
    start: Mirror, xs: seq<Action>, m: Mirror, ys: seq<Action>, n: Mirror)
    requires SameSchedule(xs, ys) && Reaches(start, xs, m) && Reaches(start, ys, n)
    ensures SameShape(m, n)
  {
    if xs != [] {
      var last := |xs| - 1;
      var m' :| Reaches(start, xs[..last], m') && |m'.version| == FIELDS
                && Possible(m', xs[last]) && m == Act(m', xs[last]);
      var n' :| Reaches(start, ys[..last], n') && |n'.version| == FIELDS
                && Possible(n', ys[last]) && n == Act(n', ys[last]);
      ScheduleShapes(start, xs[..last], m', ys[..last], n');
      ShapeKept(m', xs[last], n', ys[last]);
    }
  }

  const CALM := Snapshot(On, Info(WakeUnknown, CanOff, BatteryOk, VtmNormal))
  const ALARM := Snapshot(LcState.BackupBattery, Info(WakeCan, CanOn, BatteryNok, VtmOvertemp))

  /** Calm up to report `cut`, alarm from then on. */
  function Pick(k: nat, cut: nat): Snapshot
  {
    if k < cut then CALM else ALARM
  }

  ghost predicate Picked(told: seq<Snapshot>, cut: nat)
  {
    forall k | 0 <= k < |told| :: told[k] == Pick(k, cut)
  }

  lemma TwinMove(m: Mirror, a: Action, n: Mirror, cut: nat) returns (b: Action)
    requires |m.version| == FIELDS && SameShape(m, n) && Possible(m, a) && Picked(n.told, cut)
    ensures SameMove(a, b) && Possible(n, b)
    ensures SameShape(Act(m, a), Act(n, b)) && Picked(Act(n, b).told, cut)
  {
    b := if a.Begin? then Begin(Pick(|n.told|, cut)) else a;
    ShapeKept(m, a, n, b);
  }

  /** The same interleaving with `cut` calm broadcasts and then alarms only. */
  lemma {:induction false} Twin(start: Mirror, xs: seq<Action>, m: Mirror, cut: nat)
    returns (ys: seq<Action>, n: Mirror)
    requires start.told == [] && Reaches(start, xs, m)
    ensures SameSchedule(xs, ys) && Reaches(start, ys, n) && SameShape(m, n) && Picked(n.told, cut)
  {
    if xs == [] {
      return [], start;
    }
    var init, last := xs[..|xs| - 1], xs[|xs| - 1];
    var before :| Reaches(start, init, before) && |before.version| == FIELDS
                  && Possible(before, last) && m == Act(before, last);
    ys, n := Twin(start, init, before, cut);
    var move := TwinMove(before, last, n, cut);
    n, ys := Continue(start, ys, n, move);
  }

  /** Calm and alarm differ in every field. */
  lemma CalmIsNotAlarm(info: LeInfo, f: nat, g: nat)
    requires f < FIELDS && g < FIELDS
    requires SameField(info, ToLe(CALM), f) && SameField(info, ToLe(ALARM), g)
    ensures info != ToLe(CALM) && info != ToLe(ALARM)
  {
  }

  /** A delivery read from two reports hands over a tuple that was never broadcast, for some values
      broadcast in the same interleaving. */
  lemma TwoReportsTear(start: Mirror, xs: seq<Action>, m: Mirror, i: nat, f: nat, g: nat)
    returns (ys: seq<Action>, n: Mirror)
    requires Start(start) && Reaches(start, xs, m) && i < |m.delivered| && f < FIELDS && g < FIELDS
    requires f in m.delivered[i].read && g in m.delivered[i].read
    requires m.delivered[i].read[f] < m.delivered[i].read[g]
    ensures SameSchedule(xs, ys) && Reaches(start, ys, n)
    ensures i < |n.delivered| && !WasTold(n, n.delivered[i].info)
  {
    var cut := m.delivered[i].read[f];
    ys, n := Twin(start, xs, m, cut);
    assert SameReads(m.delivered[i], n.delivered[i]);
    DeliveriesAreRecent(start, ys, n, i, f);
    DeliveriesAreRecent(start, ys, n, i, g);
    CalmIsNotAlarm(n.delivered[i].info, f, g);
    assert forall t | t in n.told :: t == CALM || t == ALARM;
  }

  /** In this interleaving the i-th delivery hands over a broadcast tuple whatever is broadcast. */
  ghost predicate AlwaysWhole(start: Mirror, xs: seq<Action>, i: nat)
  {
    forall ys, n | SameSchedule(xs, ys) && Reaches(start, ys, n) ::
      i < |n.delivered| && WasTold(n, n.delivered[i].info)
  }

  lemma ReadsDiffer(start: Mirror, actions: seq<Action>, m: Mirror, i: nat) returns (f: nat, g: nat)
    requires Start(start) && Reaches(start, actions, m) && i < |m.delivered|
    requires !exists n :: OneReport(m.delivered[i], n)
    ensures f < FIELDS && g < FIELDS && f in m.delivered[i].read && g in m.delivered[i].read
    ensures m.delivered[i].read[f] < m.delivered[i].read[g]
  {
    var d := m.delivered[i];
    forall h | 0 <= h < FIELDS ensures h in d.read {
      DeliveriesAreRecent(start, actions, m, i, h);
    }
    assert !OneReport(d, d.read[0]);
    var h: nat :| h < FIELDS && d.read[h] != d.read[0];
    f, g := if d.read[h] < d.read[0] then h else 0, if d.read[h] < d.read[0] then 0 else h;
  }

  /** A delivery hands over a broadcast tuple, whatever is broadcast, if and only if its five reads
      come from one report. */
  lemma WholeIffOneReport(start: Mirror, actions: seq<Action>, m: Mirror, i: nat)
    requires Start(start) && Reaches(start, actions, m) && i < |m.delivered|
    ensures AlwaysWhole(start, actions, i) <==> exists n :: OneReport(m.delivered[i], n)
  {
    if n :| OneReport(m.delivered[i], n) {
      forall ys, t | SameSchedule(actions, ys) && Reaches(start, ys, t)
        ensures i < |t.delivered| && WasTold(t, t.delivered[i].info)
      {
        ScheduleShapes(start, actions, m, ys, t);
        assert SameReads(m.delivered[i], t.delivered[i]) && OneReport(t.delivered[i], n);
        OneReportIsWhole(start, ys, t, i, n);
      }
    } else {
      var f, g := ReadsDiffer(start, actions, m, i);
      var ys, t := TwoReportsTear(start, actions, m, i, f, g);
    }
  }

  /** No field is written from the taking of the event to the last read; `between` is what is done
      meanwhile. */
  ghost predicate Quiet(m: Mirror, between: seq<Action>)
  {
    && Possible(m, Take) && (m.written == 0 || m.written == FIELDS)
    && forall a | a in between :: !a.Write? && !a.Hand?
  }

  /** All that has been read since `m` is what the cache held there. */
  ghost predicate ReadsCacheOf(m: Mirror, n: Mirror)
    requires |m.version| == FIELDS
  {
    && n.version == m.version && n.cache == m.cache && n.delivered == m.delivered
    && n.reading.Some?
    && var d := n.reading.value;
    forall f | 0 <= f < FIELDS && f in d.read :: d.read[f] == m.version[f] && SameField(d.info, m.cache, f)
  }

  lemma QuietStep(m: Mirror, n: Mirror, a: Action)
    requires |m.version| == FIELDS && ReadsCacheOf(m, n) && Possible(n, a) && !a.Write? && !a.Hand?
    ensures ReadsCacheOf(m, Act(n, a))
  {
    if a.Read? {
      var d, e := n.reading.value, Act(n, a).reading.value;
      forall f | 0 <= f < FIELDS && f in e.read
        ensures e.read[f] == m.version[f] && SameField(e.info, m.cache, f)
      {
        SetFieldAt(d.info, a.field, n.cache, f);
        SameFieldTrans(e.info, if f == a.field then n.cache else d.info, m.cache, f);
        SameFieldTrans(m.cache, m.cache, m.cache, f);
      }
    }
  }

  lemma {:induction false} QuietReads(m: Mirror, between: seq<Action>, n: Mirror)
    requires |m.version| == FIELDS && Quiet(m, between) && Reaches(m, [Take] + between, n)
    ensures ReadsCacheOf(m, n)
  {
    var all := [Take] + between;
    var init, last := all[..|between|], all[|between|];
    var before :| Reaches(m, init, before) && |before.version| == FIELDS && Possible(before, last) && n == Act(before, last);
    if between != [] {
      assert init == [Take] + between[..|between| - 1];
      QuietReads(m, between[..|between| - 1], before);
      QuietStep(m, before, last);
    }
  }

  /** If the event is taken while no report is half written, and no field is written until the
      hand-over, the delivery is read from one report: the tuple handed over is that of the report
      last written, which is in the cache. */
  lemma QuietDeliveryIsWhole(start: Mirror, actions: seq<Action>, m: Mirror, between: seq<Action>, n: Mirror)
    requires Start(start) && Reaches(start, actions, m)
    requires |m.version| == FIELDS && Quiet(m, between) && Reaches(m, [Take] + between + [Hand], n)
    ensures |n.delivered| == |m.delivered| + 1
    ensures var d, last := n.delivered[|m.delivered|], m.version[0];
            OneReport(d, last) && 1 <= last <= |m.told| && d.info == m.cache == ToLe(m.told[last - 1])
  {
    ReachableInv(start, actions, m);
    var all := [Take] + between + [Hand];
    assert all[..|all| - 1] == [Take] + between;
    var before :| Reaches(m, [Take] + between, before) && |before.version| == FIELDS
                  && Possible(before, Hand) && n == Act(before, Hand);
    QuietReads(m, between, before);
    AllFields(before.reading.value.info, m.cache);
    assert m.version[0] >= m.queued > 0;
    CacheWhole(m);
  }

  // ---- a torn delivery, step by step ------------------------------------------------------

  /** The reporter writes the fields it has not written yet, without interruption. */
  lemma {:induction false} WriteRest(start: Mirror, actions: seq<Action>, m: Mirror)
    returns (more: seq<Action>, n: Mirror)
    requires Reaches(start, actions, m) && Inv(m) && m.queued < |m.told|
    ensures Reaches(start, more, n) && Inv(n)
    ensures n == m.(written := FIELDS, cache := n.cache, version := n.version)
    decreases FIELDS - m.written
  {
    more, n := actions, m;
    if m.written < FIELDS {
      InvKept(m, Write);
      n, more := Continue(start, actions, m, Write);
      more, n := WriteRest(start, more, n);
    }
  }

  /** The handler's fields from `f` on are read, without interruption. */
  lemma {:induction false} ReadRest(start: Mirror, actions: seq<Action>, m: Mirror, f: nat)
    returns (more: seq<Action>, n: Mirror)
    requires Reaches(start, actions, m) && |m.version| == FIELDS
    requires f <= FIELDS && m.reading.Some? && forall g :: g in m.reading.value.read <==> 0 <= g < f
    requires m.reading.value.info == m.cache
    ensures Reaches(start, more, n)
    ensures n == m.(reading := n.reading) && n.reading.Some? && n.reading.value.info == m.cache
    ensures forall g | 0 <= g < FIELDS :: g in n.reading.value.read
    decreases FIELDS - f
  {
    more, n := actions, m;
    if f < FIELDS {
      n, more := Continue(start, actions, m, Read(f));
      more, n := ReadRest(start, more, n, f + 1);
    }
  }

  /** A whole report without interruption. */
  lemma ReportCalm(start: Mirror) returns (actions: seq<Action>, m: Mirror)
    requires Start(start)
    ensures Reaches(start, actions, m) && Inv(m)
    ensures m.told == [CALM] && m.queued == 1 && m.queue == [1] && m.reading == None && m.delivered == []
    ensures m.cache == ToLe(CALM)
  {
    InvKept(start, Begin(CALM));
    m, actions := Continue(start, [], start, Begin(CALM));
    actions, m := WriteRest(start, actions, m);
    InvKept(m, Queue);
    m, actions := Continue(start, actions, m, Queue);
    CacheWhole(m);
  }

  /** One delivery without interruption. */
  lemma DeliverNow(start: Mirror, actions: seq<Action>, m: Mirror) returns (more: seq<Action>, n: Mirror)
    requires Reaches(start, actions, m) && |m.version| == FIELDS
    requires m.reading == None && m.queue != []
    ensures Reaches(start, more, n)
    ensures n.told == m.told && |n.delivered| == |m.delivered| + 1
    ensures n.delivered[|m.delivered|].info == m.cache
  {
    n, more := Continue(start, actions, m, Take);
    more, n := ReadRest(start, more, n, 0);
    n, more := Continue(start, more, n, Hand);
  }

  lemma TornTuple(cache: LeInfo)
    requires cache == SetField(ToLe(CALM), 0, ToLe(ALARM))
    ensures cache != ToLe(CALM) && cache != ToLe(ALARM)
  {
  }

  /** Between two reports, `CALM` and then `ALARM`, a handler can be given the new state together
      with the old battery status, a tuple that was never broadcast. */
  lemma TornDeliveryHappens(start: Mirror) returns (actions: seq<Action>, m: Mirror)
    requires Start(start)
    ensures Reaches(start, actions, m)
    ensures m.told == [CALM, ALARM] && |m.delivered| == 1
    ensures forall t | t in m.told :: m.delivered[0].info != ToLe(t)
  {
    actions, m := ReportCalm(start);
    InvKept(m, Begin(ALARM));
    m, actions := Continue(start, actions, m, Begin(ALARM));
    InvKept(m, Write);
    m, actions := Continue(start, actions, m, Write);
    TornTuple(m.cache);
    actions, m := DeliverNow(start, actions, m);
  }

  lemma Continue(start: Mirror, actions: seq<Action>, m: Mirror, a: Action) returns (n: Mirror, more: seq<Action>)
    requires Reaches(start, actions, m) && |m.version| == FIELDS && Possible(m, a)
    ensures n == Act(m, a) && more == actions + [a]
    ensures Reaches(start, more, n)
  {
    n, more := Act(m, a), actions + [a];
    assert more[..|more| - 1] == actions;
  }
}
