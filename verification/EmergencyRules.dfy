/** What an emergency request means, stated without passes or order: which single client may be
    granted it, and what a granted request does to each record. */
module EmergencyRules {
  import opened LifecycleTypes
  import opened Registry

  /** `c` is the requester and the request is permitted in this state. */
  predicate Grants(c: Client, requester: Text, request: LcState, state: LcState)
  {
    c.name == requester &&
    match request
    case On => c.eCall || c.eCallLaw || c.testMode
    case Emergency => state.On? || state.Emergency?
    case EmergencyLaw =>
      || state.On? || state.Emergency?
      || (requester == LEGISLATIVE_CLIENT && (state.StayAliveServices? || state.EmergencyLawLp?))
    case TestMode => state.On? || state.Maintenance?
    case EmergencyLawLp => state.EmergencyLaw? && requester == LEGISLATIVE_CLIENT
    case _ => false
  }

  predicate Granted(cs: seq<Client>, requester: Text, request: LcState, state: LcState)
  {
    exists c :: c in cs && Grants(c, requester, request, state)
  }

  /** A granted legislative call ends every ordinary call. */
  predicate TakesOver(cs: seq<Client>, requester: Text, request: LcState, state: LcState)
  {
    request.EmergencyLaw? && Granted(cs, requester, request, state)
  }

  /** The flags of one record after the request. */
  function Settled(c: Client, takeover: bool, requester: Text, request: LcState, state: LcState): Client
  {
    var mine := Grants(c, requester, request, state);
    c.(
    eCall := !takeover && (c.eCall || (mine && request.Emergency?)) && !(mine && request.On?),
    eCallLaw := (c.eCallLaw || (mine && request.EmergencyLaw?)) && !(mine && request.On? && !c.eCall),
    testMode := (c.testMode || (mine && request.TestMode?)) && !(mine && request.On? && !c.eCall && !c.eCallLaw)
    )
  }

  /** `f` applied to every record, in place. */
  function Each(f: Client -> Client, cs: seq<Client>): (r: seq<Client>)
    ensures |r| == |cs|
    ensures forall i | 0 <= i < |cs| :: r[i] == f(cs[i])
  {
    seq(|cs|, i requires 0 <= i < |cs| => f(cs[i]))
  }

  function Settle(cs: seq<Client>, requester: Text, request: LcState, state: LcState): (r: seq<Client>)
    ensures |r| == |cs|
    ensures forall i | 0 <= i < |cs| :: r[i].name == cs[i].name && r[i].lcState == cs[i].lcState
                                        && r[i].stayActive == cs[i].stayActive
  {
    var takeover := TakesOver(cs, requester, request, state);
    Each(c => Settled(c, takeover, requester, request, state), cs)
  }

  /** The reply: granted requests become OK, all others leave the caller's status as it was. */
  function EmergencyStatus(
    cs: seq<Client>, requester: Text, request: LcState, state: LcState, incoming: LcStatus): LcStatus
  {
    if Granted(cs, requester, request, state) then StsOk else incoming
  }

  // ---- map-level definition -------------------------------------------------

  /** The registry as a map; a name stands for its first record, the one a search finds. */
  function ToMap(cs: seq<Client>): map<Text, Client>
  {
    if cs == [] then map[] else ToMap(cs[1..])[cs[0].name := cs[0]]
  }

  lemma {:induction false} ToMapAt(cs: seq<Client>, name: Text)
    ensures var i := IndexOf(cs, name);
            && (name in ToMap(cs) <==> i < |cs|)
            && (i < |cs| ==> ToMap(cs)[name] == cs[i])
  {
    if cs != [] {
      ToMapAt(cs[1..], name);
    }
  }

  predicate GrantedOnMap(m: map<Text, Client>, requester: Text, request: LcState, state: LcState)
  {
    requester in m && Grants(m[requester], requester, request, state)
  }

  function EachOnMap(f: Client -> Client, m: map<Text, Client>): map<Text, Client>
  {
    map n | n in m :: f(m[n])
  }

  function SettleOnMap(m: map<Text, Client>, requester: Text, request: LcState, state: LcState): map<Text, Client>
  {
    var takeover := request.EmergencyLaw? && GrantedOnMap(m, requester, request, state);
    EachOnMap(c => Settled(c, takeover, requester, request, state), m)
  }

  lemma EachRefinesMap(f: Client -> Client, cs: seq<Client>)
    requires forall c :: f(c).name == c.name
    ensures ToMap(Each(f, cs)) == EachOnMap(f, ToMap(cs))
  {
    var m, r := ToMap(cs), Each(f, cs);
    var m' := ToMap(r);
    forall n ensures (n in m' <==> n in m) && (n in m ==> m'[n] == f(m[n])) {
      ToMapAt(cs, n);
      ToMapAt(r, n);
      var i := IndexOf(cs, n);
      assert forall j | 0 <= j < |cs| :: r[j].name == cs[j].name;
      assert IndexOf(r, n) == i;
    }
  }

  lemma GrantedRefinesMap(cs: seq<Client>, requester: Text, request: LcState, state: LcState)
    requires Distinct(cs)
    ensures Granted(cs, requester, request, state) <==> GrantedOnMap(ToMap(cs), requester, request, state)
  {
    ToMapAt(cs, requester);
    var i := IndexOf(cs, requester);
    if Granted(cs, requester, request, state) {
      var k :| 0 <= k < |cs| && Grants(cs[k], requester, request, state);
      assert k == i;
    }
    if GrantedOnMap(ToMap(cs), requester, request, state) {
      assert cs[i] in cs;
    }
  }

  /** Under distinct names the pass over the sequence is the pass over the map. */
  lemma SettleRefinesMap(cs: seq<Client>, requester: Text, request: LcState, state: LcState)
    requires Distinct(cs)
    ensures Granted(cs, requester, request, state) <==> GrantedOnMap(ToMap(cs), requester, request, state)
    ensures ToMap(Settle(cs, requester, request, state)) == SettleOnMap(ToMap(cs), requester, request, state)
  {
    GrantedRefinesMap(cs, requester, request, state);
    var takeover := TakesOver(cs, requester, request, state);
    EachRefinesMap(c => Settled(c, takeover, requester, request, state), cs);
  }

  // ---- order independence ---------------------------------------------------

  lemma {:induction false} EachPermutes(f: Client -> Client, cs: seq<Client>, ds: seq<Client>)
    requires multiset(cs) == multiset(ds)
    ensures multiset(Each(f, cs)) == multiset(Each(f, ds))
    decreases |cs|
  {
    if cs == [] {
      assert |ds| == |multiset(ds)| == 0;
    } else {
      assert cs[0] in multiset(ds);
      var j :| 0 <= j < |ds| && ds[j] == cs[0];
      var before, after := ds[..j], ds[j + 1..];
      RemoveOne(cs, ds, j);
      EachPermutes(f, cs[1..], before + after);
      assert Each(f, cs) == [f(cs[0])] + Each(f, cs[1..]);
      assert Each(f, before + after) == Each(f, before) + Each(f, after);
      assert Each(f, ds) == Each(f, before) + [f(ds[j])] + Each(f, after);
    }
  }

  lemma RemoveOne(cs: seq<Client>, ds: seq<Client>, j: nat)
    requires cs != [] && j < |ds| && ds[j] == cs[0]
    requires multiset(cs) == multiset(ds)
    ensures multiset(cs[1..]) == multiset(ds[..j] + ds[j + 1..])
  {
    assert cs == [cs[0]] + cs[1..];
    assert ds == ds[..j] + [ds[j]] + ds[j + 1..];
    var rest := ds[..j] + ds[j + 1..];
    assert multiset(ds) == multiset(ds[..j]) + multiset{ds[j]} + multiset(ds[j + 1..]);
    assert multiset(ds) == multiset{cs[0]} + multiset(rest);
    assert multiset(cs) == multiset{cs[0]} + multiset(cs[1..]);
    assert multiset(cs[1..]) == multiset(cs) - multiset{cs[0]};
    assert multiset(rest) == multiset(ds) - multiset{cs[0]};
  }

  lemma GrantedPermutes(cs: seq<Client>, ds: seq<Client>, requester: Text, request: LcState, state: LcState)
    requires multiset(cs) == multiset(ds)
    ensures Granted(cs, requester, request, state) ==> Granted(ds, requester, request, state)
  {
    if Granted(cs, requester, request, state) {
      var c :| c in cs && Grants(c, requester, request, state);
      assert c in multiset(ds);
      assert c in ds;
    }
  }

  /** Permuting any registry, with or without repeated names, only permutes the outcome. */
  lemma SettlePermutes(cs: seq<Client>, ds: seq<Client>, requester: Text, request: LcState, state: LcState)
    requires multiset(cs) == multiset(ds)
    ensures Granted(cs, requester, request, state) == Granted(ds, requester, request, state)
    ensures multiset(Settle(cs, requester, request, state)) == multiset(Settle(ds, requester, request, state))
  {
    GrantedPermutes(cs, ds, requester, request, state);
    GrantedPermutes(ds, cs, requester, request, state);
    var takeover := TakesOver(cs, requester, request, state);
    EachPermutes(c => Settled(c, takeover, requester, request, state), cs, ds);
  }

  // ---- leaving an emergency -------------------------------------------------

  function Flags(c: Client): nat
  {
    (if c.eCall then 1 else 0) + (if c.eCallLaw then 1 else 0) + (if c.testMode then 1 else 0)
  }

  function FlagTotal(cs: seq<Client>): nat
  {
    if cs == [] then 0 else Flags(cs[0]) + FlagTotal(cs[1..])
  }

  function OwnFlags(cs: seq<Client>, name: Text): nat
  {
    var i := IndexOf(cs, name);
    if i < |cs| then Flags(cs[i]) else 0
  }

  lemma {:induction false} FlagTotalUpdate(cs: seq<Client>, i: nat, c: Client)
    requires i < |cs|
    ensures FlagTotal(cs[i := c]) == FlagTotal(cs) - Flags(cs[i]) + Flags(c)
  {
    if i == 0 {
      assert cs[0 := c][1..] == cs[1..];
    } else {
      assert cs[i := c][1..] == cs[1..][i - 1 := c];
      FlagTotalUpdate(cs[1..], i - 1, c);
    }
  }

  function DropFirstFlag(c: Client): Client
  {
    if c.eCall then c.(eCall := false)
    else if c.eCallLaw then c.(eCallLaw := false)
    else c.(testMode := false)
  }

  lemma ExitGranted(cs: seq<Client>, requester: Text, state: LcState)
    requires Distinct(cs)
    ensures Granted(cs, requester, On, state) <==> OwnFlags(cs, requester) > 0
  {
    var i := IndexOf(cs, requester);
    if Granted(cs, requester, On, state) {
      var k :| 0 <= k < |cs| && Grants(cs[k], requester, On, state);
      assert k == i;
    }
    if OwnFlags(cs, requester) > 0 {
      assert cs[i] in cs && Grants(cs[i], requester, On, state);
    }
  }

  lemma ExitSettlesOne(c: Client, requester: Text, state: LcState)
    ensures Settled(c, false, requester, On, state)
            == if c.name == requester && Flags(c) > 0 then DropFirstFlag(c) else c
  {
  }

  lemma ExitSettles(cs: seq<Client>, requester: Text, state: LcState)
    requires Distinct(cs)
    ensures var i := IndexOf(cs, requester);
            Settle(cs, requester, On, state)
            == if OwnFlags(cs, requester) > 0 then cs[i := DropFirstFlag(cs[i])] else cs
  {
    var i := IndexOf(cs, requester);
    var r := Settle(cs, requester, On, state);
    forall k | 0 <= k < |cs|
      ensures r[k] == if k == i && Flags(cs[i]) > 0 then DropFirstFlag(cs[i]) else cs[k]
    {
      ExitSettlesOne(cs[k], requester, state);
      assert cs[k].name == requester ==> k == i;
    }
  }

  /** A NAD_ON request is granted exactly when the requester has a flag set; it then clears the
      first of eCall, eCallLaw, testMode that is set, on the requester alone. */
  lemma ExitLowersFlags(cs: seq<Client>, requester: Text, state: LcState)
    requires Distinct(cs)
    ensures Granted(cs, requester, On, state) <==> OwnFlags(cs, requester) > 0
    ensures !Granted(cs, requester, On, state) ==> Settle(cs, requester, On, state) == cs
    ensures Granted(cs, requester, On, state) ==>
              && Settle(cs, requester, On, state)
                 == cs[IndexOf(cs, requester) := DropFirstFlag(cs[IndexOf(cs, requester)])]
              && FlagTotal(Settle(cs, requester, On, state)) == FlagTotal(cs) - 1
              && OwnFlags(Settle(cs, requester, On, state), requester) == OwnFlags(cs, requester) - 1
  {
    ExitGranted(cs, requester, state);
    ExitSettles(cs, requester, state);
    if OwnFlags(cs, requester) > 0 {
      var i := IndexOf(cs, requester);
      var r := Settle(cs, requester, On, state);
      FlagTotalUpdate(cs, i, DropFirstFlag(cs[i]));
      assert r[i].name == requester && r[i] in r;
      assert IndexOf(r, requester) == i;
    }
  }

  /** The registry after `k` NAD_ON requests of one client in a row, and how many were granted. */
  function AfterExits(cs: seq<Client>, requester: Text, state: LcState, k: nat): seq<Client>
  {
    if k == 0 then cs else Settle(AfterExits(cs, requester, state, k - 1), requester, On, state)
  }

  function ExitsGranted(cs: seq<Client>, requester: Text, state: LcState, k: nat): nat
  {
    if k == 0 then 0
    else
      ExitsGranted(cs, requester, state, k - 1)
      + if Granted(AfterExits(cs, requester, state, k - 1), requester, On, state) then 1 else 0
  }

  /** Same names in the same places, and only `name`'s record may differ. */
  ghost predicate OnlyOwnChanged(cs: seq<Client>, ds: seq<Client>, name: Text)
  {
    && |cs| == |ds|
    && forall i | 0 <= i < |cs| :: ds[i].name == cs[i].name && (cs[i].name != name ==> ds[i] == cs[i])
  }

  lemma ExitChangesOwnOnly(cs: seq<Client>, requester: Text, state: LcState)
    requires Distinct(cs)
    ensures OnlyOwnChanged(cs, Settle(cs, requester, On, state), requester)
    ensures Distinct(Settle(cs, requester, On, state))
  {
    ExitSettles(cs, requester, state);
  }

  /** Where `k` exit requests lead: as many granted as the client had flags, and no more. */
  ghost predicate ExitProgress(cs: seq<Client>, after: seq<Client>, granted: nat, name: Text, k: nat)
  {
    && OnlyOwnChanged(cs, after, name)
    && granted == (if k <= OwnFlags(cs, name) then k else OwnFlags(cs, name))
    && granted <= 3
    && OwnFlags(after, name) == OwnFlags(cs, name) - granted
    && FlagTotal(after) == FlagTotal(cs) - granted
  }

  lemma ExitStep(cs: seq<Client>, before: seq<Client>, granted: nat, name: Text, state: LcState, k: nat)
    requires Distinct(cs) && ExitProgress(cs, before, granted, name, k)
    ensures var more := if Granted(before, name, On, state) then 1 else 0;
            ExitProgress(cs, Settle(before, name, On, state), granted + more, name, k + 1)
  {
    assert Distinct(before);
    ExitLowersFlags(before, name, state);
    ExitChangesOwnOnly(before, name, state);
    assert OwnFlags(cs, name) <= 3;
  }

  lemma NoExit(cs: seq<Client>, name: Text)
    ensures ExitProgress(cs, cs, 0, name, 0)
  {
  }

  /** Of any number of consecutive exit requests exactly as many are granted as the client has
      flags, hence at most three, and every other record is untouched. */
  lemma {:induction false} ExitsAreBounded(cs: seq<Client>, requester: Text, state: LcState, k: nat)
    requires Distinct(cs)
    ensures ExitProgress(cs, AfterExits(cs, requester, state, k), ExitsGranted(cs, requester, state, k), requester, k)
  {
    var granted := ExitsGranted(cs, requester, state, k);
    if k == 0 {
      NoExit(cs, requester);
    } else {
      var before, earlier := AfterExits(cs, requester, state, k - 1), ExitsGranted(cs, requester, state, k - 1);
      ExitsAreBounded(cs, requester, state, k - 1);
      ExitStep(cs, before, earlier, requester, state, k - 1);
      assert granted == earlier + if Granted(before, requester, On, state) then 1 else 0;
    }
  }

  // ---- emergency calls, test mode, and requests that are none ----------------

  /** An EMERGENCY request is accepted exactly for a registered name in ON or EMERGENCY; it then
      marks the requester's record with eCall and touches nothing else. */
  lemma EmergencyCallMarks(cs: seq<Client>, requester: Text, state: LcState, incoming: LcStatus)
    ensures var accepted := Has(cs, requester) && (state.On? || state.Emergency?);
            && EmergencyStatus(cs, requester, Emergency, state, incoming) == (if accepted then StsOk else incoming)
            && var r := Settle(cs, requester, Emergency, state);
            forall i | 0 <= i < |cs| ::
              r[i] == if accepted && cs[i].name == requester then cs[i].(eCall := true) else cs[i]
  {
    GrantedToName(cs, requester, Emergency, state, state.On? || state.Emergency?);
    assert forall i | 0 <= i < |cs| :: cs[i] in cs;
  }

  /** A TEST_MODE request is accepted exactly for a registered name in ON or MAINTENANCE; it then
      marks the requester's record with testMode and touches nothing else. */
  lemma TestModeMarks(cs: seq<Client>, requester: Text, state: LcState, incoming: LcStatus)
    ensures var accepted := Has(cs, requester) && (state.On? || state.Maintenance?);
            && EmergencyStatus(cs, requester, TestMode, state, incoming) == (if accepted then StsOk else incoming)
            && var r := Settle(cs, requester, TestMode, state);
            forall i | 0 <= i < |cs| ::
              r[i] == if accepted && cs[i].name == requester then cs[i].(testMode := true) else cs[i]
  {
    GrantedToName(cs, requester, TestMode, state, state.On? || state.Maintenance?);
    assert forall i | 0 <= i < |cs| :: cs[i] in cs;
  }

  /** A low-power request is accepted exactly for the registered legislative client in
      EMERGENCY_LAW, and a request for any state but the five never; neither changes a record. */
  lemma OtherRequestsMarkNothing(
    cs: seq<Client>, requester: Text, request: LcState, state: LcState, incoming: LcStatus)
    requires !request.On? && !request.Emergency? && !request.EmergencyLaw? && !request.TestMode?
    ensures EmergencyStatus(cs, requester, request, state, incoming)
            == if && request.EmergencyLawLp? && state.EmergencyLaw?
                  && requester == LEGISLATIVE_CLIENT && Has(cs, requester)
               then StsOk else incoming
    ensures Settle(cs, requester, request, state) == cs
  {
    GrantedToName(cs, requester, request, state,
                  request.EmergencyLawLp? && state.EmergencyLaw? && requester == LEGISLATIVE_CLIENT);
    UnmarkedStay(cs, requester, request, state);
  }

  lemma UnmarkedStay(cs: seq<Client>, requester: Text, request: LcState, state: LcState)
    requires !request.On? && !request.Emergency? && !request.EmergencyLaw? && !request.TestMode?
    ensures Settle(cs, requester, request, state) == cs
  {
    var r := Settle(cs, requester, request, state);
    forall i | 0 <= i < |cs| ensures r[i] == cs[i] {
      SettledUnmarked(cs[i], requester, request, state);
    }
  }

  lemma SettledUnmarked(c: Client, requester: Text, request: LcState, state: LcState)
    requires !request.On? && !request.Emergency? && !request.EmergencyLaw? && !request.TestMode?
    ensures Settled(c, false, requester, request, state) == c
  {
  }

  /** A permission that does not look at the record is granted when the name is registered. */
  lemma GrantedToName(cs: seq<Client>, requester: Text, request: LcState, state: LcState, permitted: bool)
    requires forall c :: Grants(c, requester, request, state) <==> c.name == requester && permitted
    ensures Granted(cs, requester, request, state) <==> Has(cs, requester) && permitted
  {
    if permitted && Has(cs, requester) {
      var c :| c in cs && c.name == requester;
      assert Grants(c, requester, request, state);
    }
  }

  // ---- the legislative call -------------------------------------------------

  lemma LegislativeCallTakesOver(cs: seq<Client>, requester: Text, state: LcState)
    ensures Granted(cs, requester, EmergencyLaw, state) <==>
              && Has(cs, requester)
              && (|| state.On? || state.Emergency?
                  || (requester == LEGISLATIVE_CLIENT && (state.StayAliveServices? || state.EmergencyLawLp?)))
    ensures var r := Settle(cs, requester, EmergencyLaw, state);
            if Granted(cs, requester, EmergencyLaw, state) then
              forall i | 0 <= i < |cs| ::
                r[i] == cs[i].(eCall := false, eCallLaw := cs[i].eCallLaw || cs[i].name == requester)
            else r == cs
  {
    var r := Settle(cs, requester, EmergencyLaw, state);
    if Granted(cs, requester, EmergencyLaw, state) {
      var c :| c in cs && Grants(c, requester, EmergencyLaw, state);
    } else {
      assert forall i | 0 <= i < |cs| :: cs[i] in cs && r[i] == cs[i];
    }
    if Has(cs, requester) {
      var c :| c in cs && c.name == requester;
      assert Grants(c, requester, EmergencyLaw, state) ==> Granted(cs, requester, EmergencyLaw, state);
    }
  }
}
