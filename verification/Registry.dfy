/** The client registry `m_clients`: a sequence of records searched from the front by name. */
module Registry {
  import opened LifecycleTypes
  import opened Names

  predicate Has(cs: seq<Client>, name: Text)
  {
    exists c :: c in cs && c.name == name
  }

  ghost predicate Distinct(cs: seq<Client>)
  {
    forall i, j | 0 <= i < j < |cs| :: cs[i].name != cs[j].name
  }

  /** What every reachable registry satisfies. */
  ghost predicate WellFormed(cs: seq<Client>)
  {
    && Distinct(cs)
    && forall c | c in cs :: c.name != [] && Trim(c.name) == c.name
  }

  /** Position of the first record with this name, or the length if there is none. */
  function IndexOf(cs: seq<Client>, name: Text): (i: nat)
    ensures i <= |cs|
    ensures i < |cs| ==> cs[i].name == name
    ensures forall j | 0 <= j < i :: cs[j].name != name
    ensures i < |cs| <==> Has(cs, name)
  {
    if cs == [] then 0
    else if cs[0].name == name then assert cs[0] in cs; 0
    else
      assert forall c :: c in cs <==> c == cs[0] || c in cs[1..];
      1 + IndexOf(cs[1..], name)
  }

  function NewClient(name: Text, state: LcState): Client
  {
    Client(name, state, LcRelease, false, false, false)
  }

  /** Registration of the already cleaned `name`; `incoming` is the status the caller passed in. */
  function Registered(cs: seq<Client>, name: Text, state: LcState, incoming: LcStatus): seq<Client>
  {
    if name == [] || Has(cs, name) || incoming.StsAlreadyRegistered? then cs
    else cs + [NewClient(name, state)]
  }

  function RegisterStatus(cs: seq<Client>, name: Text, incoming: LcStatus): LcStatus
  {
    if name == [] then incoming
    else if Has(cs, name) || incoming.StsAlreadyRegistered? then StsAlreadyRegistered
    else StsOk
  }

  function Unregistered(cs: seq<Client>, name: Text): seq<Client>
  {
    var i := IndexOf(cs, name);
    if i < |cs| then cs[..i] + cs[i + 1..] else cs
  }

  /** LC_UnRegisterClient returns before it replies when the name is blank. */
  function UnregisterReply(cs: seq<Client>, name: Text): Option<LcStatus>
  {
    if name == [] then None else Some(if Has(cs, name) then StsOk else StsNotOk)
  }

  function WithStayActive(cs: seq<Client>, name: Text, kind: StayActiveKind): seq<Client>
  {
    var i := IndexOf(cs, name);
    if i < |cs| then cs[i := cs[i].(stayActive := kind)] else cs
  }

  lemma RegisteredNames(cs: seq<Client>, name: Text, state: LcState, incoming: LcStatus)
    requires WellFormed(cs) && Trim(name) == name
    ensures WellFormed(Registered(cs, name, state, incoming))
    ensures forall n :: Has(Registered(cs, name, state, incoming), n) <==>
              Has(cs, n) || (n == name && name != [] && !incoming.StsAlreadyRegistered?)
  {
    var cs' := Registered(cs, name, state, incoming);
    if cs' != cs {
      var added := NewClient(name, state);
      assert forall c :: c in cs' <==> c in cs || c == added;
      assert added in cs';
    }
  }

  lemma UnregisteredNames(cs: seq<Client>, name: Text)
    requires WellFormed(cs)
    ensures WellFormed(Unregistered(cs, name))
    ensures forall c :: c in Unregistered(cs, name) <==> c in cs && c.name != name
    ensures forall n :: Has(Unregistered(cs, name), n) <==> Has(cs, n) && n != name
  {
    var i := IndexOf(cs, name);
    var cs' := Unregistered(cs, name);
    forall c ensures c in cs' <==> c in cs && c.name != name {
      if c in cs && c.name != name {
        var k :| 0 <= k < |cs| && cs[k] == c;
        if k < i { assert cs'[k] == c; } else if i < |cs| { assert cs'[k - 1] == c; }
      }
    }
  }

  /** Registering a fresh name and unregistering any string with the same trim restores the
      registry exactly. */
  lemma RegisterUnregisterRoundTrip(cs: seq<Client>, raw: Text, again: Text, state: LcState, incoming: LcStatus)
    requires Trim(raw) != [] && !Has(cs, Trim(raw)) && !incoming.StsAlreadyRegistered?
    requires Trim(again) == Trim(raw)
    ensures Unregistered(Registered(cs, Trim(raw), state, incoming), Trim(again)) == cs
  {
    var name := Trim(raw);
    var cs' := Registered(cs, name, state, incoming);
    assert cs' == cs + [NewClient(name, state)] && cs'[|cs|] in cs';
    assert forall j | 0 <= j < |cs| :: cs[j] in cs;
    assert IndexOf(cs', name) == |cs|;
  }

  /** Unregistering removes exactly one record and keeps the order and contents of the rest. */
  lemma UnregisterRemovesOne(cs: seq<Client>, raw: Text)
    requires WellFormed(cs) && Has(cs, Trim(raw))
    ensures exists before: seq<Client>, gone: Client, after: seq<Client> {:trigger before + [gone] + after} ::
              && cs == before + [gone] + after
              && gone.name == Trim(raw)
              && Unregistered(cs, Trim(raw)) == before + after
              && !Has(before + after, Trim(raw))
  {
    var i := IndexOf(cs, Trim(raw));
    assert cs == cs[..i] + [cs[i]] + cs[i + 1..];
    UnregisteredNames(cs, Trim(raw));
  }

  lemma StayActiveNames(cs: seq<Client>, name: Text, kind: StayActiveKind)
    requires WellFormed(cs)
    ensures WellFormed(WithStayActive(cs, name, kind))
    ensures forall n :: Has(WithStayActive(cs, name, kind), n) <==> Has(cs, n)
  {
    var cs' := WithStayActive(cs, name, kind);
    assert |cs'| == |cs| && forall i | 0 <= i < |cs| :: cs'[i].name == cs[i].name;
    SameNames(cs, cs');
  }

  /** Two registries of the same length with the same names in the same places. */
  lemma SameNames(cs: seq<Client>, ds: seq<Client>)
    requires |cs| == |ds| && forall i | 0 <= i < |cs| :: ds[i].name == cs[i].name
    ensures forall n :: Has(ds, n) <==> Has(cs, n)
    ensures WellFormed(cs) ==> WellFormed(ds)
  {
    forall n ensures Has(ds, n) <==> Has(cs, n) {
      if Has(ds, n) { var i :| 0 <= i < |ds| && ds[i].name == n; assert cs[i] in cs; }
      if Has(cs, n) { var i :| 0 <= i < |cs| && cs[i].name == n; assert ds[i] in ds; }
    }
    if WellFormed(cs) {
      forall c | c in ds ensures c.name != [] && Trim(c.name) == c.name {
        var i :| 0 <= i < |ds| && ds[i] == c;
        assert cs[i] in cs;
      }
    }
  }

  /** No record of a well-formed registry carries a name that still has low ends. */
  lemma UntrimmedNameIsAbsent(cs: seq<Client>, name: Text)
    requires WellFormed(cs) && Trim(name) != name
    ensures !Has(cs, name)
  {
  }
}
