/** Cleaning of client names: the two loops that erase low characters at the back and skip them
    at the front.  The source holds the same pair of loops twice, character for character: in
    LC_UnRegisterClient and in evaluate_RegisterClient. */
module Names {
  import opened LifecycleTypes

  const LOW := 32

  /** Nothing but spaces and control characters: codes up to 32. */
  ghost predicate AllLow(s: Text)
  {
    forall i | 0 <= i < |s| :: s[i] <= 32
  }

  function TrimBack(s: Text): Text
  {
    if s != [] && s[|s| - 1] <= LOW then TrimBack(s[..|s| - 1]) else s
  }

  function TrimFront(s: Text): Text
  {
    if s != [] && s[0] <= LOW then TrimFront(s[1..]) else s
  }

  function Trim(s: Text): Text
  {
    TrimFront(TrimBack(s))
  }

  /** `s` is `front`, then `t`, then the rest; what surrounds `t` is low, and `t` is tight. */
  ghost predicate TrimAt(s: Text, t: Text, front: nat)
  {
    && front + |t| <= |s|
    && s[front..front + |t|] == t
    && AllLow(s[..front])
    && AllLow(s[front + |t|..])
    && (t != [] ==> t[0] > 32 && t[|t| - 1] > 32)
  }

  ghost predicate IsTrimOf(s: Text, t: Text)
  {
    exists front: nat :: TrimAt(s, t, front)
  }

  lemma {:induction false} TrimBackKeepsPrefix(s: Text)
    ensures |TrimBack(s)| <= |s| && s[..|TrimBack(s)|] == TrimBack(s)
    ensures AllLow(s[|TrimBack(s)|..])
    ensures TrimBack(s) != [] ==> TrimBack(s)[|TrimBack(s)| - 1] > LOW
  {
    if s != [] && s[|s| - 1] <= LOW {
      TrimBackKeepsPrefix(s[..|s| - 1]);
    }
  }

  lemma {:induction false} TrimFrontKeepsSuffix(s: Text)
    ensures |TrimFront(s)| <= |s| && s[|s| - |TrimFront(s)|..] == TrimFront(s)
    ensures AllLow(s[..|s| - |TrimFront(s)|])
    ensures TrimFront(s) != [] ==> TrimFront(s)[0] > LOW
  {
    if s != [] && s[0] <= LOW {
      TrimFrontKeepsSuffix(s[1..]);
      assert s == [s[0]] + s[1..];
    }
  }

  lemma TrimIsTrim(s: Text)
    ensures IsTrimOf(s, Trim(s))
  {
    var b := TrimBack(s);
    TrimBackKeepsPrefix(s);
    TrimFrontKeepsSuffix(b);
    assert TrimAt(s, Trim(s), |b| - |Trim(s)|);
  }

  lemma TrimsAgree(s: Text, t: Text, u: Text, front: nat, front': nat)
    requires TrimAt(s, t, front) && TrimAt(s, u, front')
    ensures |t| <= |u|
    ensures t != [] && u != [] ==> front' <= front && front + |t| <= front' + |u|
  {
    if t != [] {
      assert s[front] == t[0] && s[front + |t| - 1] == t[|t| - 1];
    }
  }

  /** The trim of a name is unique, and `Trim` computes it. */
  lemma TrimCharacterised(s: Text, t: Text)
    ensures IsTrimOf(s, t) <==> t == Trim(s)
  {
    TrimIsTrim(s);
    if IsTrimOf(s, t) {
      var f: nat :| TrimAt(s, t, f);
      var g: nat :| TrimAt(s, Trim(s), g);
      TrimsAgree(s, t, Trim(s), f, g);
      TrimsAgree(s, Trim(s), t, g, f);
    }
  }

  lemma TrimIdempotent(s: Text)
    ensures Trim(Trim(s)) == Trim(s)
  {
    TrimIsTrim(s);
    var f: nat :| TrimAt(s, Trim(s), f);
    assert TrimAt(Trim(s), Trim(s), 0);
    TrimCharacterised(Trim(s), Trim(s));
  }

  /** A name that is already clean is exactly one that starts and ends above the low range. */
  lemma TrimFixedPoint(s: Text)
    ensures Trim(s) == s <==> (s == [] || (s[0] > 32 && s[|s| - 1] > 32))
  {
    TrimIsTrim(s);
    if s == [] || (s[0] > LOW && s[|s| - 1] > LOW) {
      assert TrimAt(s, s, 0);
      TrimCharacterised(s, s);
    }
  }

  /** The pair of loops, on a string that is erased in place. */
  method CleanName(raw: Text) returns (name: Text)
    ensures name == Trim(raw)
  {
    var text := raw;
    var cnt := |text| - 1;
    while cnt > -1
      invariant -1 <= cnt == |text| - 1
      invariant text <= raw
      invariant AllLow(raw[|text|..])
    {
      if text[cnt] <= LOW {
        text := text[..cnt] + text[cnt + 1..];
      } else {
        break;
      }
      cnt := cnt - 1;
    }

    name := [];
    cnt := 0;
    ghost var front := |text|;
    while cnt < |text|
      invariant 0 <= cnt <= |text|
      invariant AllLow(text[..cnt])
      invariant name == [] && front == |text|
    {
      if text[cnt] > LOW {
        name := text[cnt..];
        front := cnt;
        break;
      }
      cnt := cnt + 1;
    }
    assert raw[..|text|] == text;
    assert raw[front..front + |name|] == name;
    assert TrimAt(raw, name, front);
    TrimCharacterised(raw, name);
  }
}
