/** The netlink side of the controller: messages from the kernel are classified by prefix, the
    reason persists from message to message, and each message is handled. */
module Controller {
  import opened LifecycleTypes
  import opened Manager
  import opened Server
  import opened Broadcasts
  import opened Provenance

  const PAYLOAD := 25        // MAX_PAYLOAD + 1

  datatype WakeupReason = Sms | PowerKey | ModemSpurious | Rtc | Mqtt

  function Code(reason: WakeupReason): int
  {
    match reason
    case Sms => SOCKET_SMS
    case PowerKey => SOCKET_POWERKEY
    case ModemSpurious => SOCKET_MODEM_SPURIOUS
    case Rtc => SOCKET_RTC
    case Mqtt => SOCKET_MQTT
  }

  // ---- strncmp ----------------------------------------------------------------------

  /** Character `i` of a C string literal: its text, then NUL. */
  function LiteralAt(lit: string, i: nat): int
  {
    if i < |lit| then lit[i] as int else 0
  }

  /** strncmp(buf, lit, n) == 0, from character `i` on: it stops at a difference, after `n`
      characters, or at a NUL in both. */
  predicate EqualFrom(buf: Text, lit: string, n: nat, i: nat)
    requires n <= |buf|
    decreases n - i
  {
    if i >= n then true
    else if buf[i] != LiteralAt(lit, i) then false
    else if buf[i] == 0 then true
    else EqualFrom(buf, lit, n, i + 1)
  }

  predicate StrncmpIsZero(buf: Text, lit: string, n: nat)
    requires n <= |buf|
  {
    EqualFrom(buf, lit, n, 0)
  }

  predicate HasPrefix(buf: Text, lit: string)
  {
    |lit| <= |buf| && forall i | 0 <= i < |lit| :: buf[i] == lit[i] as int
  }

  lemma {:induction false} EqualFromIsPrefix(buf: Text, lit: string, i: nat)
    requires |lit| <= |buf| && i <= |lit|
    requires forall j | 0 <= j < |lit| :: lit[j] != '\0'
    ensures EqualFrom(buf, lit, |lit|, i) <==> forall j | i <= j < |lit| :: buf[j] == lit[j] as int
    decreases |lit| - i
  {
    if i < |lit| {
      assert LiteralAt(lit, i) == lit[i] as int != 0;
      EqualFromIsPrefix(buf, lit, i + 1);
    }
  }

  // ---- classification -----------------------------------------------------------------

  const PREFIXES := 10

  function Prefix(i: nat): string
    requires i < PREFIXES
  {
    match i
    case 0 => "glink_qmi"
    case 1 => "efs_qmi"
    case 2 => "NON_TCP"
    case 3 => "OTHERS"
    case 4 => "ABNORMAL"
    case 5 => "unknown"
    case 6 => "sms"
    case 7 => "tcp"
    case 8 => "rtc"
    case _ => "gp98"
  }

  function ReasonOf(i: nat): WakeupReason
    requires i < PREFIXES
  {
    match i
    case 6 => Sms
    case 7 => Mqtt
    case 8 => Rtc
    case 9 => PowerKey
    case _ => ModemSpurious
  }

  ghost predicate Recognised(buf: Text, reason: WakeupReason)
  {
    exists i: nat :: i < PREFIXES && HasPrefix(buf, Prefix(i)) && ReasonOf(i) == reason
  }

  /** No buffer starts with two of the ten prefixes. */
  lemma PrefixesExclude(buf: Text, i: nat, j: nat)
    requires i < PREFIXES && j < PREFIXES && i != j
    ensures !(HasPrefix(buf, Prefix(i)) && HasPrefix(buf, Prefix(j)))
  {
    var p, q := Prefix(i), Prefix(j);
    assert |p| > 1 && |q| > 1;
    assert p[0] != q[0] || p[1] != q[1];
  }

  /** The first prefix of `order` that matches. */
  function FirstMatch(buf: Text, order: seq<nat>): Option<WakeupReason>
    requires forall k | 0 <= k < |order| :: order[k] < PREFIXES
  {
    if order == [] then None
    else if HasPrefix(buf, Prefix(order[0])) then Some(ReasonOf(order[0]))
    else FirstMatch(buf, order[1..])
  }

  lemma {:induction false} FirstMatchRecognises(buf: Text, order: seq<nat>)
    requires forall k | 0 <= k < |order| :: order[k] < PREFIXES
    ensures match FirstMatch(buf, order)
            case Some(r) =>
              exists k :: 0 <= k < |order| && HasPrefix(buf, Prefix(order[k])) && ReasonOf(order[k]) == r
            case None => forall k | 0 <= k < |order| :: !HasPrefix(buf, Prefix(order[k]))
  {
    if order != [] {
      if !HasPrefix(buf, Prefix(order[0])) {
        FirstMatchRecognises(buf, order[1..]);
        assert forall k | 1 <= k < |order| :: order[k] == order[1..][k - 1];
      }
    }
  }

  /** `order` contains all ten prefixes and nothing else. */
  ghost predicate Complete(order: seq<nat>)
  {
    && (forall k | 0 <= k < |order| :: order[k] < PREFIXES)
    && (forall i: nat | i < PREFIXES :: i in order)
  }

  /** A buffer that starts with prefix `i` is classified by it, whatever is tested first. */
  lemma MatchDecides(buf: Text, order: seq<nat>, i: nat)
    requires Complete(order) && i < PREFIXES && HasPrefix(buf, Prefix(i))
    ensures FirstMatch(buf, order) == Some(ReasonOf(i))
  {
    FirstMatchRecognises(buf, order);
    assert i in order;
    var k :| 0 <= k < |order| && HasPrefix(buf, Prefix(order[k]))
             && FirstMatch(buf, order) == Some(ReasonOf(order[k]));
    if order[k] != i {
      PrefixesExclude(buf, order[k], i);
    }
  }

  lemma NoMatchDecides(buf: Text, order: seq<nat>)
    requires Complete(order) && forall i: nat | i < PREFIXES :: !HasPrefix(buf, Prefix(i))
    ensures FirstMatch(buf, order) == None
  {
    FirstMatchRecognises(buf, order);
  }

  /** The order of the tests does not matter: any two orders of the ten tests classify every buffer
      alike, and the class is the only reason the buffer can be recognised as. */
  lemma TestOrderIrrelevant(buf: Text, order: seq<nat>, order': seq<nat>)
    requires Complete(order) && Complete(order')
    ensures FirstMatch(buf, order) == FirstMatch(buf, order')
    ensures forall r :: Recognised(buf, r) <==> FirstMatch(buf, order) == Some(r)
  {
    if i: nat :| i < PREFIXES && HasPrefix(buf, Prefix(i)) {
      MatchDecides(buf, order, i);
      MatchDecides(buf, order', i);
      forall r | Recognised(buf, r) ensures FirstMatch(buf, order) == Some(r) {
        var j: nat :| j < PREFIXES && HasPrefix(buf, Prefix(j)) && ReasonOf(j) == r;
        MatchDecides(buf, order, j);
      }
    } else {
      NoMatchDecides(buf, order);
      NoMatchDecides(buf, order');
    }
  }

  const SOURCE_ORDER: seq<nat> := [0, 1, 2, 3, 4, 5, 6, 7, 8, 9]

  lemma SourceOrderComplete()
    ensures Complete(SOURCE_ORDER)
  {
    forall i: nat | i < PREFIXES ensures i in SOURCE_ORDER {
      assert SOURCE_ORDER[i] == i;
    }
  }

  /** The class of a buffer, with the tests in the order of the source. */
  function Class(buf: Text): Option<WakeupReason>
  {
    FirstMatch(buf, SOURCE_ORDER)
  }

  lemma StrncmpIsPrefix(buf: Text, i: nat)
    requires |buf| == PAYLOAD && i < PREFIXES
    ensures |Prefix(i)| <= PAYLOAD
    ensures StrncmpIsZero(buf, Prefix(i), |Prefix(i)|) <==> HasPrefix(buf, Prefix(i))
  {
    var lit := Prefix(i);
    assert forall j | 0 <= j < |lit| :: lit[j] != '\0';
    EqualFromIsPrefix(buf, lit, 0);
  }

  // ---- the history of the loop -----------------------------------------------------------

  /** A message from the kernel, and whether the proxy is available when it is handled. */
  datatype Message = Message(data: Text, available: bool)

  /** The cleared buffer after a message has been received into it. */
  function Received(data: Text): (buf: Text)
    ensures |buf| == PAYLOAD
  {
    seq(PAYLOAD, i requires 0 <= i < PAYLOAD => if i < |data| then data[i] else 0)
  }

  function ClassOf(m: Message): Option<WakeupReason>
  {
    Class(Received(m.data))
  }

  /** `reason` is the class of the latest recognised message, or `initial` if there is none. */
  ghost predicate LatestReason(messages: seq<Message>, initial: WakeupReason, reason: WakeupReason)
  {
    || (reason == initial && forall k | 0 <= k < |messages| :: ClassOf(messages[k]) == None)
    || exists k ::
      && 0 <= k < |messages| && ClassOf(messages[k]) == Some(reason)
      && forall j | k < j < |messages| :: ClassOf(messages[j]) == None
  }

  /** Every message was handled with the class of the latest recognised message so far. */
  ghost predicate HandledRight(messages: seq<Message>, initial: WakeupReason, handled: seq<WakeupReason>)
  {
    && |handled| == |messages|
    && forall n | 0 <= n < |messages| :: LatestReason(messages[..n + 1], initial, handled[n])
  }

  lemma LatestStep(messages: seq<Message>, m: Message, initial: WakeupReason, reason: WakeupReason)
    requires LatestReason(messages, initial, reason)
    ensures LatestReason(messages + [m], initial, if ClassOf(m).Some? then ClassOf(m).value else reason)
  {
    var all := messages + [m];
    if ClassOf(m).Some? {
      assert ClassOf(all[|messages|]) == ClassOf(m);
    } else if k :| 0 <= k < |messages| && ClassOf(messages[k]) == Some(reason)
                   && forall j | k < j < |messages| :: ClassOf(messages[j]) == None {
      assert ClassOf(all[k]) == Some(reason);
    }
  }

  /** From the first recognised message on, the reason handled does not depend on the
      uninitialised start value. */
  lemma InitialForgotten(messages: seq<Message>, initial: WakeupReason, other: WakeupReason,
                         reason: WakeupReason, reason': WakeupReason)
    requires LatestReason(messages, initial, reason) && LatestReason(messages, other, reason')
    requires exists k :: 0 <= k < |messages| && ClassOf(messages[k]).Some?
    ensures reason == reason'
  {
    var k :| 0 <= k < |messages| && ClassOf(messages[k]) == Some(reason)
             && forall j | k < j < |messages| :: ClassOf(messages[j]) == None;
    var k' :| 0 <= k' < |messages| && ClassOf(messages[k']) == Some(reason')
              && forall j | k' < j < |messages| :: ClassOf(messages[j]) == None;
    assert !(k < k') && !(k' < k);
  }

  /** The wakeup event a reason is reported with, if it is reported. */
  function EventFor(reason: WakeupReason): Option<SocWakeup>
  {
    match reason
    case Sms => Some(SocSms)
    case ModemSpurious => Some(SocSpurious)
    case Mqtt => Some(SocMqtt)
    case Rtc => None
    case PowerKey => None
  }

  function HandlerOutputs(reason: WakeupReason, available: bool): seq<Output>
  {
    [Waited(4)] + if available && EventFor(reason).Some? then [WakeupSent(EventFor(reason).value)] else []
  }

  function LoopOutputs(messages: seq<Message>, handled: seq<WakeupReason>): seq<Output>
    requires |handled| == |messages|
  {
    if messages == [] then []
    else
      var n := |messages| - 1;
      LoopOutputs(messages[..n], handled[..n]) + HandlerOutputs(handled[n], messages[n].available)
  }

  const WAKEUP_SENT: Output -> Option<SocWakeup> := (o: Output) => if o.WakeupSent? then Some(o.reason) else None

  /** The positions of the messages that are reported, in order. */
  function Reported(messages: seq<Message>, handled: seq<WakeupReason>): seq<nat>
    requires |handled| == |messages|
  {
    if messages == [] then []
    else
      var n := |messages| - 1;
      Reported(messages[..n], handled[..n])
      + if messages[n].available && EventFor(handled[n]).Some? then [n] else []
  }

  lemma HandlerSends(reason: WakeupReason, available: bool)
    ensures Collect(WAKEUP_SENT, HandlerOutputs(reason, available))
            == if available && EventFor(reason).Some? then [EventFor(reason).value] else []
  {
    CollectOne(WAKEUP_SENT, Waited(4));
    if available && EventFor(reason).Some? {
      var sent := WakeupSent(EventFor(reason).value);
      CollectOne(WAKEUP_SENT, sent);
      CollectSplit(WAKEUP_SENT, [Waited(4)], [sent]);
    }
  }

  /** `sent` are, one to one and in order, the events of the messages at positions `at`; these are
      the messages handled as SMS, spurious or MQTT while the proxy was available. */
  ghost predicate EventsOf(messages: seq<Message>, handled: seq<WakeupReason>, sent: seq<SocWakeup>, at: seq<nat>)
  {
    && |handled| == |messages| && |sent| == |at|
    && (forall k | 0 <= k < |at| ::
          at[k] < |messages| && messages[at[k]].available && EventFor(handled[at[k]]) == Some(sent[k]))
    && (forall k, l | 0 <= k < l < |at| :: at[k] < at[l])
    && (forall n | 0 <= n < |messages| && messages[n].available && EventFor(handled[n]).Some? :: n in at)
  }

  lemma EventsOfSnoc(messages: seq<Message>, handled: seq<WakeupReason>, sent: seq<SocWakeup>, at: seq<nat>,
                     m: Message, reason: WakeupReason)
    requires EventsOf(messages, handled, sent, at)
    ensures var more := m.available && EventFor(reason).Some?;
            EventsOf(messages + [m], handled + [reason],
                     sent + if more then [EventFor(reason).value] else [],
                     at + if more then [|messages|] else [])
  {
  }

  /** The wakeup events sent while the loop handles the messages. */
  function SentIn(messages: seq<Message>, handled: seq<WakeupReason>): seq<SocWakeup>
    requires |handled| == |messages|
  {
    Collect(WAKEUP_SENT, LoopOutputs(messages, handled))
  }

  lemma SentSnoc(messages: seq<Message>, handled: seq<WakeupReason>, m: Message, reason: WakeupReason)
    requires |handled| == |messages|
    ensures var more := m.available && EventFor(reason).Some?;
            && SentIn(messages + [m], handled + [reason])
               == SentIn(messages, handled) + (if more then [EventFor(reason).value] else [])
            && Reported(messages + [m], handled + [reason])
               == Reported(messages, handled) + if more then [|messages|] else []
  {
    assert (messages + [m])[..|messages|] == messages && (handled + [reason])[..|messages|] == handled;
    HandlerSends(reason, m.available);
    CollectSplit(WAKEUP_SENT, LoopOutputs(messages, handled), HandlerOutputs(reason, m.available));
  }

  lemma {:induction false} EventsMatchMessages(messages: seq<Message>, handled: seq<WakeupReason>)
    requires |handled| == |messages|
    ensures EventsOf(messages, handled, SentIn(messages, handled), Reported(messages, handled))
  {
    if messages != [] {
      var n := |messages| - 1;
      var init, done, m, reason := messages[..n], handled[..n], messages[n], handled[n];
      assert messages == init + [m] && handled == done + [reason];
      EventsMatchMessages(init, done);
      SentSnoc(init, done, m, reason);
      EventsOfSnoc(init, done, SentIn(init, done), Reported(init, done), m, reason);
    }
  }

  // ---- what the messages mean, in the texts of the kernel ------------------------------------

  /** One of the six texts of a spurious modem wakeup. */
  predicate FromModem(data: Text)
  {
    || HasPrefix(data, "glink_qmi") || HasPrefix(data, "efs_qmi") || HasPrefix(data, "NON_TCP")
    || HasPrefix(data, "OTHERS") || HasPrefix(data, "ABNORMAL") || HasPrefix(data, "unknown")
  }

  /** The message starts with a text that stands for this reason. */
  predicate Signals(data: Text, reason: WakeupReason)
  {
    match reason
    case Sms => HasPrefix(data, "sms")
    case Mqtt => HasPrefix(data, "tcp")
    case Rtc => HasPrefix(data, "rtc")
    case PowerKey => HasPrefix(data, "gp98")
    case ModemSpurious => FromModem(data)
  }

  /** The message starts with one of the ten texts. */
  predicate Known(data: Text)
  {
    || FromModem(data) || HasPrefix(data, "sms") || HasPrefix(data, "tcp") || HasPrefix(data, "rtc")
    || HasPrefix(data, "gp98")
  }

  /** The event a message that starts so is reported with, if it is. */
  function Report(data: Text): Option<SocWakeup>
  {
    if HasPrefix(data, "sms") then Some(SocSms)
    else if HasPrefix(data, "tcp") then Some(SocMqtt)
    else if FromModem(data) then Some(SocSpurious)
    else None
  }

  /** Receiving cuts and pads a message, but not within a prefix. */
  lemma ReceivedPrefix(data: Text, i: nat)
    requires i < PREFIXES
    ensures HasPrefix(Received(data), Prefix(i)) <==> HasPrefix(data, Prefix(i))
  {
    var lit, buf := Prefix(i), Received(data);
    assert |lit| <= 9 && forall j | 0 <= j < |lit| :: lit[j] != '\0';
    assert |data| < |lit| ==> buf[|data|] == 0;
  }

  lemma ReceivedRecognised(data: Text, reason: WakeupReason)
    ensures Recognised(Received(data), reason) <==> Recognised(data, reason)
  {
    forall i: nat | i < PREFIXES ensures HasPrefix(Received(data), Prefix(i)) <==> HasPrefix(data, Prefix(i)) {
      ReceivedPrefix(data, i);
    }
  }

  lemma SignalsIsRecognised(data: Text, reason: WakeupReason)
    requires Signals(data, reason)
    ensures Recognised(data, reason)
  {
    var i := match reason
      case Sms => 6
      case Mqtt => 7
      case Rtc => 8
      case PowerKey => 9
      case ModemSpurious =>
        if HasPrefix(data, "glink_qmi") then 0
        else if HasPrefix(data, "efs_qmi") then 1
        else if HasPrefix(data, "NON_TCP") then 2
        else if HasPrefix(data, "OTHERS") then 3
        else if HasPrefix(data, "ABNORMAL") then 4
        else 5;
    assert HasPrefix(data, Prefix(i)) && ReasonOf(i) == reason;
  }

  lemma RecognisedIsSignal(data: Text, reason: WakeupReason)
    requires Recognised(data, reason)
    ensures Signals(data, reason)
  {
    var i: nat :| i < PREFIXES && HasPrefix(data, Prefix(i)) && ReasonOf(i) == reason;
  }

  lemma ClassMeans(m: Message, reason: WakeupReason)
    ensures ClassOf(m) == Some(reason) <==> Signals(m.data, reason)
  {
    SourceOrderComplete();
    TestOrderIrrelevant(Received(m.data), SOURCE_ORDER, SOURCE_ORDER);
    ReceivedRecognised(m.data, reason);
    if Signals(m.data, reason) {
      SignalsIsRecognised(m.data, reason);
    } else if Recognised(m.data, reason) {
      RecognisedIsSignal(m.data, reason);
    }
  }

  lemma UnknownMeans(m: Message)
    ensures ClassOf(m) == None <==> !Known(m.data)
  {
    ClassMeans(m, Sms);
    ClassMeans(m, Mqtt);
    ClassMeans(m, Rtc);
    ClassMeans(m, PowerKey);
    ClassMeans(m, ModemSpurious);
    if ClassOf(m).Some? {
      ClassMeans(m, ClassOf(m).value);
    }
  }

  /** Message `k` is the latest up to message `n` that starts with one of the ten texts. */
  ghost predicate LatestKnown(messages: seq<Message>, n: nat, k: nat)
  {
    k <= n < |messages| && Known(messages[k].data) && forall j: nat | k < j <= n :: !Known(messages[j].data)
  }

  /** Each message is handled as the latest known one says. */
  lemma HandledMeans(messages: seq<Message>, initial: WakeupReason, handled: seq<WakeupReason>, n: nat, k: nat)
    requires HandledRight(messages, initial, handled) && LatestKnown(messages, n, k)
    ensures Signals(messages[k].data, handled[n])
  {
    var sofar := messages[..n + 1];
    assert LatestReason(sofar, initial, handled[n]);
    UnknownMeans(messages[k]);
    forall j: nat | k < j < |sofar| ensures ClassOf(sofar[j]) == None {
      UnknownMeans(messages[j]);
    }
    assert ClassOf(sofar[k]) == Some(handled[n]);
    ClassMeans(messages[k], handled[n]);
  }

  /** No message signals two reasons. */
  lemma OneSignal(data: Text, reason: WakeupReason, other: WakeupReason)
    requires Signals(data, reason) && Signals(data, other)
    ensures reason == other
  {
    ClassMeans(Message(data, true), reason);
    ClassMeans(Message(data, true), other);
  }

  lemma ReportMeans(data: Text, reason: WakeupReason)
    requires Signals(data, reason)
    ensures EventFor(reason) == Report(data)
  {
    if HasPrefix(data, "sms") {
      OneSignal(data, reason, Sms);
    } else if HasPrefix(data, "tcp") {
      OneSignal(data, reason, Mqtt);
    } else if FromModem(data) {
      OneSignal(data, reason, ModemSpurious);
    }
  }

  /** After a 4 s wait message `n` is reported while the proxy is available: as SMS if the latest
      known message starts with "sms", as MQTT if with "tcp", as spurious if with one of the six modem
      texts; "rtc" and "gp98" are not reported. */
  lemma MessageOutputs(messages: seq<Message>, initial: WakeupReason, handled: seq<WakeupReason>, n: nat, k: nat)
    requires HandledRight(messages, initial, handled) && LatestKnown(messages, n, k)
    ensures var report := Report(messages[k].data);
            HandlerOutputs(handled[n], messages[n].available)
            == [Waited(4)] + if messages[n].available && report.Some? then [WakeupSent(report.value)] else []
  {
    HandledMeans(messages, initial, handled, n, k);
    ReportMeans(messages[k].data, handled[n]);
  }

  /** The wakeup source after message `n`, in a manager that started in `s`; "rtc" means the one of
      the listening state, and outside LISTEN_1, LISTEN_3 and SHUTDOWN changes nothing. */
  lemma MessageWakes(
    s: Manager, messages: seq<Message>, initial: WakeupReason, handled: seq<WakeupReason>, n: nat, k: nat)
    requires HandledRight(messages, initial, handled) && LatestKnown(messages, n, k)
    ensures var data := messages[k].data;
            var before, now := Run(s, WakeupEvents(handled[..n])), Run(s, WakeupEvents(handled[..n + 1]));
            now == before.(info := before.info.(wake :=
              if HasPrefix(data, "sms") then WakeSms
              else if HasPrefix(data, "tcp") then WakeMqtt
              else if FromModem(data) || HasPrefix(data, "gp98") then WakeUnknown
              else if before.state.Listen1? || before.state.Shutdown? then WakeLm1Rtc
              else if before.state.Listen3? then WakeLm3Rtc
              else before.info.wake))
  {
    var data := messages[k].data;
    HandledMeans(messages, initial, handled, n, k);
    assert handled[..n + 1] == handled[..n] + [handled[n]];
    RunWakeup(s, handled[..n], handled[n]);
    if HasPrefix(data, "sms") {
      OneSignal(data, handled[n], Sms);
    } else if HasPrefix(data, "tcp") {
      OneSignal(data, handled[n], Mqtt);
    } else if FromModem(data) {
      OneSignal(data, handled[n], ModemSpurious);
    } else if HasPrefix(data, "gp98") {
      OneSignal(data, handled[n], PowerKey);
    }
  }

  /** Over any stream the wakeup events sent come, one to one and in order, from the messages during
      which the proxy was available and the latest known text is one that is reported, and each is
      the event of that text. */
  lemma EventsFollowTexts(messages: seq<Message>, initial: WakeupReason, handled: seq<WakeupReason>)
    requires HandledRight(messages, initial, handled)
    ensures var sent, at := SentIn(messages, handled), Reported(messages, handled);
            && |sent| == |at|
            && (forall i, j | 0 <= i < j < |at| :: at[i] < at[j])
            && (forall i, k: nat | 0 <= i < |at| && LatestKnown(messages, at[i], k) ::
                  messages[at[i]].available && Report(messages[k].data) == Some(sent[i]))
            && (forall n: nat, k: nat | LatestKnown(messages, n, k) ::
                  n in at <==> messages[n].available && Report(messages[k].data).Some?)
  {
    EventsMatchMessages(messages, handled);
    forall n: nat, k: nat | LatestKnown(messages, n, k)
      ensures Report(messages[k].data) == EventFor(handled[n])
    {
      HandledMeans(messages, initial, handled, n, k);
      ReportMeans(messages[k].data, handled[n]);
    }
  }

  /** The manager events the handled reasons amount to. */
  function WakeupEvents(handled: seq<WakeupReason>): seq<Event>
  {
    seq(|handled|, i requires 0 <= i < |handled| => SocketWakeup(Code(handled[i])))
  }

  method QlLpmHandler(server: LifecycleServer, reason: WakeupReason, available: bool)
    requires server.Valid()
    modifies server, server.outside
    ensures server.Valid()
    ensures server.View() == StepSocketWakeup(old(server.View()), Code(reason)).next
    ensures server.outside.log == old(server.outside.log) + HandlerOutputs(reason, available)
  {
    server.SetSocketWakeupSource(Code(reason));
    server.outside.Emit(Waited(4));
    match reason {
      case Sms =>
        if available { server.outside.Emit(WakeupSent(SocSms)); }
      case ModemSpurious =>
        if available { server.outside.Emit(WakeupSent(SocSpurious)); }
      case Mqtt =>
        if available { server.outside.Emit(WakeupSent(SocMqtt)); }
      case _ =>
    }
  }

  /** What the tests decide: prefix `i` of the literal, compared over its whole length. */
  lemma TestDecides(buf: Text, i: nat)
    requires |buf| == PAYLOAD && i < PREFIXES
    ensures |Prefix(i)| <= PAYLOAD
    ensures StrncmpIsZero(buf, Prefix(i), |Prefix(i)|) ==> Class(buf) == Some(ReasonOf(i))
    ensures Class(buf).Some? ==> exists j: nat :: j < PREFIXES && StrncmpIsZero(buf, Prefix(j), |Prefix(j)|)
  {
    StrncmpIsPrefix(buf, i);
    SourceOrderComplete();
    if HasPrefix(buf, Prefix(i)) {
      MatchDecides(buf, SOURCE_ORDER, i);
    }
    if j: nat :| j < PREFIXES && HasPrefix(buf, Prefix(j)) {
      StrncmpIsPrefix(buf, j);
    } else {
      NoMatchDecides(buf, SOURCE_ORDER);
    }
  }

  /** The tests of one pass of the receive loop, in their order; an unrecognised message leaves the
      reason as it was. */
  method Classify(buf: array<int>, before: WakeupReason) returns (reason: WakeupReason)
    requires buf.Length == PAYLOAD
    ensures reason == if Class(buf[..]).Some? then Class(buf[..]).value else before
  {
    var b := buf[..];
    forall i: nat | i < PREFIXES
      ensures |Prefix(i)| <= PAYLOAD
      ensures StrncmpIsZero(b, Prefix(i), |Prefix(i)|) ==> Class(b) == Some(ReasonOf(i))
    {
      TestDecides(b, i);
    }
    TestDecides(b, 0);
    reason := before;
    if StrncmpIsZero(b, Prefix(0), 9) || StrncmpIsZero(b, Prefix(1), 7) || StrncmpIsZero(b, Prefix(2), 7)
       || StrncmpIsZero(b, Prefix(3), 6) || StrncmpIsZero(b, Prefix(4), 8) || StrncmpIsZero(b, Prefix(5), 7) {
      reason := ModemSpurious;
    } else if StrncmpIsZero(b, Prefix(6), 3) {
      reason := Sms;
    } else if StrncmpIsZero(b, Prefix(7), 3) {
      reason := Mqtt;
    } else if StrncmpIsZero(b, Prefix(8), 3) {
      reason := Rtc;
    } else if StrncmpIsZero(b, Prefix(9), 4) {
      reason := PowerKey;
    }
  }

  /** Clear the buffer, then receive a message into it. */
  method Receive(buf: array<int>, data: Text)
    requires buf.Length == PAYLOAD
    modifies buf
    ensures buf[..] == Received(data)
  {
    for i := 0 to PAYLOAD
      invariant forall k | 0 <= k < i :: buf[k] == 0
    {
      buf[i] := 0;
    }
    var n := if |data| < PAYLOAD then |data| else PAYLOAD;
    for i := 0 to n
      invariant forall k | 0 <= k < i :: buf[k] == data[k]
      invariant forall k | i <= k < PAYLOAD :: buf[k] == 0
    {
      buf[i] := data[i];
    }
  }

  /** One pass of the receive loop. */
  method ReceiveOne(server: LifecycleServer, buf: array<int>, m: Message, before: WakeupReason)
    returns (reason: WakeupReason)
    requires server.Valid() && buf.Length == PAYLOAD
    modifies server, server.outside, buf
    ensures server.Valid()
    ensures reason == Updated(before, m)
    ensures server.View() == StepSocketWakeup(old(server.View()), Code(reason)).next
    ensures server.outside.log == old(server.outside.log) + HandlerOutputs(reason, m.available)
  {
    Receive(buf, m.data);
    reason := Classify(buf, before);
    QlLpmHandler(server, reason, m.available);
  }

  /** The receive loop on a finite stream; `initial` is what the reason variable happens to hold. */
  method QlRecvfromKernel(server: LifecycleServer, messages: seq<Message>, initial: WakeupReason)
    returns (ghost handled: seq<WakeupReason>)
    requires server.Valid()
    modifies server, server.outside
    ensures server.Valid()
    ensures HandledRight(messages, initial, handled)
    ensures server.View() == Run(old(server.View()), WakeupEvents(handled))
    ensures server.outside.log == old(server.outside.log) + LoopOutputs(messages, handled)
  {
    var reason := initial;
    var buf := new int[PAYLOAD];
    handled := [];
    var n := 0;
    ghost var start, log := server.View(), server.outside.log;
    ProgressStart(initial, start, log);
    while n < |messages|
      invariant 0 <= n <= |messages| && fresh(buf) && server.Valid()
      invariant Progress(messages[..n], initial, handled, reason, start, server.View(), log, server.outside.log)
    {
      reason, handled := HandleNext(server, buf, messages, n, initial, handled, reason, start, log);
      n := n + 1;
    }
    assert messages[..n] == messages;
    ProgressDone(messages, initial, handled, reason, start, server.View(), log, server.outside.log);
  }

  /** Message `n`, with the record of what was handled before it. */
  method HandleNext(
    server: LifecycleServer, buf: array<int>, messages: seq<Message>, n: nat, ghost initial: WakeupReason,
    ghost before: seq<WakeupReason>, last: WakeupReason, ghost start: Manager, ghost log: seq<Output>)
    returns (reason: WakeupReason, ghost handled: seq<WakeupReason>)
    requires server.Valid() && buf.Length == PAYLOAD && n < |messages|
    requires Progress(messages[..n], initial, before, last, start, server.View(), log, server.outside.log)
    modifies server, server.outside, buf
    ensures server.Valid() && handled == before + [reason]
    ensures Progress(messages[..n + 1], initial, handled, reason, start, server.View(), log, server.outside.log)
  {
    ghost var view, logged := server.View(), server.outside.log;
    reason := ReceiveOne(server, buf, messages[n], last);
    ProgressStep(messages[..n], messages[n], initial, before, last, reason, start, view, server.View(),
                 log, logged, server.outside.log);
    assert messages[..n + 1] == messages[..n] + [messages[n]];
    handled := before + [reason];
  }

  /** The reason after one more message. */
  function Updated(reason: WakeupReason, m: Message): WakeupReason
  {
    match ClassOf(m) case Some(r) => r case None => reason
  }

  /** Where the loop stands after the messages `done`. */
  ghost predicate Progress(
    done: seq<Message>, initial: WakeupReason, handled: seq<WakeupReason>, reason: WakeupReason,
    start: Manager, now: Manager, log: seq<Output>, logged: seq<Output>)
  {
    && HandledRight(done, initial, handled)
    && LatestReason(done, initial, reason)
    && now == Run(start, WakeupEvents(handled))
    && logged == log + LoopOutputs(done, handled)
  }

  lemma ProgressDone(
    done: seq<Message>, initial: WakeupReason, handled: seq<WakeupReason>, reason: WakeupReason,
    start: Manager, now: Manager, log: seq<Output>, logged: seq<Output>)
    requires Progress(done, initial, handled, reason, start, now, log, logged)
    ensures HandledRight(done, initial, handled)
    ensures now == Run(start, WakeupEvents(handled)) && logged == log + LoopOutputs(done, handled)
  {
  }

  lemma ProgressStart(initial: WakeupReason, start: Manager, log: seq<Output>)
    ensures Progress([], initial, [], initial, start, start, log, log)
  {
    RunEmpty(start);
    assert WakeupEvents([]) == [];
  }

  lemma ProgressStep(
    done: seq<Message>, m: Message, initial: WakeupReason, handled: seq<WakeupReason>,
    before: WakeupReason, reason: WakeupReason,
    start: Manager, view: Manager, now: Manager,
    log: seq<Output>, logged: seq<Output>, logged': seq<Output>)
    requires Progress(done, initial, handled, before, start, view, log, logged)
    requires reason == Updated(before, m)
    requires now == StepSocketWakeup(view, Code(reason)).next
    requires logged' == logged + HandlerOutputs(reason, m.available)
    ensures Progress(done + [m], initial, handled + [reason], reason, start, now, log, logged')
  {
    LatestStep(done, m, initial, before);
    LoopStep(done, m, initial, handled, reason);
    RunWakeup(start, handled, reason);
  }

  lemma RunWakeup(start: Manager, handled: seq<WakeupReason>, reason: WakeupReason)
    ensures StepSocketWakeup(Run(start, WakeupEvents(handled)), Code(reason)).next
            == Run(start, WakeupEvents(handled + [reason]))
  {
    assert WakeupEvents(handled + [reason]) == WakeupEvents(handled) + [SocketWakeup(Code(reason))];
    RunSnoc(start, WakeupEvents(handled), SocketWakeup(Code(reason)));
  }

  lemma LoopStep(before: seq<Message>, m: Message, initial: WakeupReason, handled: seq<WakeupReason>, reason: WakeupReason)
    requires HandledRight(before, initial, handled) && LatestReason(before + [m], initial, reason)
    ensures HandledRight(before + [m], initial, handled + [reason])
    ensures LoopOutputs(before + [m], handled + [reason])
            == LoopOutputs(before, handled) + HandlerOutputs(reason, m.available)
  {
    var all, done := before + [m], handled + [reason];
    assert all[..|before|] == before && done[..|before|] == handled;
    forall n | 0 <= n < |all| ensures LatestReason(all[..n + 1], initial, done[n]) {
      if n < |before| {
        assert all[..n + 1] == before[..n + 1];
      } else {
        assert all[..n + 1] == all;
      }
    }
  }
}
