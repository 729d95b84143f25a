/** The middleware that refuses a request body that is too large before it is held. Follows
    `RequestSizeLimitMiddleware` of backend/app/api/limits.py; the messages are those of the ASGI
    HTTP message format, sections "Request", "Response Start" and "Disconnect". */
module Limits {
  import opened Wrappers

  /** What the server hands an application. */
  datatype In = Request(body: string, more: bool) | Disconnect

  /** What an application hands the server. */
  datatype Out = Start(status: int, headers: string) | Body(body: string, more: bool)

  /** `number` is the value as an integer, where it is one. */
  datatype Header = Header(name: string, number: Option<int>)

  datatype Scope = Scope(isHttp: bool, headers: seq<Header>)

  const REFUSAL := [Start(413, "application/json; close"), Body("REQUEST_TOO_LARGE", false)]

  function Lower(name: string): string {
    seq(|name|, i requires 0 <= i < |name| => if 'A' <= name[i] <= 'Z' then name[i] - 'A' + 'a' else name[i])
  }

  /** `Content-Length`: the first header of that name decides, and says nothing when it is no
      number. */
  function DeclaredLength(headers: seq<Header>): Option<int> {
    if headers == [] then None
    else if Lower(headers[0].name) == "content-length" then headers[0].number
    else DeclaredLength(headers[1..])
  }

  /** Header names are compared without regard to case. */
  ghost predicate SameName(a: string, b: string) {
    && |a| == |b|
    && forall i | 0 <= i < |a| :: a[i] == b[i] || ('A' <= a[i] <= 'Z' && a[i] as int + 32 == b[i] as int)
  }

  ghost predicate Declares(h: Header) {
    SameName(h.name, "content-length")
  }

  lemma LowerIs(name: string)
    ensures Lower(name) == "content-length" <==> SameName(name, "content-length")
  {
    var low := Lower(name);
    assert forall i | 0 <= i < |name| :: low[i] == if 'A' <= name[i] <= 'Z' then name[i] - 'A' + 'a' else name[i];
    if SameName(name, "content-length") {
      forall i | 0 <= i < |name| ensures low[i] == "content-length"[i] {}
    }
  }

  /** The length declared is the number in the first header of that name, and none if it holds no
      number or there is no such header. */
  lemma {:induction false} FirstDeclarationDecides(headers: seq<Header>, k: nat)
    requires k <= |headers| && forall j | 0 <= j < k :: !Declares(headers[j])
    requires k < |headers| ==> Declares(headers[k])
    ensures DeclaredLength(headers) == if k < |headers| then headers[k].number else None
  {
    if headers != [] {
      LowerIs(headers[0].name);
      if k > 0 {
        FirstDeclarationDecides(headers[1..], k - 1);
      }
    }
  }

  predicate RefusedUnread(scope: Scope, maxBytes: nat) {
    scope.isHttp && DeclaredLength(scope.headers).Some? && DeclaredLength(scope.headers).value > maxBytes
  }

  // ---------------------------------------------------------------- one exchange, step by step

  /** `waiting` are the application's receives the server has not answered yet, `answering` those
      that wait between the two messages of a refusal. The rest is what the exchange has come to:
      what arrived from the client, what the application heard of it, what the application said,
      what of that was `passed` on to the wire, how many refusals the middleware began, and what
      of its `own` it put on the wire. */
  datatype Exchange = Exchange(
    received: nat, rejected: bool, waiting: nat, answering: nat,
    arrived: seq<In>, heard: seq<In>, said: seq<Out>, passed: seq<Out>,
    refusals: nat, own: seq<Out>, wire: seq<Out>)

  const FRESH := Exchange(0, false, 0, 0, [], [], [], [], 0, [], [])

  datatype Event =
    | Ask                    // the application awaits its next message
    | Arrive(message: In)    // the server answers one of the receives it still owes
    | Conclude               // a refusal's start is sent: its body follows
    | Reply(answer: Out)     // the application sends

  function Size(message: In): nat {
    if message.Request? then |message.body| else 0
  }

  function Handle(s: Exchange, maxBytes: nat, event: Event): Exchange {
    match event
    case Ask =>
      if s.rejected then s.(heard := s.heard + [Disconnect]) else s.(waiting := s.waiting + 1)
    case Arrive(message) =>
      if s.waiting == 0 then s
      else
        var s := s.(waiting := s.waiting - 1, arrived := s.arrived + [message], received := s.received + Size(message));
        if message.Request? && s.received > maxBytes then
          s.(rejected := true, answering := s.answering + 1, refusals := s.refusals + 1,
             own := s.own + [REFUSAL[0]], wire := s.wire + [REFUSAL[0]])
        else s.(heard := s.heard + [message])
    case Conclude =>
      if s.answering == 0 then s
      else
        s.(answering := s.answering - 1, heard := s.heard + [Disconnect],
           own := s.own + [REFUSAL[1]], wire := s.wire + [REFUSAL[1]])
    case Reply(message) =>
      if s.rejected then s.(said := s.said + [message])
      else s.(said := s.said + [message], wire := s.wire + [message], passed := s.passed + [message])
  }

  function Run(maxBytes: nat, events: seq<Event>): Exchange {
    if events == [] then FRESH else Handle(Run(maxBytes, events[..|events| - 1]), maxBytes, events[|events| - 1])
  }

  /** The two closures and the state they share. */
  class Limiter {
    const maxBytes: nat
    var received: nat
    var rejected: bool
    var waiting: nat
    var answering: nat
    ghost var history: Exchange
    var wire: seq<Out>

    ghost predicate Valid()
      reads this
    {
      && history.received == received && history.rejected == rejected && history.waiting == waiting
      && history.answering == answering && history.wire == wire
    }

    constructor (maxBytes: nat)
      ensures Valid() && this.maxBytes == maxBytes && history == FRESH
    {
      this.maxBytes := maxBytes;
      received, rejected, waiting, answering, wire := 0, false, 0, 0, [];
      history := FRESH;
    }

    /** The part of `limited_receive` before its await: an answer at once, or none yet. */
    method Receive() returns (m: Option<In>)
      requires Valid()
      modifies this
      ensures Valid() && history == Handle(old(history), maxBytes, Ask)
      ensures m == if old(rejected) then Some(Disconnect) else None
    {
      history := Handle(history, maxBytes, Ask);
      if rejected {
        return Some(Disconnect);
      }
      waiting := waiting + 1;
      m := None;
    }

    /** And the part after it, once the server has answered - up to the first await of `_reject`, if
        that is where it leads. */
    method Resume(message: In) returns (m: Option<In>)
      requires Valid() && waiting > 0
      modifies this
      ensures Valid() && history == Handle(old(history), maxBytes, Arrive(message))
      ensures m == if message.Request? && received > maxBytes then None else Some(message)
    {
      history := Handle(history, maxBytes, Arrive(message));
      waiting := waiting - 1;
      if message.Request? {
        received := received + |message.body|;
        if received > maxBytes {
          rejected := true;
          answering := answering + 1;
          wire := wire + [REFUSAL[0]];
          return None;
        }
      }
      m := Some(message);
    }

    /** The rest of `_reject`, and of the receive that called it. */
    method FinishRefusal() returns (m: In)
      requires Valid() && answering > 0
      modifies this
      ensures Valid() && history == Handle(old(history), maxBytes, Conclude)
      ensures m == Disconnect
    {
      history := Handle(history, maxBytes, Conclude);
      answering := answering - 1;
      wire := wire + [REFUSAL[1]];
      m := Disconnect;
    }

    /** `guarded_send`. */
    method Send(message: Out)
      requires Valid()
      modifies this
      ensures Valid() && history == Handle(old(history), maxBytes, Reply(message))
    {
      history := Handle(history, maxBytes, Reply(message));
      if rejected {
        return;
      }
      wire := wire + [message];
    }
  }

  // ---------------------------------------------------------------- every run

  function Bytes(messages: seq<In>): nat {
    if messages == [] then 0 else Bytes(messages[..|messages| - 1]) + Size(messages[|messages| - 1])
  }

  function Starts(messages: seq<Out>): nat {
    if messages == [] then 0
    else Starts(messages[..|messages| - 1]) + if messages[|messages| - 1].Start? then 1 else 0
  }

  function Ends(messages: seq<Out>): nat {
    if messages == [] then 0
    else Ends(messages[..|messages| - 1]) + if messages[|messages| - 1].Body? then 1 else 0
  }

  /** Refusals, perhaps mixed: never more of their bodies than of their starts before them. */
  ghost predicate Refusals(own: seq<Out>) {
    && (forall m | m in own :: m in REFUSAL)
    && (forall k | 0 <= k <= |own| :: Ends(own[..k]) <= Starts(own[..k]))
  }

  /** The limit holds against what really arrived. Up to it the middleware is not there at all;
      beyond it nothing more of the body is heard, and nothing more of the application is said. */
  ghost predicate Limited(s: Exchange, maxBytes: nat) {
    && s.received == Bytes(s.arrived)
    && (s.rejected <==> s.received > maxBytes)
    && Bytes(s.heard) <= maxBytes
    && s.passed <= s.said && s.wire == s.passed + s.own
    && Refusals(s.own) && Starts(s.own) == s.refusals && Ends(s.own) + s.answering == s.refusals
    && (s.rejected <==> s.refusals > 0)
    && (!s.rejected ==> s.heard == s.arrived && s.passed == s.said)
  }

  lemma BytesAppend(messages: seq<In>, m: In)
    ensures Bytes(messages + [m]) == Bytes(messages) + Size(m)
  {
    assert (messages + [m])[..|messages|] == messages;
  }

  lemma AskIsLimited(s: Exchange, maxBytes: nat)
    requires Limited(s, maxBytes)
    ensures Limited(Handle(s, maxBytes, Ask), maxBytes)
  {
    BytesAppend(s.heard, Disconnect);
  }

  lemma OneMore(own: seq<Out>, m: Out)
    requires Refusals(own) && m in REFUSAL && (m.Body? ==> Ends(own) < Starts(own))
    ensures Refusals(own + [m])
    ensures Starts(own + [m]) == Starts(own) + (if m.Start? then 1 else 0)
    ensures Ends(own + [m]) == Ends(own) + (if m.Body? then 1 else 0)
  {
    var more := own + [m];
    assert more[..|own|] == own;
    forall k | 0 <= k <= |more| ensures Ends(more[..k]) <= Starts(more[..k]) {
      if k <= |own| {
        assert more[..k] == own[..k];
      } else {
        assert more[..k] == more;
        assert own[..|own|] == own;
      }
    }
  }

  lemma CrossingIsLimited(s: Exchange, maxBytes: nat, message: In)
    requires Limited(s, maxBytes) && s.waiting > 0
    requires message.Request? && s.received + |message.body| > maxBytes
    ensures Limited(Handle(s, maxBytes, Arrive(message)), maxBytes)
  {
    BytesAppend(s.arrived, message);
    assert REFUSAL[0] in REFUSAL;
    OneMore(s.own, REFUSAL[0]);
    assert s.passed + (s.own + [REFUSAL[0]]) == s.passed + s.own + [REFUSAL[0]];
  }

  lemma HearingIsLimited(s: Exchange, maxBytes: nat, message: In)
    requires Limited(s, maxBytes) && s.waiting > 0
    requires !(message.Request? && s.received + |message.body| > maxBytes)
    ensures Limited(Handle(s, maxBytes, Arrive(message)), maxBytes)
  {
    BytesAppend(s.arrived, message);
    BytesAppend(s.heard, message);
  }

  lemma ArriveIsLimited(s: Exchange, maxBytes: nat, message: In)
    requires Limited(s, maxBytes)
    ensures Limited(Handle(s, maxBytes, Arrive(message)), maxBytes)
  {
    if s.waiting > 0 {
      if message.Request? && s.received + |message.body| > maxBytes {
        CrossingIsLimited(s, maxBytes, message);
      } else {
        HearingIsLimited(s, maxBytes, message);
      }
    }
  }

  lemma ConcludeIsLimited(s: Exchange, maxBytes: nat)
    requires Limited(s, maxBytes)
    ensures Limited(Handle(s, maxBytes, Conclude), maxBytes)
  {
    if s.answering > 0 {
      BytesAppend(s.heard, Disconnect);
      assert REFUSAL[1] in REFUSAL;
      OneMore(s.own, REFUSAL[1]);
    }
  }

  lemma NothingOfItsOwn(own: seq<Out>)
    requires Refusals(own) && Starts(own) == 0
    ensures own == []
  {
    if own != [] {
      assert own[..1][..0] == [] && own[0] in REFUSAL;
      assert Ends(own[..1]) <= Starts(own[..1]);
      assert own == own[..1] + own[1..];
      StartsAppend(own[..1], own[1..]);
    }
  }

  lemma ReplyIsLimited(s: Exchange, maxBytes: nat, answer: Out)
    requires Limited(s, maxBytes)
    ensures Limited(Handle(s, maxBytes, Reply(answer)), maxBytes)
  {
    if !s.rejected {
      NothingOfItsOwn(s.own);
      assert s.passed + [answer] + [] == s.passed + [] + [answer];
    }
  }

  lemma StepIsLimited(s: Exchange, maxBytes: nat, event: Event)
    requires Limited(s, maxBytes)
    ensures Limited(Handle(s, maxBytes, event), maxBytes)
  {
    match event
    case Ask => AskIsLimited(s, maxBytes);
    case Arrive(message) => ArriveIsLimited(s, maxBytes, message);
    case Conclude => ConcludeIsLimited(s, maxBytes);
    case Reply(answer) => ReplyIsLimited(s, maxBytes, answer);
  }

  /** For every chunking of the body and every interleaving of receives and sends. */
  lemma {:induction false} EveryRunIsLimited(maxBytes: nat, events: seq<Event>)
    ensures Limited(Run(maxBytes, events), maxBytes)
  {
    if events != [] {
      EveryRunIsLimited(maxBytes, events[..|events| - 1]);
      StepIsLimited(Run(maxBytes, events[..|events| - 1]), maxBytes, events[|events| - 1]);
    } else {
      assert forall k | 0 <= k <= 0 :: FRESH.own[..k] == [];
    }
  }

  /** A body within the limit passes untouched in both directions, and only such a body does. */
  lemma TransparentIff(maxBytes: nat, events: seq<Event>)
    ensures var s := Run(maxBytes, events);
            s.heard == s.arrived && s.wire == s.said && s.refusals == 0 <==> Bytes(s.arrived) <= maxBytes
  {
    EveryRunIsLimited(maxBytes, events);
    var s := Run(maxBytes, events);
    if !s.rejected {
      NothingOfItsOwn(s.own);
    }
  }

  /** How often the application asked for a message, and what it said. */
  function Asks(events: seq<Event>): nat {
    if events == [] then 0 else Asks(events[..|events| - 1]) + if events[|events| - 1].Ask? then 1 else 0
  }

  function Replies(events: seq<Event>): seq<Out> {
    if events == [] then []
    else
      var last := events[|events| - 1];
      Replies(events[..|events| - 1]) + if last.Reply? then [last.answer] else []
  }

  /** What the server answered to receives that were waiting for it. */
  function Landed(maxBytes: nat, events: seq<Event>): seq<In> {
    if events == [] then []
    else
      var before, last := events[..|events| - 1], events[|events| - 1];
      Landed(maxBytes, before) + if last.Arrive? && Run(maxBytes, before).waiting > 0 then [last.message] else []
  }

  /** In every run every receive is answered once, or still waits: for the server, or between the two
      messages of a refusal. What arrives and what is said is taken down as it came. */
  lemma {:induction false} EveryReceiveIsAnsweredOnce(maxBytes: nat, events: seq<Event>)
    ensures var s := Run(maxBytes, events);
            && |s.heard| + s.waiting + s.answering == Asks(events)
            && s.said == Replies(events) && s.arrived == Landed(maxBytes, events)
  {
    if events != [] {
      EveryReceiveIsAnsweredOnce(maxBytes, events[..|events| - 1]);
    }
  }

  // ---------------------------------------------------------------- after the refusal

  /** Once rejected, what is heard from then on is that the client is gone - and whatever the
      server still answers to receives that were waiting already; of the body, nothing. */
  lemma NothingAfterRefusal(maxBytes: nat, events: seq<Event>, event: Event)
    requires Run(maxBytes, events).rejected
    ensures var s, r := Run(maxBytes, events), Handle(Run(maxBytes, events), maxBytes, event);
            && r.rejected && r.passed == s.passed
            && (r.heard == s.heard || r.heard == s.heard + [Disconnect])
            && (event.Reply? ==> r.wire == s.wire)
  {
    EveryRunIsLimited(maxBytes, events);
  }

  /** No more than `width` receives are ever under way at once. */
  ghost predicate Narrow(maxBytes: nat, events: seq<Event>, width: nat) {
    forall k | 0 <= k <= |events| :: Run(maxBytes, events[..k]).waiting <= width
  }

  /** The middleware answers for itself at most once for every receive the application had under
      way: an application that awaits one message at a time gets exactly one 413. */
  lemma {:induction false} RefusalsAreBounded(maxBytes: nat, events: seq<Event>, width: nat)
    requires Narrow(maxBytes, events, width)
    ensures var s := Run(maxBytes, events);
            s.refusals <= width && (s.rejected ==> s.refusals + s.waiting <= width)
  {
    if events != [] {
      var before := events[..|events| - 1];
      forall k | 0 <= k <= |before| ensures Run(maxBytes, before[..k]).waiting <= width {
        assert before[..k] == events[..k];
      }
      RefusalsAreBounded(maxBytes, before, width);
      EveryRunIsLimited(maxBytes, before);
      assert events[..|before|] == before && events[..|events|] == events;
    }
  }

  lemma ExactlyOneRefusal(maxBytes: nat, events: seq<Event>)
    requires Narrow(maxBytes, events, 1)
    ensures var s := Run(maxBytes, events);
            s.refusals == if Bytes(s.arrived) > maxBytes then 1 else 0
  {
    RefusalsAreBounded(maxBytes, events, 1);
    EveryRunIsLimited(maxBytes, events);
  }

  /** What the middleware itself says, from every run: a 413 that names the limit, and nothing else; to
      an application that awaits one message at a time, once, whole, and in that order. */
  lemma RefusalReads(maxBytes: nat, events: seq<Event>)
    ensures var s := Run(maxBytes, events);
            && (forall m | m in s.own ::
                  m == Start(413, "application/json; close") || m == Body("REQUEST_TOO_LARGE", false))
            && (Narrow(maxBytes, events, 1) && s.rejected ==>
                  s.own == [Start(413, "application/json; close")]
                           + if s.answering == 0 then [Body("REQUEST_TOO_LARGE", false)] else [])
  {
    EveryRunIsLimited(maxBytes, events);
    var s := Run(maxBytes, events);
    if Narrow(maxBytes, events, 1) && s.rejected {
      ExactlyOneRefusal(maxBytes, events);
      OneRefusalIs(s.own);
    }
  }

  lemma OneRefusalIs(own: seq<Out>)
    requires Refusals(own) && Starts(own) == 1
    ensures own == [REFUSAL[0]] + if Ends(own) == 1 then [REFUSAL[1]] else []
    ensures Ends(own) <= 1
  {
    var last := own[|own| - 1];
    assert own[..|own|] == own && last in REFUSAL;
    if |own| == 1 {
      assert own[..0] == [];
    } else {
      var before := own[..|own| - 1];
      assert Ends(own[..|own| - 1]) <= Starts(own[..|own| - 1]);
      if |own| == 2 {
        assert before[..0] == [] && before[0] == own[0] && own[0] in REFUSAL;
        assert Ends(own[..1]) <= Starts(own[..1]) && own[..1] == before;
      } else {
        CountsAddUp(own);
      }
    }
  }

  lemma {:induction false} CountsAddUp(own: seq<Out>)
    ensures Starts(own) + Ends(own) == |own|
  {
    if own != [] {
      CountsAddUp(own[..|own| - 1]);
    }
  }

  /** Messages of the body that arrive when, with them, more than the limit has arrived. */
  function Beyond(messages: seq<In>, maxBytes: nat): nat {
    if messages == [] then 0
    else
      var last := messages[|messages| - 1];
      Beyond(messages[..|messages| - 1], maxBytes) + if last.Request? && Bytes(messages) > maxBytes then 1 else 0
  }

  /** The message that crosses the limit. */
  ghost predicate Crosses(messages: seq<In>, k: int, maxBytes: nat) {
    0 <= k < |messages| && Bytes(messages[..k]) <= maxBytes < Bytes(messages[..k + 1])
  }

  /** The client is answered 413 exactly once for the message that crosses the limit and once for
      each that still arrives after it. */
  lemma {:induction false} RefusalsAreCounted(maxBytes: nat, events: seq<Event>)
    ensures var s := Run(maxBytes, events);
            s.refusals == Beyond(s.arrived, maxBytes)
  {
    if events != [] {
      var before, last := events[..|events| - 1], events[|events| - 1];
      var s := Run(maxBytes, before);
      RefusalsAreCounted(maxBytes, before);
      EveryRunIsLimited(maxBytes, before);
      if last.Arrive? {
        BytesAppend(s.arrived, last.message);
        assert (s.arrived + [last.message])[..|s.arrived|] == s.arrived;
      }
    }
  }

  /** The message at `k` crosses the limit, and nothing more of the body arrives after it. */
  ghost predicate OnlyCrossing(messages: seq<In>, k: int, maxBytes: nat) {
    Crosses(messages, k, maxBytes) && forall j | k < j < |messages| :: messages[j].Disconnect?
  }

  lemma CrossingBefore(messages: seq<In>, k: int, maxBytes: nat)
    requires messages != []
    ensures var before, n := messages[..|messages| - 1], |messages| - 1;
            && (k < n ==> (OnlyCrossing(messages, k, maxBytes) <==>
                             OnlyCrossing(before, k, maxBytes) && messages[n].Disconnect?))
            && (OnlyCrossing(messages, n, maxBytes) <==> Bytes(before) <= maxBytes < Bytes(messages))
  {
    var before, n := messages[..|messages| - 1], |messages| - 1;
    assert messages[..n + 1] == messages;
    if 0 <= k < n {
      assert before[..k] == messages[..k] && before[..k + 1] == messages[..k + 1];
      assert forall j | k < j < n :: before[j] == messages[j];
    }
  }

  lemma {:induction false} BeyondNoneIff(messages: seq<In>, maxBytes: nat)
    ensures Beyond(messages, maxBytes) == 0 <==> Bytes(messages) <= maxBytes
  {
    if messages != [] {
      BeyondNoneIff(messages[..|messages| - 1], maxBytes);
    }
  }

  lemma {:induction false} BeyondOneIff(messages: seq<In>, maxBytes: nat)
    ensures Beyond(messages, maxBytes) == 1 <==> exists k :: OnlyCrossing(messages, k, maxBytes)
  {
    if messages != [] {
      var before, n := messages[..|messages| - 1], |messages| - 1;
      BeyondOneIff(before, maxBytes);
      BeyondNoneIff(before, maxBytes);
      forall k ensures OnlyCrossing(messages, k, maxBytes) <==>
                       || (k < n && OnlyCrossing(before, k, maxBytes) && messages[n].Disconnect?)
                       || (k == n && Bytes(before) <= maxBytes < Bytes(messages))
      {
        CrossingBefore(messages, k, maxBytes);
      }
      if k :| OnlyCrossing(before, k, maxBytes) {
        CrossedStays(before, k, maxBytes);
        assert messages[n].Disconnect? <==> OnlyCrossing(messages, k, maxBytes);
      } else if Bytes(before) <= maxBytes < Bytes(messages) {
        assert OnlyCrossing(messages, n, maxBytes);
      }
    }
  }

  lemma {:induction false} CrossedStays(messages: seq<In>, k: int, maxBytes: nat)
    requires Crosses(messages, k, maxBytes)
    ensures Bytes(messages) > maxBytes
  {
    if k == |messages| - 1 {
      assert messages[..k + 1] == messages;
    } else {
      var before := messages[..|messages| - 1];
      assert before[..k] == messages[..k] && before[..k + 1] == messages[..k + 1];
      CrossedStays(before, k, maxBytes);
    }
  }

  /** There is exactly one 413 if and only if the limit is crossed and nothing more of the body
      arrives, after that, to a receive that was waiting already. */
  lemma OneRefusalIff(maxBytes: nat, events: seq<Event>)
    ensures var s := Run(maxBytes, events);
            s.refusals == 1 <==>
            exists k :: OnlyCrossing(s.arrived, k, maxBytes)
  {
    RefusalsAreCounted(maxBytes, events);
    BeyondOneIff(Run(maxBytes, events).arrived, maxBytes);
  }

  lemma RunOn(maxBytes: nat, events: seq<Event>, event: Event)
    ensures Run(maxBytes, events + [event]) == Handle(Run(maxBytes, events), maxBytes, event)
  {
    assert (events + [event])[..|events|] == events;
  }

  lemma RunOfThree(maxBytes: nat, a: Event, b: Event, c: Event)
    ensures Run(maxBytes, [a, b, c]) == Handle(Handle(Handle(FRESH, maxBytes, a), maxBytes, b), maxBytes, c)
  {
    RunOn(maxBytes, [], a);
    RunOn(maxBytes, [a], b);
    RunOn(maxBytes, [a, b], c);
    assert [] + [a] == [a] && [a] + [b] == [a, b] && [a, b] + [c] == [a, b, c];
  }

  /** The next three steps find two receives waiting, one of them about to be refused. */
  lemma SecondRefusalOverlaps(s: Exchange, maxBytes: nat, b: string)
    requires s.received > maxBytes && s.waiting == 1 && s.answering == 1
    ensures var begun := Handle(s, maxBytes, Arrive(Request(b, false)));
            Handle(Handle(begun, maxBytes, Conclude), maxBytes, Conclude).wire
            == s.wire + [REFUSAL[0]] + [REFUSAL[1]] + [REFUSAL[1]]
  {
  }

  /** Two receives under way: then the client is answered twice, the one refusal inside the other. */
  lemma TwoWaitingReceivesAreAnsweredTwice(maxBytes: nat, a: string, b: string)
    requires |a| > maxBytes
    ensures Run(maxBytes, [Ask, Ask, Arrive(Request(a, true)), Arrive(Request(b, false)), Conclude, Conclude]).wire
            == [REFUSAL[0], REFUSAL[0], REFUSAL[1], REFUSAL[1]]
  {
    var first, second := Arrive(Request(a, true)), Arrive(Request(b, false));
    var begun := [Ask, Ask, first];
    RunOfThree(maxBytes, Ask, Ask, first);
    RunOn(maxBytes, begun, second);
    RunOn(maxBytes, begun + [second], Conclude);
    RunOn(maxBytes, begun + [second] + [Conclude], Conclude);
    assert begun + [second] + [Conclude] + [Conclude] == [Ask, Ask, first, second, Conclude, Conclude];
    SecondRefusalOverlaps(Run(maxBytes, begun), maxBytes, b);
    assert Run(maxBytes, begun).wire == [REFUSAL[0]];
  }

  lemma StartsAppend(a: seq<Out>, b: seq<Out>)
    ensures Starts(a + b) == Starts(a) + Starts(b)
  {
    if b == [] {
      assert a + b == a;
    } else {
      StartsAppend(a, b[..|b| - 1]);
      assert (a + b)[..|a + b| - 1] == a + b[..|b| - 1];
    }
  }

  /** One request gets one response: for an application that awaits one message at a time and
      begins at most one response, the wire carries a second set of headers if and only if the
      refusal came after it had begun - the one case the middleware does not guard. */
  lemma SecondStartIff(maxBytes: nat, events: seq<Event>)
    requires Narrow(maxBytes, events, 1) && Starts(Run(maxBytes, events).said) <= 1
    ensures var s := Run(maxBytes, events);
            Starts(s.wire) > 1 <==> s.rejected && Starts(s.passed) == 1
  {
    var s := Run(maxBytes, events);
    EveryRunIsLimited(maxBytes, events);
    RefusalsAreBounded(maxBytes, events, 1);
    StartsOnWire(s.passed, s.said, s.own);
  }

  lemma StartsOnWire(passed: seq<Out>, said: seq<Out>, own: seq<Out>)
    requires passed <= said
    ensures Starts(passed + own) == Starts(passed) + Starts(own) && Starts(passed) <= Starts(said)
  {
    StartsAppend(passed, own);
    assert said == passed + said[|passed|..];
    StartsAppend(passed, said[|passed|..]);
  }

  lemma StartsOfTwo(a: Out, b: Out)
    ensures Starts([a]) == (if a.Start? then 1 else 0)
    ensures Starts([a, b]) == Starts([a]) + if b.Start? then 1 else 0
  {
    assert [a][..0] == [] && [a, b][..1] == [a];
  }

  lemma NarrowPrefixes(maxBytes: nat, a: Event, b: Event, c: Event)
    requires Handle(FRESH, maxBytes, a).waiting <= 1
    requires Handle(Handle(FRESH, maxBytes, a), maxBytes, b).waiting <= 1
    requires Handle(Handle(Handle(FRESH, maxBytes, a), maxBytes, b), maxBytes, c).waiting <= 1
    ensures Narrow(maxBytes, [a, b, c], 1)
  {
    var events := [a, b, c];
    RunOn(maxBytes, [], a);
    RunOn(maxBytes, [a], b);
    RunOfThree(maxBytes, a, b, c);
    assert [] + [a] == [a] && [a] + [b] == [a, b];
    forall k | 0 <= k <= |events| ensures Run(maxBytes, events[..k]).waiting <= 1 {
      assert events[..0] == [] && events[..1] == [a] && events[..2] == [a, b] && events[..3] == events;
      assert k == 0 || k == 1 || k == 2 || k == 3;
    }
  }

  /** A run in which it did: the application answers before it has read the body. */
  lemma EarlyAnswerIsStartedTwice(maxBytes: nat, body: string)
    requires |body| > maxBytes
    ensures var events := [Ask, Reply(Start(200, "")), Arrive(Request(body, true))];
            && Starts(Run(maxBytes, events).said) == 1 && Starts(Run(maxBytes, events).wire) == 2
            && Narrow(maxBytes, events, 1)
  {
    var answer, chunk := Reply(Start(200, "")), Arrive(Request(body, true));
    RunOfThree(maxBytes, Ask, answer, chunk);
    NarrowPrefixes(maxBytes, Ask, answer, chunk);
    var s := Run(maxBytes, [Ask, answer, chunk]);
    assert s.said == [Start(200, "")] && s.wire == [Start(200, ""), REFUSAL[0]];
    StartsOfTwo(Start(200, ""), REFUSAL[0]);
  }

  // ---------------------------------------------------------------- the whole call

  /** What the application hears and what goes on the wire, for one call of the middleware. */
  function Serve(scope: Scope, maxBytes: nat, events: seq<Event>): (seq<In>, seq<Out>) {
    if !scope.isHttp then (Plain(events).arrived, Plain(events).said)
    else if RefusedUnread(scope, maxBytes) then ([], REFUSAL)
    else (Run(maxBytes, events).heard, Run(maxBytes, events).wire)
  }

  function PlainStep(s: Exchange, event: Event): Exchange {
    match event
    case Ask => s.(waiting := s.waiting + 1)
    case Arrive(message) =>
      if s.waiting == 0 then s else s.(waiting := s.waiting - 1, arrived := s.arrived + [message])
    case Conclude => s
    case Reply(message) => s.(said := s.said + [message])
  }

  /** The same exchange with nothing in between. */
  function Plain(events: seq<Event>): Exchange {
    if events == [] then FRESH else PlainStep(Plain(events[..|events| - 1]), events[|events| - 1])
  }

  lemma StepIsPlain(s: Exchange, p: Exchange, maxBytes: nat, event: Event)
    requires Limited(s, maxBytes) && !s.rejected
    requires s.arrived == p.arrived && s.said == p.said && s.waiting == p.waiting
    ensures var s', p' := Handle(s, maxBytes, event), PlainStep(p, event);
            s'.arrived == p'.arrived && s'.said == p'.said && s'.waiting == p'.waiting
  {
  }

  lemma {:induction false} WithinTheLimitItIsPlain(maxBytes: nat, events: seq<Event>)
    requires Bytes(Run(maxBytes, events).arrived) <= maxBytes
    ensures var s, p := Run(maxBytes, events), Plain(events);
            s.arrived == p.arrived && s.said == p.said && s.waiting == p.waiting
  {
    if events != [] {
      var before := events[..|events| - 1];
      var s := Run(maxBytes, before);
      EveryRunIsLimited(maxBytes, before);
      if events[|events| - 1].Arrive? {
        BytesAppend(s.arrived, events[|events| - 1].message);
      }
      WithinTheLimitItIsPlain(maxBytes, before);
      StepIsPlain(s, Plain(before), maxBytes, events[|events| - 1]);
    }
  }

  /** Of every request the application hears at most the limit; a request that is not HTTP, or
      declares and brings no more than the limit, is served as if the middleware were not there;
      one that declares more is refused without being read. */
  lemma ServeIsLimited(scope: Scope, maxBytes: nat, events: seq<Event>)
    ensures var (served, declared) := (Serve(scope, maxBytes, events), DeclaredLength(scope.headers));
            var tooLong := declared.Some? && declared.value > maxBytes;
            && (scope.isHttp ==> Bytes(served.0) <= maxBytes)
            && (!scope.isHttp || (!tooLong && Bytes(Run(maxBytes, events).arrived) <= maxBytes) ==>
                  served == (Plain(events).arrived, Plain(events).said))
            && (scope.isHttp && tooLong ==>
                  served == ([], [Start(413, "application/json; close"), Body("REQUEST_TOO_LARGE", false)]))
            && (scope.isHttp && !tooLong ==> served == (Run(maxBytes, events).heard, Run(maxBytes, events).wire))
  {
    EveryRunIsLimited(maxBytes, events);
    TransparentIff(maxBytes, events);
    if Bytes(Run(maxBytes, events).arrived) <= maxBytes {
      WithinTheLimitItIsPlain(maxBytes, events);
    }
  }
}
