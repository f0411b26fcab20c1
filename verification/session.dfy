/**
 The backend over its lifetime: requests arrive one after another, each with
 the provider outcomes it would meet, and the process-wide state threads
 through them. Properties here quantify over every such history.
 */
module Session {
  import opened Values
  import opened Hex
  import opened Provider
  import opened Backend
  import opened Pairing
  import opened Routes

  /** One inbound request with the provider's answers to the calls it may make. */
  datatype Event =
    | CallbackRequest(code: Option<string>, exchange: Response<TokenGrant>, random: Random32)
    | CurrentRequest(first: Response<Value>, grant: Response<TokenGrant>, retry: Response<Value>)
    | ControlRequest(cmd: Command, header: Option<string>,
                     first: Response<Value>, grant: Response<TokenGrant>, retry: Response<Value>)

  function Handle(s: State, e: Event): Handled {
    match e
    case CallbackRequest(code, exchange, random) => Callback(s, code, exchange, random)
    case CurrentRequest(first, grant, retry) => Current(s, first, grant, retry)
    case ControlRequest(cmd, header, first, grant, retry) => Control(s, cmd, header, first, grant, retry)
  }

  /** The final state, one reply per request and every upstream call, in order. */
  datatype Trace = Trace(state: State, replies: seq<Reply>, calls: seq<Call>)

  function Run(s: State, events: seq<Event>): (t: Trace)
    ensures |t.replies| == |events|
    ensures events != [] ==> t.replies[0] == Handle(s, events[0]).reply
    decreases |events|
  {
    if events == [] then Trace(s, [], [])
    else
      var h := Handle(s, events[0]);
      var rest := Run(h.state, events[1..]);
      Trace(rest.state, [h.reply] + rest.replies, h.calls + rest.calls)
  }

  /** Handling a concatenated history is handling the first part and then,
      from the state it leaves, the second: the module variables carry over
      from one request to the next. */
  lemma {:induction false} RunAppend(s: State, a: seq<Event>, b: seq<Event>)
    ensures var ta := Run(s, a);
            var tb := Run(ta.state, b);
            Run(s, a + b) == Trace(tb.state, ta.replies + tb.replies, ta.calls + tb.calls)
    decreases |a|
  {
    if a == [] {
      assert a + b == b;
    } else {
      var h := Handle(s, a[0]);
      assert (a + b)[0] == a[0];
      assert (a + b)[1..] == a[1..] + b;
      RunAppend(h.state, a[1..], b);
      var ta', tb := Run(h.state, a[1..]), Run(Run(h.state, a[1..]).state, b);
      assert Run(s, a + b) == Trace(tb.state, [h.reply] + (ta'.replies + tb.replies), h.calls + (ta'.calls + tb.calls));
      assert [h.reply] + (ta'.replies + tb.replies) == ([h.reply] + ta'.replies) + tb.replies;
      assert h.calls + (ta'.calls + tb.calls) == (h.calls + ta'.calls) + tb.calls;
    }
  }

  /** Each request is handled in the state the requests before it left:
      the i-th reply is what handling the i-th request gives in the state
      reached after the first i requests, and that handling's state is the
      one the first i + 1 requests reach. */
  lemma RunStepwise(s: State, events: seq<Event>, i: nat)
    requires i < |events|
    ensures var before := Run(s, events[..i]).state;
            && Run(s, events).replies[i] == Handle(before, events[i]).reply
            && Run(s, events[..i + 1]).state == Handle(before, events[i]).state
  {
    var before := Run(s, events[..i]).state;
    RunAppend(s, events[..i], events[i..]);
    assert events[..i] + events[i..] == events;
    RunAppend(s, events[..i], [events[i]]);
    assert events[..i] + [events[i]] == events[..i + 1];
    var single := Run(before, [events[i]]);
    assert single.replies == [Handle(before, events[i]).reply];
    assert Run(before, events[i..]).replies[0] == Handle(before, events[i]).reply;
  }

  /** The request that can install credentials: a callback whose code exchange succeeded. */
  predicate Pairs(e: Event) {
    e.CallbackRequest? && e.exchange.Ok?
  }

  /** Every history keeps the pairing token unset or 64 hex digits. */
  lemma {:induction false} RunKeepsValid(s: State, events: seq<Event>)
    requires Valid(s)
    ensures Valid(Run(s, events).state)
    decreases |events|
  {
    if events != [] {
      RunKeepsValid(Handle(s, events[0]).state, events[1..]);
    }
  }

  /** Without a successful callback the refresh token and the pairing token
      never change: refreshes and playback routes write the access token only. */
  lemma {:induction false} OnlyCallbackWritesGrantAndPairing(s: State, events: seq<Event>)
    requires forall i :: 0 <= i < |events| ==> !Pairs(events[i])
    ensures SameGrantAndPairing(s, Run(s, events).state)
    decreases |events|
  {
    if events != [] {
      assert !Pairs(events[0]);
      OnlyCallbackWritesGrantAndPairing(Handle(s, events[0]).state, events[1..]);
    }
  }

  /** Between two pairings the gate's verdicts are fixed: a playback command
      is refused exactly when its header fails the gate of the state the run
      started in, whatever refreshes happened in between. */
  lemma {:induction false} GateFixedBetweenPairings(s: State, events: seq<Event>)
    requires forall i :: 0 <= i < |events| ==> !Pairs(events[i])
    ensures forall i :: 0 <= i < |events| && events[i].ControlRequest? ==>
              (Run(s, events).replies[i] == Forbidden <==> CheckDeviceToken(s, events[i].header) == Deny)
    decreases |events|
  {
    if events != [] {
      var h := Handle(s, events[0]);
      assert !Pairs(events[0]);
      assert h.state.deviceToken == s.deviceToken;
      GateFixedBetweenPairings(h.state, events[1..]);
      var t := Run(s, events);
      forall i | 0 <= i < |events| && events[i].ControlRequest?
        ensures t.replies[i] == Forbidden <==> CheckDeviceToken(s, events[i].header) == Deny
      {
        if i > 0 {
          assert t.replies[i] == Run(h.state, events[1..]).replies[i - 1];
          assert events[1..][i - 1] == events[i];
        }
      }
    }
  }

  /** From start-up, before any successful callback, no command is admitted. */
  lemma NothingAdmittedBeforePairing(events: seq<Event>)
    requires forall i :: 0 <= i < |events| ==> !Pairs(events[i])
    ensures forall i :: 0 <= i < |events| && events[i].ControlRequest? ==> Run(Initial, events).replies[i] == Forbidden
    ensures Run(Initial, events).state.deviceToken.None?
  {
    GateFixedBetweenPairings(Initial, events);
    OnlyCallbackWritesGrantAndPairing(Initial, events);
  }

  /** The upstream cost of any history: per request at most two API calls,
      one refresh grant and one code grant. */
  lemma {:induction false} UpstreamBudget(s: State, events: seq<Event>)
    ensures Count(Run(s, events).calls, ApiKind) <= 2 * |events|
    ensures Count(Run(s, events).calls, RefreshKind) <= |events|
    ensures Count(Run(s, events).calls, CodeKind) <= |events|
    decreases |events|
  {
    if events != [] {
      var h := Handle(s, events[0]);
      var rest := Run(h.state, events[1..]);
      UpstreamBudget(h.state, events[1..]);
      CountAppend(h.calls, rest.calls, ApiKind);
      CountAppend(h.calls, rest.calls, RefreshKind);
      CountAppend(h.calls, rest.calls, CodeKind);
      assert Count(h.calls, CodeKind) <= 1;
    }
  }
}
