/**
 Layered dispatch. While a call runs, the server's routing decisions are spread over its table,
 its running calls and many commands; here they are shown to be one fold over the answers the
 handlers give, walking down the priority-sorted list of the function.
 */
module Dispatch {
  import opened Rpc
  import opened Sequences
  import opened ApiTables
  import S = Swiboe

  /** Handling `commands` one after another in `s` ends in `s'` and sends `sent` to the bridge. */
  ghost predicate Handling(s: S.State, commands: seq<S.Command>, s': S.State, sent: seq<SendData>)
    decreases |commands|
  {
    if commands == [] then s' == s && sent == []
    else exists o, rest :: S.Handles(s, commands[0], o) && Handling(o.state, commands[1..], s', rest)
                           && sent == o.sent + rest
  }

  // ---------- What a run keeps ----------

  ghost predicate Keyed(s: S.State) {
    forall c :: c in s.runningRpcs ==> s.runningRpcs[c].rpcCall.context == c
  }

  lemma HandlesKeepsKeyed(s: S.State, command: S.Command, o: S.Outcome)
    requires Keyed(s) && S.Handles(s, command, o)
    ensures Keyed(o.state)
  {
  }

  lemma HandlesKeepsWellFormed(s: S.State, command: S.Command, o: S.Outcome)
    requires WellFormed(s.apiTable) && S.Handles(s, command, o)
    ensures WellFormed(o.state.apiTable)
  {
    match command
    case NewRpc(k, name, priority) =>
      RegisterKeepsWellFormed(s.apiTable, name, ApiInfo(k, priority), o.state.apiTable);
    case ClientDisconnected(k) => DeregisterKeepsWellFormed(s.apiTable, k);
    case _ =>
  }

  lemma {:induction false} ReachedIsSound(s: S.State, commands: seq<S.Command>, s': S.State, sent: seq<SendData>)
    requires Keyed(s) && WellFormed(s.apiTable) && Handling(s, commands, s', sent)
    ensures Keyed(s') && WellFormed(s'.apiTable)
    decreases |commands|
  {
    if commands != [] {
      var o, rest :| S.Handles(s, commands[0], o) && Handling(o.state, commands[1..], s', rest)
                     && sent == o.sent + rest;
      HandlesKeepsKeyed(s, commands[0], o);
      HandlesKeepsWellFormed(s, commands[0], o);
      ReachedIsSound(o.state, commands[1..], s', rest);
    }
  }

  // ---------- The fold ----------

  /** What a command says about call `c`: a response to it, or a refusal because it could not be
      delivered. */
  function Signal(c: string, command: S.Command): seq<ResponseKind> {
    match command
    case RpcResponse(r) => if r.context == c then [r.kind] else []
    case SendDataFailed(_, RpcCall(call)) => if call.context == c then [Last(NotHandled)] else []
    case _ => []
  }

  function Signals(c: string, commands: seq<S.Command>): seq<ResponseKind> {
    FlatMap(commands, command => Signal(c, command))
  }

  /** The offers and responses of call `c` among the messages sent; cancellations are left out. */
  function About(c: string, m: SendData): seq<SendData> {
    match m.message
    case RpcCall(call) => if call.context == c then [m] else []
    case RpcResponse(r) => if r.context == c then [m] else []
    case RpcCancel(_) => []
  }

  function Traffic(c: string, sent: seq<SendData>): seq<SendData> {
    FlatMap(sent, m => About(c, m))
  }

  function Offer(handler: ClientId, call: Call): SendData {
    SendData(handler, RpcCall(call))
  }

  /** The simple form: the first of `handlers` is at work, the others wait. Streamed parts are
      passed on, a refusal moves to the next handler, an answer ends the call. */
  function Layered(handlers: seq<ClientId>, caller: ClientId, call: Call, signals: seq<ResponseKind>): seq<SendData>
    requires handlers != []
    decreases |signals|
  {
    if signals == [] then []
    else match signals[0]
      case Partial(value) =>
        [SendData(caller, RpcResponse(Response(call.context, signals[0])))] + Layered(handlers, caller, call,
            signals[1..])
      case Last(NotHandled) =>
        if |handlers| > 1 then
          [Offer(handlers[1], call)] + Layered(handlers[1..], caller, call, signals[1..])
        else
          [LastTo(caller, call.context, NotHandled)] + Layered(handlers, caller, call, signals[1..])
      case Last(result) => [LastTo(caller, call.context, result)]
  }

  function Clients(infos: seq<ApiInfo>): (clients: seq<ClientId>)
    ensures |clients| == |infos| && forall i :: 0 <= i < |infos| ==> clients[i] == infos[i].clientId
  {
    seq(|infos|, i requires 0 <= i < |infos| => infos[i].clientId)
  }

  ghost predicate Distinct<T>(s: seq<T>) {
    forall i, j :: 0 <= i < j < |s| ==> s[i] != s[j]
  }

  // ---------- The walk the code takes ----------

  datatype Position = Offered(index: nat) | Answered

  /** One signal at a position of list `infos`: where the call goes and what is sent. The handler
      after a refusal is the one behind the first entry of the refusing client. */
  function Advance(infos: seq<ApiInfo>, caller: ClientId, call: Call, p: Position, kind: ResponseKind)
    : (Position, seq<SendData>)
    requires p.Offered? ==> p.index < |infos|
  {
    match p
    case Answered => (p, [])
    case Offered(i) =>
      match kind
      case Partial(value) => (p, [SendData(caller, RpcResponse(Response(call.context, kind)))])
      case Last(NotHandled) =>
        var next := FirstIndex(infos, infos[i].clientId) + 1;
        if next < |infos| then (Offered(next), [Offer(infos[next].clientId, call)])
        else (p, [LastTo(caller, call.context, NotHandled)])
      case Last(result) => (Answered, [LastTo(caller, call.context, result)])
  }

  function Walk(infos: seq<ApiInfo>, caller: ClientId, call: Call, p: Position,
      signals: seq<ResponseKind>): seq<SendData>
    requires p.Offered? ==> p.index < |infos|
    decreases |signals|
  {
    if signals == [] then []
    else
      var (p', sent) := Advance(infos, caller, call, p, signals[0]);
      sent + Walk(infos, caller, call, p', signals[1..])
  }

  /** The call stands at position `p` of the list `infos` in state `s`. */
  ghost predicate Stands(s: S.State, infos: seq<ApiInfo>, caller: ClientId, call: Call, p: Position) {
    && Keyed(s)
    && Infos(s.apiTable, call.function_) == infos
    && (match p
        case Offered(i) => i < |infos| && call.context in s.runningRpcs
                           && s.runningRpcs[call.context] == S.RunningRpc(caller, infos[i].clientId, call)
        case Answered => call.context !in s.runningRpcs)
  }

  /** The command leaves the function's list alone, does not disconnect the caller and does not
      reuse the call's context. */
  predicate Calm(command: S.Command, infos: seq<ApiInfo>, caller: ClientId, call: Call) {
    match command
    case NewRpc(_, name, _) => name != call.function_
    case RpcCall(_, other) => other.context != call.context
    case ClientDisconnected(k) => k != caller && k !in Clients(infos)
    case _ => true
  }

  lemma {:induction false} RetainedAll(infos: seq<ApiInfo>, k: ClientId)
    requires k !in Clients(infos)
    ensures Retained(infos, k) == infos
  {
    if infos != [] {
      forall i | 0 <= i < |infos| - 1 ensures Clients(infos[1..])[i] == Clients(infos)[i + 1] {
      }
      assert infos[0].clientId == Clients(infos)[0];
      RetainedAll(infos[1..], k);
    }
  }

  lemma CalmKeepsList(s: S.State, command: S.Command, o: S.Outcome, infos: seq<ApiInfo>, caller: ClientId, call: Call)
    requires S.Handles(s, command, o) && Calm(command, infos, caller, call)
    requires Infos(s.apiTable, call.function_) == infos
    ensures Infos(o.state.apiTable, call.function_) == infos
  {
    if command.ClientDisconnected? {
      RetainedAll(infos, command.clientId);
    }
  }

  lemma TrafficOne(c: string, m: SendData)
    ensures Traffic(c, []) == [] && Traffic(c, [m]) == About(c, m)
  {
    assert [m][1..] == [];
    assert FlatMap([m], m' => About(c, m')) == About(c, m) + Traffic(c, []);
  }

  lemma TrafficConcat(c: string, a: seq<SendData>, b: seq<SendData>)
    ensures Traffic(c, a + b) == Traffic(c, a) + Traffic(c, b)
  {
    FlatMapConcat(a, b, m => About(c, m));
  }

  lemma SignalsFirst(c: string, commands: seq<S.Command>)
    requires commands != []
    ensures Signal(c, commands[0]) == [] ==> Signals(c, commands) == Signals(c, commands[1..])
    ensures Signal(c, commands[0]) != [] ==>
              Signals(c, commands) == [Signal(c, commands[0])[0]] + Signals(c, commands[1..])
  {
  }

  lemma WalkFirst(infos: seq<ApiInfo>, caller: ClientId, call: Call, p: Position, kind: ResponseKind,
      rest: seq<ResponseKind>)
    requires p.Offered? ==> p.index < |infos|
    ensures var (p', sent) := Advance(infos, caller, call, p, kind);
            Walk(infos, caller, call, p, [kind] + rest) == sent + Walk(infos, caller, call, p', rest)
  {
    assert ([kind] + rest)[1..] == rest;
  }

  lemma SignalStep(s: S.State, o: S.Outcome, infos: seq<ApiInfo>, caller: ClientId, call: Call, p: Position,
      kind: ResponseKind)
    requires Stands(s, infos, caller, call, p)
    requires o == S.OnRpcResponse(s, Response(call.context, kind))
    ensures var (p', sent) := Advance(infos, caller, call, p, kind);
            Stands(o.state, infos, caller, call, p') && Traffic(call.context, o.sent) == sent
  {
    var c := call.context;
    if p.Offered? {
      GetNextFollowsFirst(s.apiTable, call.function_, infos[p.index].clientId);
      assert |o.sent| == 1 && o.sent == [o.sent[0]];
      TrafficOne(c, o.sent[0]);
    } else {
      TrafficOne(c, SendData(caller, RpcCancel(c)));
    }
  }

  lemma OtherStep(s: S.State, command: S.Command, o: S.Outcome, infos: seq<ApiInfo>, caller: ClientId, call: Call,
      p: Position)
    requires Stands(s, infos, caller, call, p)
    requires S.Handles(s, command, o) && Calm(command, infos, caller, call)
    requires Signal(call.context, command) == []
    ensures Stands(o.state, infos, caller, call, p) && Traffic(call.context, o.sent) == []
  {
    HandlesKeepsKeyed(s, command, o);
    CalmKeepsList(s, command, o, infos, caller, call);
    OtherKeepsEntry(s, command, o, infos, caller, call);
    OtherIsSilent(s, command, o, infos, caller, call);
  }

  lemma OtherKeepsEntry(s: S.State, command: S.Command, o: S.Outcome, infos: seq<ApiInfo>, caller: ClientId, call: Call)
    requires call.context in s.runningRpcs ==> s.runningRpcs[call.context].caller == caller
    requires S.Handles(s, command, o) && Calm(command, infos, caller, call)
    requires Signal(call.context, command) == []
    ensures call.context in o.state.runningRpcs <==> call.context in s.runningRpcs
    ensures call.context in s.runningRpcs ==> o.state.runningRpcs[call.context] == s.runningRpcs[call.context]
  {
  }

  lemma OtherIsSilent(s: S.State, command: S.Command, o: S.Outcome, infos: seq<ApiInfo>, caller: ClientId, call: Call)
    requires Keyed(s)
    requires S.Handles(s, command, o) && Calm(command, infos, caller, call)
    requires Signal(call.context, command) == []
    ensures Traffic(call.context, o.sent) == []
  {
    assert forall i :: 0 <= i < |o.sent| ==> About(call.context, o.sent[i]) == [];
    FlatMapNone(o.sent, m => About(call.context, m));
  }

  /** While the list stays as it is, everything the server sends about the call is the walk over
      what the handlers said. */
  lemma {:induction false} HandlingIsWalk(s: S.State, commands: seq<S.Command>, s': S.State, sent: seq<SendData>,
                                          infos: seq<ApiInfo>, caller: ClientId, call: Call, p: Position)
    requires Stands(s, infos, caller, call, p) && Handling(s, commands, s', sent)
    requires forall i :: 0 <= i < |commands| ==> Calm(commands[i], infos, caller, call)
    ensures Traffic(call.context, sent) == Walk(infos, caller, call, p, Signals(call.context, commands))
    decreases |commands|
  {
    if commands != [] {
      var c, command := call.context, commands[0];
      var o, rest :| S.Handles(s, command, o) && Handling(o.state, commands[1..], s', rest)
                     && sent == o.sent + rest;
      TrafficConcat(c, o.sent, rest);
      if Signal(c, command) == [] {
        OtherStep(s, command, o, infos, caller, call, p);
        HandlingIsWalk(o.state, commands[1..], s', rest, infos, caller, call, p);
        SignalsFirst(c, commands);
      } else {
        var kind := Signal(c, command)[0];
        SignalStep(s, o, infos, caller, call, p, kind);
        WalkFirst(infos, caller, call, p, kind, Signals(c, commands[1..]));
        var (p', _) := Advance(infos, caller, call, p, kind);
        HandlingIsWalk(o.state, commands[1..], s', rest, infos, caller, call, p');
        SignalsFirst(c, commands);
      }
    }
  }

  // ---------- With distinct clients the walk is the simple fold ----------

  lemma {:induction false} AnsweredIsSilent(infos: seq<ApiInfo>, caller: ClientId, call: Call,
      signals: seq<ResponseKind>)
    ensures Walk(infos, caller, call, Answered, signals) == []
    decreases |signals|
  {
    if signals != [] {
      AnsweredIsSilent(infos, caller, call, signals[1..]);
    }
  }

  lemma {:induction false} FirstIndexIsOnly(infos: seq<ApiInfo>, i: nat)
    requires i < |infos| && Distinct(Clients(infos))
    ensures FirstIndex(infos, infos[i].clientId) == i
  {
    assert Clients(infos)[FirstIndex(infos, infos[i].clientId)] == Clients(infos)[i];
  }

  lemma {:induction false} WalkIsLayered(infos: seq<ApiInfo>, caller: ClientId, call: Call, i: nat,
      signals: seq<ResponseKind>)
    requires i < |infos| && Distinct(Clients(infos))
    ensures Walk(infos, caller, call, Offered(i), signals) == Layered(Clients(infos)[i..], caller, call, signals)
    decreases |signals|
  {
    if signals != [] {
      FirstIndexIsOnly(infos, i);
      var (p, sent) := Advance(infos, caller, call, Offered(i), signals[0]);
      match p
      case Answered => AnsweredIsSilent(infos, caller, call, signals[1..]);
      case Offered(next) =>
        WalkIsLayered(infos, caller, call, next, signals[1..]);
        assert i + 1 < |infos| ==> Clients(infos)[i..][1..] == Clients(infos)[i + 1..];
    }
  }

  /** The call is taken in at the front of its list. */
  lemma CallStands(s: S.State, caller: ClientId, call: Call, o: S.Outcome)
    requires Keyed(s) && Infos(s.apiTable, call.function_) != [] && !S.IsCore(call)
    requires S.Handles(s, S.RpcCall(caller, call), o)
    ensures Stands(o.state, Infos(s.apiTable, call.function_), caller, call, Offered(0))
    ensures Traffic(call.context, o.sent) == [Offer(Infos(s.apiTable, call.function_)[0].clientId, call)]
  {
    assert o.sent == [Offer(Infos(s.apiTable, call.function_)[0].clientId, call)];
    TrafficOne(call.context, o.sent[0]);
  }

  /** A call handled in a reachable state, and what follows it while its list stays as it is. */
  ghost predicate Dispatches(past: seq<S.Command>, s: S.State, caller: ClientId, call: Call,
                             commands: seq<S.Command>, sent: seq<SendData>) {
    && (exists before :: Handling(S.INITIAL_STATE, past, s, before))
    && (exists s' :: Handling(s, [S.RpcCall(caller, call)] + commands, s', sent))
    && !S.IsCore(call) && Infos(s.apiTable, call.function_) != []
    && (forall i :: 0 <= i < |commands| ==> Calm(commands[i], Infos(s.apiTable, call.function_), caller, call))
  }

  lemma DispatchIsWalk(past: seq<S.Command>, s: S.State, caller: ClientId, call: Call,
                       commands: seq<S.Command>, sent: seq<SendData>)
    requires Dispatches(past, s, caller, call, commands, sent)
    ensures Ascending(Infos(s.apiTable, call.function_))
    ensures var infos := Infos(s.apiTable, call.function_);
            Traffic(call.context, sent) ==
            [Offer(infos[0].clientId, call)] + Walk(infos, caller, call, Offered(0), Signals(call.context, commands))
  {
    var before :| Handling(S.INITIAL_STATE, past, s, before);
    ReachedIsSound(S.INITIAL_STATE, past, s, before);
    var all := [S.RpcCall(caller, call)] + commands;
    var s' :| Handling(s, all, s', sent);
    var o, rest :| S.Handles(s, all[0], o) && Handling(o.state, all[1..], s', rest) && sent == o.sent + rest;
    assert all[1..] == commands;
    CallStands(s, caller, call, o);
    HandlingIsWalk(o.state, commands, s', rest, Infos(s.apiTable, call.function_), caller, call, Offered(0));
    TrafficConcat(call.context, o.sent, rest);
  }

  /**
   The refinement. With a handler list of distinct clients that stays as it is while the call runs,
   everything the server sends about the call, in order, is the simple fold over that sorted list.
   */
  lemma DispatchRefinesFold(past: seq<S.Command>, s: S.State, caller: ClientId, call: Call,
                            commands: seq<S.Command>, sent: seq<SendData>)
    requires Dispatches(past, s, caller, call, commands, sent)
    requires Distinct(Clients(Infos(s.apiTable, call.function_)))
    ensures Ascending(Infos(s.apiTable, call.function_))
    ensures var handlers := Clients(Infos(s.apiTable, call.function_));
            Traffic(call.context, sent) ==
            [Offer(handlers[0], call)] + Layered(handlers, caller, call, Signals(call.context, commands))
  {
    DispatchIsWalk(past, s, caller, call, commands, sent);
    var infos := Infos(s.apiTable, call.function_);
    WalkIsLayered(infos, caller, call, 0, Signals(call.context, commands));
    assert Clients(infos)[0..] == Clients(infos);
  }

  // ---------- What the fold amounts to ----------

  /** Refusals before the first answer. */
  function Refusals(signals: seq<ResponseKind>): nat {
    if signals == [] then 0
    else match signals[0]
      case Partial(_) => Refusals(signals[1..])
      case Last(NotHandled) => 1 + Refusals(signals[1..])
      case Last(_) => 0
  }

  /** The first answer that is not a refusal. */
  function Answer(signals: seq<ResponseKind>): seq<RpcResult> {
    if signals == [] then []
    else match signals[0]
      case Last(Ok(v)) => [Ok(v)]
      case Last(Err(k, d)) => [Err(k, d)]
      case _ => Answer(signals[1..])
  }

  function OfferedTo(m: SendData): seq<ClientId> {
    if m.message.RpcCall? then [m.receiver] else []
  }

  /** The clients offered the call, in order. */
  function OffersIn(traffic: seq<SendData>): seq<ClientId> {
    FlatMap(traffic, OfferedTo)
  }

  function FinalIn(m: SendData): seq<RpcResult> {
    if m.message.RpcResponse? && m.message.response.kind.Last? then [m.message.response.kind.result] else []
  }

  /** The final results in the traffic, in order. */
  function FinalsIn(traffic: seq<SendData>): seq<RpcResult> {
    FlatMap(traffic, FinalIn)
  }

  function Min(a: nat, b: nat): nat { if a < b then a else b }

  function Times<T>(n: nat, x: T): seq<T> { seq(n, _ => x) }

  lemma {:induction false} LayeredOffers(handlers: seq<ClientId>, caller: ClientId, call: Call,
      signals: seq<ResponseKind>)
    requires handlers != []
    ensures [handlers[0]] + OffersIn(Layered(handlers, caller, call, signals)) ==
            handlers[..Min(|handlers|, 1 + Refusals(signals))]
    decreases |signals|
  {
    var sent := Layered(handlers, caller, call, signals);
    if signals != [] {
      assert sent == [sent[0]] + sent[1..];
      FlatMapConcat([sent[0]], sent[1..], OfferedTo);
      FlatMapAppend([], sent[0], OfferedTo);
      assert [] + [sent[0]] == [sent[0]];
      match signals[0]
      case Partial(_) => LayeredOffers(handlers, caller, call, signals[1..]);
      case Last(NotHandled) =>
        if |handlers| > 1 {
          LayeredOffers(handlers[1..], caller, call, signals[1..]);
        } else {
          LayeredOffers(handlers, caller, call, signals[1..]);
        }
      case Last(_) =>
    }
  }

  lemma {:induction false} LayeredFinals(handlers: seq<ClientId>, caller: ClientId, call: Call,
      signals: seq<ResponseKind>)
    requires handlers != []
    ensures FinalsIn(Layered(handlers, caller, call, signals)) ==
            Times(Excess(Refusals(signals), |handlers| - 1), NotHandled) + Answer(signals)
    decreases |signals|
  {
    var sent := Layered(handlers, caller, call, signals);
    if signals != [] {
      assert sent == [sent[0]] + sent[1..];
      FlatMapConcat([sent[0]], sent[1..], FinalIn);
      FlatMapAppend([], sent[0], FinalIn);
      assert [] + [sent[0]] == [sent[0]];
      match signals[0]
      case Partial(_) => LayeredFinals(handlers, caller, call, signals[1..]);
      case Last(NotHandled) =>
        if |handlers| > 1 {
          LayeredFinals(handlers[1..], caller, call, signals[1..]);
        } else {
          LayeredFinals(handlers, caller, call, signals[1..]);
        }
      case Last(_) =>
    }
  }

  function Excess(a: nat, b: nat): nat { if a > b then a - b else 0 }

  lemma FirstOffer(handler: ClientId, call: Call, rest: seq<SendData>)
    ensures OffersIn([Offer(handler, call)] + rest) == [handler] + OffersIn(rest)
    ensures FinalsIn([Offer(handler, call)] + rest) == FinalsIn(rest)
  {
    FlatMapConcat([Offer(handler, call)], rest, OfferedTo);
    FlatMapConcat([Offer(handler, call)], rest, FinalIn);
    FlatMapAppend([], Offer(handler, call), OfferedTo);
    FlatMapAppend([], Offer(handler, call), FinalIn);
    assert [] + [Offer(handler, call)] == [Offer(handler, call)];
  }

  /**
   With distinct clients, the handlers offered the call are a prefix of the sorted list, each once:
   one more than there were refusals, as far as the list reaches. The caller gets the first answer
   that is not a refusal; and if every handler refuses, and each just once, it gets `NotHandled`.
   */
  lemma TriedInOrder(past: seq<S.Command>, s: S.State, caller: ClientId, call: Call,
                     commands: seq<S.Command>, sent: seq<SendData>)
    requires Dispatches(past, s, caller, call, commands, sent)
    requires Distinct(Clients(Infos(s.apiTable, call.function_)))
    ensures var handlers := Clients(Infos(s.apiTable, call.function_));
            var signals := Signals(call.context, commands);
            var traffic := Traffic(call.context, sent);
            && OffersIn(traffic) == handlers[..Min(|handlers|, 1 + Refusals(signals))]
            && FinalsIn(traffic) == Times(Excess(Refusals(signals), |handlers| - 1), NotHandled) + Answer(signals)
            && (Refusals(signals) + |Answer(signals)| <= |handlers| ==>
                  FinalsIn(traffic) == if Refusals(signals) == |handlers| then [NotHandled] else Answer(signals))
  {
    RepliesInOrder(past, s, caller, call, commands, sent);
    var handlers := Clients(Infos(s.apiTable, call.function_));
    var signals := Signals(call.context, commands);
    if Refusals(signals) + |Answer(signals)| <= |handlers| {
      FewAnswers(Refusals(signals), |handlers|, Answer(signals));
    }
  }

  lemma FewAnswers(refusals: nat, handlers: nat, answer: seq<RpcResult>)
    requires 0 < handlers && refusals + |answer| <= handlers
    ensures Times(Excess(refusals, handlers - 1), NotHandled) + answer ==
            if refusals == handlers then [NotHandled] else answer
  {
  }

  lemma RepliesInOrder(past: seq<S.Command>, s: S.State, caller: ClientId, call: Call,
                       commands: seq<S.Command>, sent: seq<SendData>)
    requires Dispatches(past, s, caller, call, commands, sent)
    requires Distinct(Clients(Infos(s.apiTable, call.function_)))
    ensures var handlers := Clients(Infos(s.apiTable, call.function_));
            var signals := Signals(call.context, commands);
            var traffic := Traffic(call.context, sent);
            && OffersIn(traffic) == handlers[..Min(|handlers|, 1 + Refusals(signals))]
            && FinalsIn(traffic) == Times(Excess(Refusals(signals), |handlers| - 1), NotHandled) + Answer(signals)
  {
    var handlers := Clients(Infos(s.apiTable, call.function_));
    assert handlers != [];
    hide Dispatches, Distinct, FlatMap, Ascending;
    DispatchRefinesFold(past, s, caller, call, commands, sent);
    var signals := Signals(call.context, commands);
    FirstOffer(handlers[0], call, Layered(handlers, caller, call, signals));
    LayeredOffers(handlers, caller, call, signals);
    LayeredFinals(handlers, caller, call, signals);
  }

  // ---------- A client registered twice ----------

  /** Positions `j` and `m` of the list belong to one client. */
  predicate Repeats(infos: seq<ApiInfo>, j: nat, m: nat) {
    j < m < |infos| && infos[j].clientId == infos[m].clientId
  }

  lemma {:induction false} WalkSticks(infos: seq<ApiInfo>, caller: ClientId, call: Call, i: nat,
                                      signals: seq<ResponseKind>, j: nat, m: nat)
    requires Repeats(infos, j, m) && i <= m && Answer(signals) == []
    ensures FinalsIn(Walk(infos, caller, call, Offered(i), signals)) == []
    ensures forall k :: k in OffersIn(Walk(infos, caller, call, Offered(i), signals)) ==> k in Clients(infos[..m + 1])
    decreases |signals|
  {
    if signals != [] {
      var (p, sent) := Advance(infos, caller, call, Offered(i), signals[0]);
      AdvanceSticks(infos, caller, call, i, signals[0], j, m);
      WalkSticks(infos, caller, call, p.index, signals[1..], j, m);
      var rest := Walk(infos, caller, call, p, signals[1..]);
      FlatMapConcat(sent, rest, OfferedTo);
      FlatMapConcat(sent, rest, FinalIn);
      assert OffersIn(Walk(infos, caller, call, Offered(i), signals)) == OffersIn(sent) + OffersIn(rest);
    }
  }

  lemma AdvanceSticks(infos: seq<ApiInfo>, caller: ClientId, call: Call, i: nat, kind: ResponseKind, j: nat, m: nat)
    requires Repeats(infos, j, m) && i <= m && Answer([kind]) == []
    ensures var (p, sent) := Advance(infos, caller, call, Offered(i), kind);
            && p.Offered? && p.index <= m && FinalsIn(sent) == []
            && forall k :: k in OffersIn(sent) ==> k in Clients(infos[..m + 1])
  {
    var (p, sent) := Advance(infos, caller, call, Offered(i), kind);
    var first := FirstIndex(infos, infos[i].clientId);
    assert first <= i && (i == m ==> first <= j);
    FlatMapAppend([], sent[0], OfferedTo);
    FlatMapAppend([], sent[0], FinalIn);
    assert [] + [sent[0]] == sent;
    assert Clients(infos[..m + 1])[p.index] == infos[p.index].clientId;
  }

  /**
   When a call runs out of handlers: as long as every handler refuses, the caller is told
   `NotHandled` if and only if the clients in the list are distinct and there were at least as many
   refusals as handlers. A client registered twice makes the chain stick for good.
   */
  lemma ExhaustedIffDistinct(past: seq<S.Command>, s: S.State, caller: ClientId, call: Call,
                             commands: seq<S.Command>, sent: seq<SendData>)
    requires Dispatches(past, s, caller, call, commands, sent)
    requires Answer(Signals(call.context, commands)) == []
    ensures var handlers := Clients(Infos(s.apiTable, call.function_));
            NotHandled in FinalsIn(Traffic(call.context, sent)) <==>
            Distinct(handlers) && |handlers| <= Refusals(Signals(call.context, commands))
  {
    var infos, signals := Infos(s.apiTable, call.function_), Signals(call.context, commands);
    if Distinct(Clients(infos)) {
      RepliesInOrder(past, s, caller, call, commands, sent);
      assert Times(1, RpcResult.NotHandled)[0] == NotHandled;
      assert |infos| <= Refusals(signals) ==> FinalsIn(Traffic(call.context, sent))[0] == NotHandled;
    } else {
      var j, m :| 0 <= j < m < |infos| && Clients(infos)[j] == Clients(infos)[m];
      DispatchIsWalk(past, s, caller, call, commands, sent);
      WalkSticks(infos, caller, call, 0, signals, j, m);
      FirstOffer(infos[0].clientId, call, Walk(infos, caller, call, Offered(0), signals));
    }
  }

  /**
   Without assuming anything about the list: one refusal ends the chain if and only if the refusing
   client has left the list, or its first entry is the last one. Handlers left over are skipped.
   */
  lemma RefusalEndsChainIff(s: S.State, c: string)
    requires c in s.runningRpcs
    ensures var rpc := s.runningRpcs[c];
            var handlers := Clients(Infos(s.apiTable, rpc.rpcCall.function_));
            S.OnRpcResponse(s, Response(c, Last(NotHandled))) == S.Proceed(s, [LastTo(rpc.caller,
                rpc.rpcCall.context, NotHandled)])
            <==> handlers == [] || rpc.callee !in DropLast(handlers)
  {
    var rpc := s.runningRpcs[c];
    var infos := Infos(s.apiTable, rpc.rpcCall.function_);
    var handlers, first := Clients(infos), FirstIndex(infos, rpc.callee);
    GetNextFollowsFirst(s.apiTable, rpc.rpcCall.function_, rpc.callee);
    if first + 1 < |infos| {
      assert DropLast(handlers)[first] == rpc.callee;
    } else {
      assert forall j :: 0 <= j < |handlers| - 1 ==> infos[j].clientId != rpc.callee;
    }
  }

  // ---------- Cancelling ----------

  /** Where the walk stands after the signals. */
  function After(infos: seq<ApiInfo>, caller: ClientId, call: Call, p: Position,
      signals: seq<ResponseKind>): (q: Position)
    requires p.Offered? ==> p.index < |infos|
    ensures q.Offered? ==> q.index < |infos|
    decreases |signals|
  {
    if signals == [] then p
    else After(infos, caller, call, Advance(infos, caller, call, p, signals[0]).0, signals[1..])
  }

  lemma {:induction false} HandlingStands(s: S.State, commands: seq<S.Command>, s': S.State, sent: seq<SendData>,
                                          infos: seq<ApiInfo>, caller: ClientId, call: Call, p: Position)
    requires Stands(s, infos, caller, call, p) && Handling(s, commands, s', sent)
    requires forall i :: 0 <= i < |commands| ==> Calm(commands[i], infos, caller, call)
    ensures Stands(s', infos, caller, call, After(infos, caller, call, p, Signals(call.context, commands)))
    decreases |commands|
  {
    hide Calm, Advance;
    if commands != [] {
      var c, command := call.context, commands[0];
      var o, rest :| S.Handles(s, command, o) && Handling(o.state, commands[1..], s', rest)
                     && sent == o.sent + rest;
      SignalsFirst(c, commands);
      if Signal(c, command) == [] {
        OtherStep(s, command, o, infos, caller, call, p);
        HandlingStands(o.state, commands[1..], s', rest, infos, caller, call, p);
      } else {
        var kind := Signal(c, command)[0];
        SignalStep(s, o, infos, caller, call, p, kind);
        var (p', _) := Advance(infos, caller, call, p, kind);
        assert ([kind] + Signals(c, commands[1..]))[1..] == Signals(c, commands[1..]);
        HandlingStands(o.state, commands[1..], s', rest, infos, caller, call, p');
      }
    }
  }

  /** The walk stands at the client it made the last offer to, until there is an answer. */
  lemma {:induction false} StandsAtLastOffer(infos: seq<ApiInfo>, caller: ClientId, call: Call, i: nat,
      signals: seq<ResponseKind>)
    requires i < |infos|
    ensures var q := After(infos, caller, call, Offered(i), signals);
            && (q.Answered? <==> Answer(signals) != [])
            && (q.Offered? ==> LastOf([infos[i].clientId] + OffersIn(Walk(infos, caller, call, Offered(i), signals)))
                               == infos[q.index].clientId)
    decreases |signals|
  {
    if signals != [] {
      hide FlatMap, Advance;
      var (p, sent) := Advance(infos, caller, call, Offered(i), signals[0]);
      var rest := Walk(infos, caller, call, p, signals[1..]);
      AdvanceOffers(infos, caller, call, i, signals[0]);
      match p
      case Answered => AnsweredStays(infos, caller, call, signals[1..]);
      case Offered(next) =>
        StandsAtLastOffer(infos, caller, call, next, signals[1..]);
        FlatMapConcat(sent, rest, OfferedTo);
        LastOfBoth(infos[i].clientId, OffersIn(sent), infos[next].clientId, OffersIn(rest));
    }
  }

  /** An offer is the only thing that moves the walk, and it goes to where the walk then stands. */
  lemma AdvanceOffers(infos: seq<ApiInfo>, caller: ClientId, call: Call, i: nat, kind: ResponseKind)
    requires i < |infos|
    ensures var (p, sent) := Advance(infos, caller, call, Offered(i), kind);
            && (p.Answered? <==> kind.Last? && kind != Last(NotHandled))
            && (p.Offered? ==> p.index < |infos|
                               && LastOf([infos[i].clientId] + OffersIn(sent)) == infos[p.index].clientId)
  {
    var (_, sent) := Advance(infos, caller, call, Offered(i), kind);
    FlatMapAppend([], sent[0], OfferedTo);
    assert [] + [sent[0]] == sent;
  }

  lemma LastOfBoth<T>(a: T, x: seq<T>, b: T, y: seq<T>)
    requires LastOf([a] + x) == b
    ensures LastOf([a] + (x + y)) == LastOf([b] + y)
  {
  }

  lemma {:induction false} AnsweredStays(infos: seq<ApiInfo>, caller: ClientId, call: Call, signals: seq<ResponseKind>)
    ensures After(infos, caller, call, Answered, signals) == Answered
    decreases |signals|
  {
    if signals != [] {
      AnsweredStays(infos, caller, call, signals[1..]);
    }
  }

  /**
   A cancellation, at any moment of a call, goes to just the client the call was offered to last; once
   the call is answered it goes nowhere. It leaves the call as it is.
   */
  lemma CancelReachesWorking(past: seq<S.Command>, s: S.State, caller: ClientId, call: Call,
                             commands: seq<S.Command>, s': S.State, sent: seq<SendData>)
    requires Dispatches(past, s, caller, call, commands, sent)
    requires Handling(s, [S.RpcCall(caller, call)] + commands, s', sent)
    ensures var offers := OffersIn(Traffic(call.context, sent));
            && offers != []
            && S.Handled(s', S.RpcCancel(call.context)) == S.Proceed(s',
                 if Answer(Signals(call.context, commands)) == [] then [SendData(LastOf(offers),
                     RpcCancel(call.context))] else [])
  {
    var infos, signals := Infos(s.apiTable, call.function_), Signals(call.context, commands);
    var before :| Handling(S.INITIAL_STATE, past, s, before);
    ReachedIsSound(S.INITIAL_STATE, past, s, before);
    var all := [S.RpcCall(caller, call)] + commands;
    var o, rest :| S.Handles(s, all[0], o) && Handling(o.state, all[1..], s', rest) && sent == o.sent + rest;
    assert all[1..] == commands;
    CallStands(s, caller, call, o);
    hide Stands, FlatMap, Walk, After, Answer, Handling, S.Handled, Keyed, WellFormed;
    HandlingStands(o.state, commands, s', rest, infos, caller, call, Offered(0));
    StandsAtLastOffer(infos, caller, call, 0, signals);
    DispatchIsWalk(past, s, caller, call, commands, sent);
    var walk := Walk(infos, caller, call, Offered(0), signals);
    FirstOffer(infos[0].clientId, call, walk);
    StandingCancels(s', infos, caller, call, After(infos, caller, call, Offered(0), signals));
  }

  lemma StandingCancels(s: S.State, infos: seq<ApiInfo>, caller: ClientId, call: Call, p: Position)
    requires Stands(s, infos, caller, call, p)
    ensures p.Offered? ==> p.index < |infos|
    ensures S.Handled(s, S.RpcCancel(call.context)) ==
            S.Proceed(s, if p.Answered? then [] else [SendData(infos[p.index].clientId, RpcCancel(call.context))])
  {
  }
}
