/** The network's invariant under the turns of the server. */
module NetworkServer {
  import opened Wrappers
  import opened Rpc
  import opened Sequences
  import S = Swiboe
  import A = ApiTables
  import opened CallProtocol
  import opened Network
  import opened NetworkInvariant

  /** What a turn puts on a queue, as far as one context is concerned. */
  function OfferedIn(sent: seq<SendData>, c: string): nat {
    if sent == [] then 0 else |SentOffer(c)(sent[0])|
  }

  function ForwardedIn(sent: seq<SendData>, c: string): seq<ResponseKind> {
    if sent == [] then [] else SentForward(c)(sent[0])
  }

  /** One command is taken from the inbox, at most one message and one command come of it. */
  ghost predicate CanServe(s: System, o: S.Outcome, c: string) {
    && s.inbox != [] && |o.sent| <= 1 && |o.enqueued| <= 1
    && (o.enqueued != [] ==> !Concerns(o.enqueued[0], c) && !o.enqueued[0].RpcCall?)
  }

  lemma InboxTurns<U>(q: seq<S.Command>, enqueued: seq<S.Command>, f: S.Command -> seq<U>)
    requires q != [] && |enqueued| <= 1 && (enqueued != [] ==> f(enqueued[0]) == [])
    ensures FlatMap(q, f) == f(q[0]) + FlatMap(q[1..] + enqueued, f)
  {
    if enqueued == [] {
      assert q[1..] + enqueued == q[1..];
    } else {
      assert enqueued == [enqueued[0]];
      FlatMapIgnore(q[1..], enqueued[0], f);
    }
  }

  lemma BridgeTurns(q: seq<SendData>, sent: seq<SendData>, c: string)
    requires |sent| <= 1
    ensures FlatMap(q + sent, SentForward(c)) == FlatMap(q, SentForward(c)) + ForwardedIn(sent, c)
    ensures |FlatMap(q + sent, SentOffer(c))| == |FlatMap(q, SentOffer(c))| + OfferedIn(sent, c)
  {
    if sent == [] {
      assert q + sent == q;
    } else {
      assert sent == [sent[0]];
      FlatMapAppend(q, sent[0], SentForward(c));
      FlatMapAppend(q, sent[0], SentOffer(c));
    }
  }

  lemma TurnCounts(s: System, o: S.Outcome, c: string)
    requires CanServe(s, o, c)
    ensures var s', x := ServerTurned(s, o), s.inbox[0];
      && Sent(s.up, s.inbox, c) == Sent(s'.up, s'.inbox, c) + |InboxCall(c)(x)|
      && Offers(s'.inbox, s'.bridge, s'.down, s'.loopQueue, c) + |InboxBounce(c)(x)|
           == Offers(s.inbox, s.bridge, s.down, s.loopQueue, c) + OfferedIn(o.sent, c)
  {
    InboxTurns(s.inbox, o.enqueued, InboxCall(c));
    InboxTurns(s.inbox, o.enqueued, InboxBounce(c));
    BridgeTurns(s.bridge, o.sent, c);
  }

  lemma Prepend<T>(x: seq<T>, rest: seq<T>, a: seq<T>, b: seq<T>)
    ensures (x + rest) + a + b == x + (rest + a + b)
  {
  }

  lemma TurnStreams(s: System, o: S.Outcome, c: string)
    requires CanServe(s, o, c)
    ensures var s', x := ServerTurned(s, o), s.inbox[0];
      && Upstream(s.inbox, s.up, s.loopQueue, c) == InboxResponse(c)(x) + Upstream(s'.inbox, s'.up, s'.loopQueue, c)
      && Waiting(s'.bridge, c) == Waiting(s.bridge, c) + ForwardedIn(o.sent, c)
  {
    var a, b := FlatMap(s.up, UpResponse(c)), FlatMap(s.loopQueue, LoopResponse(c));
    var x, rest := InboxResponse(c)(s.inbox[0]), FlatMap(s.inbox[1..] + o.enqueued, InboxResponse(c));
    InboxTurns(s.inbox, o.enqueued, InboxResponse(c));
    BridgeTurns(s.bridge, o.sent, c);
    Prepend(x, rest, a, b);
  }

  /** How a turn changes what concerns one context. */
  function Served(core: Core, x: S.Command, sent: seq<SendData>, entry: Option<S.RunningRpc>, c: string): Core
    requires |InboxCall(c)(x)| <= core.sent && |InboxResponse(c)(x)| <= |core.up|
    requires |InboxBounce(c)(x)| <= core.offers + OfferedIn(sent, c)
  {
    var core' := core.(sent := core.sent - |InboxCall(c)(x)|,
                       offers := core.offers + OfferedIn(sent, c) - |InboxBounce(c)(x)|,
                       up := core.up[|InboxResponse(c)(x)|..], entry := entry);
    if ForwardedIn(sent, c) == [] then core' else Forwarded(core', ForwardedIn(sent, c)[0])
  }

  lemma ServedBounds(s: System, o: S.Outcome, c: string)
    requires CanServe(s, o, c)
    ensures var core, x := CoreOf(s, c), s.inbox[0];
      && |InboxCall(c)(x)| <= core.sent && |InboxResponse(c)(x)| <= |core.up|
      && |InboxBounce(c)(x)| <= core.offers
      && InboxResponse(c)(x) <= core.up
      && core.up[|InboxResponse(c)(x)|..] == Upstream(ServerTurned(s, o).inbox, s.up, s.loopQueue, c)
  {
    TurnCounts(s, o, c);
    TurnStreams(s, o, c);
    BounceCounted(s, o, c);
  }

  lemma ServedCore(s: System, o: S.Outcome, c: string)
    requires CanServe(s, o, c)
    ensures var core, x := CoreOf(s, c), s.inbox[0];
      && |InboxCall(c)(x)| <= core.sent && |InboxResponse(c)(x)| <= |core.up|
      && |InboxBounce(c)(x)| <= core.offers
      && CoreOf(ServerTurned(s, o), c) == Served(core, x, o.sent, EntryOf(o.state, c), c)
  {
    hide FlatMap;
    var s', k := ServerTurned(s, o), CallerOf(s.callers, c);
    ServedBounds(s, o, c);
    TurnCounts(s, o, c);
    TurnStreams(s, o, c);
    ForwardAssembled(c, k, k in s.live, c in s.callers ==> RegisteredAt(s.loops, k, c),
                     Unsent(s.loopQueue, c), Sent(s'.up, s'.inbox, c),
                     Offers(s'.inbox, s'.bridge, s'.down, s'.loopQueue, c),
                     Upstream(s'.inbox, s'.up, s'.loopQueue, c), FrontOf(s, c), Waiting(s.bridge, c),
                     ForwardedIn(o.sent, c), Procs(s.callees, s.log, c), EntryOf(o.state, c));
  }

  lemma ForwardAssembled(c: string, k: ClientId, live: bool, registered: bool, unsent: nat, sent: nat, offers: nat,
                         up: seq<ResponseKind>, front: seq<ResponseKind>, waiting: seq<ResponseKind>,
                         more: seq<ResponseKind>, procs: ProcPart, entry: Option<S.RunningRpc>)
    requires |more| <= 1
    ensures var core := Assemble(c, k, live, registered, unsent, sent, offers, up, front, waiting, procs, entry);
      Assemble(c, k, live, registered, unsent, sent, offers, up, front, waiting + more, procs, entry) ==
        if more == [] then core else Forwarded(core, more[0])
  {
    ForwardAdds(front, waiting, more);
    if more == [] {
      assert waiting + more == waiting;
    } else {
      assert more == [more[0]];
    }
  }

  lemma BounceCounted(s: System, o: S.Outcome, c: string)
    requires CanServe(s, o, c)
    ensures |InboxBounce(c)(s.inbox[0])| <= Offers(s.inbox, s.bridge, s.down, s.loopQueue, c)
  {
    InboxTurns(s.inbox, o.enqueued, InboxBounce(c));
  }

  lemma ForwardAdds(front: seq<ResponseKind>, waiting: seq<ResponseKind>, more: seq<ResponseKind>)
    ensures front + (waiting + more) == (front + waiting) + more
    ensures Lasts(front + (waiting + more)) == Lasts(front + waiting) + Lasts(more)
  {
    assert front + (waiting + more) == (front + waiting) + more;
    PartialsConcat(front + waiting, more);
  }

  // ---------- What the server's turn does to one call ----------

  /** The context's core agrees with the server's state, and the command with who sent it. */
  ghost predicate Agrees(core: Core, server: S.State, x: S.Command, c: string) {
    && core.context == c && core.entry == EntryOf(server, c)
    && |InboxCall(c)(x)| <= core.sent && |InboxResponse(c)(x)| <= |core.up| && |InboxBounce(c)(x)| <= core.offers
    && InboxResponse(c)(x) <= core.up
    && (InboxCall(c)(x) != [] ==> x.caller == core.caller)
    && (x.ClientDisconnected? && x.clientId == core.caller ==> !core.live)
    && (forall d :: d in server.runningRpcs ==> server.runningRpcs[d].rpcCall.context == d)
  }

  lemma ServeCall(core: Core, server: S.State, x: S.Command, c: string)
    requires CoreInv(core) && Agrees(core, server, x, c) && InboxCall(c)(x) != []
    ensures var o := S.Handled(server, x);
            CoreInv(Served(core, x, o.sent, EntryOf(o.state, c), c))
  {
    ServedCall(core, server, x, c);
    if S.IsCore(x.call) {
      match S.CoreCall(x.caller, x.call).0
      case Some(r) => CallAnswered(core, r);
      case None => CallLost(core);
    } else {
      match A.GetFirst(server.apiTable, x.call.function_)
      case Some(info) => CallOffered(core, info.clientId, x.call);
      case None => CallAnswered(core, Err(UnknownRpc, ""));
    }
  }

  lemma ServedCall(core: Core, server: S.State, x: S.Command, c: string)
    requires Agrees(core, server, x, c) && InboxCall(c)(x) != []
    ensures var o, taken := S.Handled(server, x), core.(sent := core.sent - 1);
      Served(core, x, o.sent, EntryOf(o.state, c), c) ==
        if S.IsCore(x.call) then
          match S.CoreCall(x.caller, x.call).0
          case Some(r) => Forwarded(taken, Last(r))
          case None => taken
        else
          match A.GetFirst(server.apiTable, x.call.function_)
          case Some(info) =>
            taken.(offers := core.offers + 1, entry := Some(S.RunningRpc(core.caller, info.clientId, x.call)))
          case None => Forwarded(taken, Last(Err(UnknownRpc, "")))
  {
  }

  lemma ServeResponse(core: Core, server: S.State, x: S.Command, c: string)
    requires CoreInv(core) && Agrees(core, server, x, c) && InboxResponse(c)(x) != []
    ensures var o := S.Handled(server, x);
            CoreInv(Served(core, x, o.sent, EntryOf(o.state, c), c))
  {
    assert core.up[0] == x.response.kind;
    if core.entry.None? {
      ResponseUnknown(core);
    } else if x.response.kind == Last(NotHandled) {
      ServeRefusal(core, server, x, c);
    } else {
      ServedAnswer(core, server, x, c);
      if x.response.kind.Partial? {
        PartialForwarded(core);
      } else {
        AnswerForwarded(core);
      }
    }
  }

  lemma ServedAnswer(core: Core, server: S.State, x: S.Command, c: string)
    requires Agrees(core, server, x, c) && InboxResponse(c)(x) != []
    requires core.entry.Some? && EntryInv(core) && x.response.kind != Last(NotHandled)
    ensures var o, kind := S.Handled(server, x), x.response.kind;
      Served(core, x, o.sent, EntryOf(o.state, c), c) ==
        Forwarded(core.(up := core.up[1..], entry := if kind.Partial? then core.entry else None), kind)
  {
  }

  lemma ServeRefusal(core: Core, server: S.State, x: S.Command, c: string)
    requires CoreInv(core) && Agrees(core, server, x, c) && InboxResponse(c)(x) != []
    requires core.entry.Some? && x.response.kind == core.up[0] == Last(NotHandled)
    ensures var o := S.Handled(server, x);
            CoreInv(Served(core, x, o.sent, EntryOf(o.state, c), c))
  {
    ServedRefusal(core, server, x, c);
    match A.GetNext(server.apiTable, core.entry.value.rpcCall.function_, core.entry.value.callee)
    case Some(info) => RefusalPassedOn(core, info.clientId);
    case None => RefusalForwarded(core);
  }

  lemma ServedRefusal(core: Core, server: S.State, x: S.Command, c: string)
    requires Agrees(core, server, x, c) && InboxResponse(c)(x) != []
    requires core.entry.Some? && EntryInv(core) && x.response.kind == Last(NotHandled)
    ensures var o := S.Handled(server, x);
      Served(core, x, o.sent, EntryOf(o.state, c), c) ==
        match A.GetNext(server.apiTable, core.entry.value.rpcCall.function_, core.entry.value.callee)
        case Some(info) =>
          core.(up := core.up[1..], entry := Some(core.entry.value.(callee := info.clientId)),
              offers := core.offers + 1)
        case None => Forwarded(core.(up := core.up[1..]), Last(NotHandled))
  {
  }

  lemma ServeBounce(core: Core, server: S.State, x: S.Command, c: string)
    requires CoreInv(core) && Agrees(core, server, x, c) && InboxBounce(c)(x) != []
    ensures var o := S.Handled(server, x);
            CoreInv(Served(core, x, o.sent, EntryOf(o.state, c), c))
  {
    ServedBounce(core, server, x, c);
    if core.entry.None? {
      OfferDropped(core);
    } else {
      match A.GetNext(server.apiTable, core.entry.value.rpcCall.function_, core.entry.value.callee)
      case Some(info) => BouncePassedOn(core, info.clientId);
      case None => BounceExhausted(core);
    }
  }

  lemma ServedBounce(core: Core, server: S.State, x: S.Command, c: string)
    requires Agrees(core, server, x, c) && InboxBounce(c)(x) != [] && EntryInv(core)
    ensures var o := S.Handled(server, x);
      Served(core, x, o.sent, EntryOf(o.state, c), c) ==
        if core.entry.None? then core.(offers := core.offers - 1)
        else
          match A.GetNext(server.apiTable, core.entry.value.rpcCall.function_, core.entry.value.callee)
          case Some(info) => core.(entry := Some(core.entry.value.(callee := info.clientId)))
          case None => Forwarded(core.(offers := core.offers - 1), Last(NotHandled))
  {
  }

  /** Commands about other contexts reach no queue on behalf of this one. */
  lemma ElsewhereSilent(server: S.State, x: S.Command, o: S.Outcome, c: string)
    requires !Concerns(x, c) && S.Handles(server, x, o)
    requires forall d :: d in server.runningRpcs ==> server.runningRpcs[d].rpcCall.context == d
    ensures OfferedIn(o.sent, c) == 0 && ForwardedIn(o.sent, c) == []
    ensures EntryOf(o.state, c) == EntryOf(server, c)
         || (x.ClientDisconnected? && c in server.runningRpcs && server.runningRpcs[c].caller == x.clientId
             && EntryOf(o.state, c) == None)
  {
  }

  lemma ServeElsewhere(core: Core, server: S.State, x: S.Command, o: S.Outcome, c: string)
    requires CoreInv(core) && Agrees(core, server, x, c) && !Concerns(x, c) && S.Handles(server, x, o)
    ensures OfferedIn(o.sent, c) == 0
    ensures CoreInv(Served(core, x, o.sent, EntryOf(o.state, c), c))
  {
    ElsewhereSilent(server, x, o, c);
    assert core.up[0..] == core.up;
    if EntryOf(o.state, c) != core.entry {
      EntryDropped(core);
    }
  }

  lemma HandlesShape(server: S.State, x: S.Command, o: S.Outcome)
    requires S.Handles(server, x, o)
    ensures |o.sent| <= 1 && |o.enqueued| <= 1
    ensures o.enqueued != [] ==> o.enqueued[0].Quit? || o.enqueued[0].NewRpc?
  {
  }

  lemma ServeKeepsCore(core: Core, server: S.State, x: S.Command, o: S.Outcome, c: string)
    requires CoreInv(core) && Agrees(core, server, x, c) && S.Handles(server, x, o)
    ensures CoreInv(Served(core, x, o.sent, EntryOf(o.state, c), c))
  {
    if InboxCall(c)(x) != [] {
      ServeCall(core, server, x, c);
    } else if InboxResponse(c)(x) != [] {
      ServeResponse(core, server, x, c);
    } else if InboxBounce(c)(x) != [] {
      ServeBounce(core, server, x, c);
    } else {
      ServeElsewhere(core, server, x, o, c);
    }
  }

  // ---------- The step ----------

  ghost predicate Serves(s: System, o: S.Outcome) {
    s.inbox != [] && S.Handles(s.server, s.inbox[0], o)
  }

  /** Nothing is forwarded to anyone but the caller. */
  lemma ForwardsToCaller(server: S.State, x: S.Command, o: S.Outcome, c: string, k: ClientId)
    requires S.Handles(server, x, o) && ForwardedIn(o.sent, c) != []
    requires InboxCall(c)(x) != [] ==> x.caller == k
    requires c in server.runningRpcs ==> server.runningRpcs[c].caller == k
    requires forall d :: d in server.runningRpcs ==> server.runningRpcs[d].rpcCall.context == d
    ensures o.sent[0].receiver == k
  {
  }

  lemma ServeTags(s: System, o: S.Outcome, c: string)
    requires CanServe(s, o, c) && Tags(s, c)
    requires ForwardedIn(o.sent, c) != [] ==> o.sent[0].receiver == CallerOf(s.callers, c)
    ensures Tags(ServerTurned(s, o), c)
  {
    var s' := ServerTurned(s, o);
    assert forall i :: 0 <= i < |s'.inbox| ==>
      (i < |s.inbox| - 1 && s'.inbox[i] == s.inbox[i + 1]) || s'.inbox[i] in o.enqueued;
    assert forall i :: 0 <= i < |s'.bridge| ==>
      (i < |s.bridge| && s'.bridge[i] == s.bridge[i]) || s'.bridge[i] in o.sent;
  }

  /** Commands about an unheard context do not occur. */
  lemma ServeUnheard(core: Core, server: S.State, x: S.Command, o: S.Outcome, c: string)
    requires Unheard(core, []) && Agrees(core, server, x, c) && S.Handles(server, x, o)
    ensures OfferedIn(o.sent, c) == 0 && ForwardedIn(o.sent, c) == []
    ensures Served(core, x, o.sent, EntryOf(o.state, c), c) == core
  {
    assert !Concerns(x, c);
    ElsewhereSilent(server, x, o, c);
  }

  lemma ServerAgrees(s: System, o: S.Outcome, c: string)
    requires Sane(s) && CallerTags(s, c, CallerOf(s.callers, c)) && Serves(s, o)
    ensures CanServe(s, o, c) && Agrees(CoreOf(s, c), s.server, s.inbox[0], c)
  {
    HandlesShape(s.server, s.inbox[0], o);
    ServedBounds(s, o, c);
  }

  lemma ServerCoreKeeps(s: System, o: S.Outcome, c: string)
    requires CanServe(s, o, c) && Agrees(CoreOf(s, c), s.server, s.inbox[0], c) && Serves(s, o)
    requires CoreInv(CoreOf(s, c))
    ensures CoreInv(CoreOf(ServerTurned(s, o), c))
  {
    ServedCore(s, o, c);
    ServeKeepsCore(CoreOf(s, c), s.server, s.inbox[0], o, c);
  }

  lemma ServerTagsKeep(s: System, o: S.Outcome, c: string)
    requires CanServe(s, o, c) && Agrees(CoreOf(s, c), s.server, s.inbox[0], c) && Serves(s, o)
    requires Tags(s, c) && EntryInv(CoreOf(s, c))
    ensures Tags(ServerTurned(s, o), c)
  {
    if ForwardedIn(o.sent, c) != [] {
      ForwardsToCaller(s.server, s.inbox[0], o, c, CallerOf(s.callers, c));
    }
    ServeTags(s, o, c);
  }

  lemma ServerUnheardKeeps(s: System, o: S.Outcome, c: string)
    requires CanServe(s, o, c) && Agrees(CoreOf(s, c), s.server, s.inbox[0], c) && Serves(s, o)
    requires Unheard(CoreOf(s, c), Waiting(s.bridge, c))
    ensures Unheard(CoreOf(ServerTurned(s, o), c), Waiting(ServerTurned(s, o).bridge, c))
  {
    ServeUnheard(CoreOf(s, c), s.server, s.inbox[0], o, c);
    ServedCore(s, o, c);
    TurnStreams(s, o, c);
  }

  lemma ServerTurnsKeeps(s: System, o: S.Outcome, c: string)
    requires Sane(s) && Good(s, c) && Serves(s, o)
    ensures Good(ServerTurned(s, o), c)
  {
    ServerAgrees(s, o, c);
    ServerCoreKeeps(s, o, c);
    ServerTagsKeep(s, o, c);
    if c !in s.callers {
      ServerUnheardKeeps(s, o, c);
    } else {
      Advanced(ServerTurned(s, o), c);
    }
  }
}
