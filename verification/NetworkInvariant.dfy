/**
 The network's invariant: for every context, what is spread over the queues satisfies the
 invariant of one call. Each step is shown to be a transition of `CallProtocol` for every
 context.
 */
module NetworkInvariant {
  import opened Wrappers
  import opened Rpc
  import opened Sequences
  import S = Swiboe
  import L = RpcLoop
  import C = CalleeContext
  import opened CallProtocol
  import opened Network

  // ---------- What one queue element says about context `c` ----------

  function LoopCall(c: string): LoopItem -> seq<ClientId> {
    (x: LoopItem) =>
      if x.command.OutgoingCall? && x.command.message.RpcCall? && x.command.message.call.context == c
      then [x.client] else []
  }

  function LoopOffer(c: string): LoopItem -> seq<ClientId> {
    (x: LoopItem) =>
      if x.command.Received? && x.command.message.RpcCall? && x.command.message.call.context == c
      then [x.client] else []
  }

  function LoopResponse(c: string): LoopItem -> seq<ResponseKind> {
    (x: LoopItem) =>
      if x.command.Send? && x.command.message.RpcResponse? && x.command.message.response.context == c
      then [x.command.message.response.kind] else []
  }

  function LoopForward(c: string): LoopItem -> seq<ResponseKind> {
    (x: LoopItem) =>
      if x.command.Received? && x.command.message.RpcResponse? && x.command.message.response.context == c
      then [x.command.message.response.kind] else []
  }

  function UpCall(c: string): UpItem -> seq<ClientId> {
    (x: UpItem) => if x.message.RpcCall? && x.message.call.context == c then [x.client] else []
  }

  function UpResponse(c: string): UpItem -> seq<ResponseKind> {
    (x: UpItem) =>
      if x.message.RpcResponse? && x.message.response.context == c then [x.message.response.kind] else []
  }

  function InboxCall(c: string): S.Command -> seq<ClientId> {
    (x: S.Command) => if x.RpcCall? && x.call.context == c then [x.caller] else []
  }

  function InboxBounce(c: string): S.Command -> seq<ClientId> {
    (x: S.Command) =>
      if x.SendDataFailed? && x.message.RpcCall? && x.message.call.context == c then [x.clientId] else []
  }

  function InboxResponse(c: string): S.Command -> seq<ResponseKind> {
    (x: S.Command) => if x.RpcResponse? && x.response.context == c then [x.response.kind] else []
  }

  function SentOffer(c: string): SendData -> seq<ClientId> {
    (x: SendData) => if x.message.RpcCall? && x.message.call.context == c then [x.receiver] else []
  }

  function SentForward(c: string): SendData -> seq<ResponseKind> {
    (x: SendData) =>
      if x.message.RpcResponse? && x.message.response.context == c then [x.message.response.kind] else []
  }

  function LogEmission(c: string): LogEntry -> seq<Emission> {
    (x: LogEntry) => if x.context == c then [x.emission] else []
  }

  // ---------- One call, put together from all queues ----------

  function Upstream(inbox: seq<S.Command>, up: seq<UpItem>, loopQueue: seq<LoopItem>, c: string): seq<ResponseKind> {
    FlatMap(inbox, InboxResponse(c)) + FlatMap(up, UpResponse(c)) + FlatMap(loopQueue, LoopResponse(c))
  }

  function Received(callers: map<string, Caller>, c: string): seq<ResponseKind> {
    if c in callers then callers[c].delivered else []
  }

  /** What the caller has received or can receive without the bridge. */
  function Front(received: seq<ResponseKind>, loopQueue: seq<LoopItem>, down: seq<SendData>,
      c: string): seq<ResponseKind> {
    received + FlatMap(loopQueue, LoopForward(c)) + FlatMap(down, SentForward(c))
  }

  function Offers(inbox: seq<S.Command>, bridge: seq<SendData>, down: seq<SendData>, loopQueue: seq<LoopItem>,
                  c: string): nat {
    |FlatMap(bridge, SentOffer(c))| + |FlatMap(down, SentOffer(c))|
    + |FlatMap(loopQueue, LoopOffer(c))| + |FlatMap(inbox, InboxBounce(c))|
  }

  function AliveFor(callees: seq<Callee>, c: string): map<nat, ClientId> {
    map i: nat | i < |callees| && callees[i].context == c && callees[i].state.Alive? :: callees[i].client
  }

  function Procs(callees: seq<Callee>, log: seq<LogEntry>, c: string): ProcPart {
    ProcPart(AliveFor(callees, c), FlatMap(log, LogEmission(c)), |callees|)
  }

  function EntryOf(server: S.State, c: string): Option<S.RunningRpc> {
    if c in server.runningRpcs then Some(server.runningRpcs[c]) else None
  }

  /** The client that made the call; contexts nobody has used get an identity nobody has. */
  function CallerOf(callers: map<string, Caller>, c: string): ClientId {
    if c in callers then callers[c].client else ClientId(0, 0)
  }

  predicate RegisteredAt(loops: map<ClientId, Loop>, k: ClientId, c: string) {
    k in loops && c in loops[k].state.runningFunctionCalls
  }

  function Assemble(c: string, k: ClientId, live: bool, registered: bool, unsent: nat, sent: nat, offers: nat,
                    up: seq<ResponseKind>, front: seq<ResponseKind>, waiting: seq<ResponseKind>,
                    procs: ProcPart, entry: Option<S.RunningRpc>): Core {
    Core(c, k, unsent, sent, offers, up,
         if live then front + waiting else front, Lasts(front + waiting), procs, entry, live, registered)
  }

  function Unsent(loopQueue: seq<LoopItem>, c: string): nat {
    |FlatMap(loopQueue, LoopCall(c))|
  }

  function Sent(up: seq<UpItem>, inbox: seq<S.Command>, c: string): nat {
    |FlatMap(up, UpCall(c))| + |FlatMap(inbox, InboxCall(c))|
  }

  function Waiting(bridge: seq<SendData>, c: string): seq<ResponseKind> {
    FlatMap(bridge, SentForward(c))
  }

  function FrontOf(s: System, c: string): seq<ResponseKind> {
    Front(Received(s.callers, c), s.loopQueue, s.down, c)
  }

  function CoreOf(s: System, c: string): Core {
    var k := CallerOf(s.callers, c);
    Assemble(c, k, k in s.live, c in s.callers ==> RegisteredAt(s.loops, k, c),
             Unsent(s.loopQueue, c), Sent(s.up, s.inbox, c),
             Offers(s.inbox, s.bridge, s.down, s.loopQueue, c),
             Upstream(s.inbox, s.up, s.loopQueue, c),
             FrontOf(s, c), Waiting(s.bridge, c),
             Procs(s.callees, s.log, c), EntryOf(s.server, c))
  }

  // ---------- Who is concerned ----------

  ghost predicate LoopOnly<U>(q: seq<LoopItem>, f: LoopItem -> seq<U>, k: ClientId) {
    forall i :: 0 <= i < |q| && f(q[i]) != [] ==> q[i].client == k
  }

  ghost predicate UpOnly<U>(q: seq<UpItem>, f: UpItem -> seq<U>, k: ClientId) {
    forall i :: 0 <= i < |q| && f(q[i]) != [] ==> q[i].client == k
  }

  ghost predicate InboxOnly(q: seq<S.Command>, c: string, k: ClientId) {
    forall i :: 0 <= i < |q| && q[i].RpcCall? && q[i].call.context == c ==> q[i].caller == k
  }

  ghost predicate SentOnly(q: seq<SendData>, c: string, k: ClientId) {
    forall i :: 0 <= i < |q| && SentForward(c)(q[i]) != [] ==> q[i].receiver == k
  }

  /** Everything under way from and to the caller carries the caller's identity. */
  ghost predicate CallerTags(s: System, c: string, k: ClientId) {
    && LoopOnly(s.loopQueue, LoopCall(c), k) && UpOnly(s.up, UpCall(c), k) && InboxOnly(s.inbox, c, k)
    && SentOnly(s.bridge, c, k) && SentOnly(s.down, c, k) && LoopOnly(s.loopQueue, LoopForward(c), k)
  }

  /** All responses on their way to the server are from client `w`. */
  ghost predicate AnsweredBy(up: seq<UpItem>, loopQueue: seq<LoopItem>, c: string, w: ClientId) {
    UpOnly(up, UpResponse(c), w) && LoopOnly(loopQueue, LoopResponse(c), w)
  }

  ghost predicate CalleeTags(s: System, c: string) {
    && (exists w :: AnsweredBy(s.up, s.loopQueue, c, w))
    && (forall i :: 0 <= i < |s.callees| && s.callees[i].context == c && s.callees[i].state.Alive? ==>
          AnsweredBy(s.up, s.loopQueue, c, s.callees[i].client))
  }

  /** Nothing has been heard of the context. */
  ghost predicate Unheard(core: Core, waiting: seq<ResponseKind>) {
    && core.unsent == core.sent == core.offers == 0 && core.up == [] && core.reached == [] && waiting == []
    && core.procs.alive == map[] && core.procs.emitted == [] && core.entry.None?
  }

  ghost predicate Good(s: System, c: string) {
    && CoreInv(CoreOf(s, c))
    && CallerTags(s, c, CallerOf(s.callers, c))
    && CalleeTags(s, c)
    && (c !in s.callers ==> Unheard(CoreOf(s, c), Waiting(s.bridge, c)))
  }

  // ---------- What does not depend on a single context ----------

  /** Calls are queued under their own context, and only responses are plainly sent. */
  ghost predicate ItemWellFormed(item: LoopItem) {
    && (item.command.OutgoingCall? ==>
          && item.command.message.RpcCall?
          && item.command.values == item.command.context == item.command.message.call.context)
    && (item.command.Send? ==> item.command.message.RpcResponse?)
  }

  ghost predicate Sane(s: System) {
    && 0 < s.nextSerial
    && (forall i :: 0 <= i < |s.loopQueue| ==> ItemWellFormed(s.loopQueue[i]))
    && (forall k, c :: k in s.loops && c in s.loops[k].state.runningFunctionCalls ==>
          s.loops[k].state.runningFunctionCalls[c] == c)
    && (forall c :: c in s.callers ==> 0 < s.callers[c].client.serial < s.nextSerial && s.callers[c].client in s.loops)
    && (forall k :: k in s.loops ==> 0 < k.serial < s.nextSerial)
    && (forall k :: k in s.live ==> k in s.loops)
    && (forall i :: 0 <= i < |s.inbox| && s.inbox[i].ClientDisconnected? ==>
          s.inbox[i].clientId in s.loops && s.inbox[i].clientId !in s.live)
    && (forall c :: c in s.server.runningRpcs ==> s.server.runningRpcs[c].rpcCall.context == c)
  }

  ghost predicate Tags(s: System, c: string) {
    CallerTags(s, c, CallerOf(s.callers, c)) && CalleeTags(s, c)
  }

  /** A step that leaves everything about the context as it was. */
  lemma Untouched(s: System, s': System, c: string)
    requires Good(s, c)
    requires Tags(s', c)
    requires CoreOf(s', c) == CoreOf(s, c) && Waiting(s'.bridge, c) == Waiting(s.bridge, c)
    requires c in s'.callers <==> c in s.callers
    ensures Good(s', c)
  {
  }

  /** Only a call that was made can be advanced. */
  lemma Advanced(s: System, c: string)
    requires c in s.callers && Tags(s, c) && CoreInv(CoreOf(s, c))
    ensures Good(s, c)
  {
  }

  // ---------- The inbox ----------

  predicate Concerns(x: S.Command, c: string) {
    InboxCall(c)(x) != [] || InboxBounce(c)(x) != [] || InboxResponse(c)(x) != []
  }

  /** A command about something else changes nothing. */
  lemma InboxNews(s: System, x: S.Command, c: string)
    requires !Concerns(x, c)
    ensures Sent(s.up, s.inbox + [x], c) == Sent(s.up, s.inbox, c)
    ensures Offers(s.inbox + [x], s.bridge, s.down, s.loopQueue, c) == Offers(s.inbox, s.bridge, s.down, s.loopQueue, c)
    ensures Upstream(s.inbox + [x], s.up, s.loopQueue, c) == Upstream(s.inbox, s.up, s.loopQueue, c)
  {
    FlatMapIgnore(s.inbox, x, InboxCall(c));
    FlatMapIgnore(s.inbox, x, InboxBounce(c));
    FlatMapIgnore(s.inbox, x, InboxResponse(c));
  }

  // ---------- Clients come and go ----------

  lemma ConnectKeeps(s: System, k: ClientId, c: string)
    requires Sane(s) && Good(s, c) && s.nextSerial <= k.serial
    ensures Good(Connected(s, k), c)
  {
    ConnectCore(s, k, c);
    ConnectTags(s, k, c);
    Untouched(s, Connected(s, k), c);
  }

  lemma ConnectCore(s: System, k: ClientId, c: string)
    requires Sane(s) && s.nextSerial <= k.serial
    ensures CoreOf(Connected(s, k), c) == CoreOf(s, c)
  {
    var s' := Connected(s, k);
    InboxNews(s, S.ClientConnected(k), c);
    assert CallerOf(s.callers, c) != k;
    assert RegisteredAt(s.loops, CallerOf(s.callers, c), c) == RegisteredAt(s'.loops, CallerOf(s.callers, c), c);
  }

  lemma ConnectTags(s: System, k: ClientId, c: string)
    requires Tags(s, c)
    ensures Tags(Connected(s, k), c)
  {
  }

  lemma HangUpKeeps(s: System, k: ClientId, c: string)
    requires Sane(s) && Good(s, c) && k in s.live
    ensures Good(HungUp(s, k), c)
  {
    HangUpCore(s, k, c);
    HangUpTags(s, k, c);
    if k == CallerOf(s.callers, c) {
      assert FrontOf(s, c) <= FrontOf(s, c) + Waiting(s.bridge, c);
      CallerGone(CoreOf(s, c), FrontOf(s, c));
    }
  }

  lemma HangUpCore(s: System, k: ClientId, c: string)
    requires k in s.live
    ensures CoreOf(HungUp(s, k), c) ==
      if k == CallerOf(s.callers, c) then CoreOf(s, c).(live := false, reached := FrontOf(s, c)) else CoreOf(s, c)
  {
    InboxNews(s, S.ClientDisconnected(k), c);
  }

  lemma HangUpTags(s: System, k: ClientId, c: string)
    requires Tags(s, c)
    ensures Tags(HungUp(s, k), c)
  {
  }

  // ---------- The bridge ----------

  lemma BridgeSendsKeeps(s: System, c: string)
    requires Sane(s) && Good(s, c) && s.bridge != []
    ensures Good(BridgeSent(s), c)
  {
    BridgeTags(s, c);
    if SentForward(c)(s.bridge[0]) == [] {
      BridgeNoForward(s, c);
      Untouched(s, BridgeSent(s), c);
    } else {
      BridgeUnheard(s, c);
      if s.bridge[0].receiver in s.live {
        BridgeForward(s, c);
      } else {
        BridgeBounceCore(s, c);
      }
      Advanced(BridgeSent(s), c);
    }
  }

  lemma BridgeBounceCore(s: System, c: string)
    requires CoreInv(CoreOf(s, c)) && s.bridge != [] && SentForward(c)(s.bridge[0]) != []
    requires s.bridge[0].receiver == CallerOf(s.callers, c) && s.bridge[0].receiver !in s.live
    ensures CoreInv(CoreOf(BridgeSent(s), c))
  {
    BridgeBounce(s, c);
    FinalLost(CoreOf(s, c), CoreOf(BridgeSent(s), c).finals);
  }

  lemma BridgeUnheard(s: System, c: string)
    requires Good(s, c) && s.bridge != [] && SentForward(c)(s.bridge[0]) != []
    ensures c in s.callers && s.bridge[0].receiver == CallerOf(s.callers, c)
  {
    assert Waiting(s.bridge, c) != [];
  }

  lemma BridgeTags(s: System, c: string)
    requires Tags(s, c) && s.bridge != []
    ensures Tags(BridgeSent(s), c)
  {
    assert s.bridge[0] in s.bridge;
  }

  /** The bridge takes up something that is not a response to the caller. */
  lemma BridgeNoForward(s: System, c: string)
    requires s.bridge != [] && SentForward(c)(s.bridge[0]) == []
    ensures CoreOf(BridgeSent(s), c) == CoreOf(s, c)
    ensures Waiting(BridgeSent(s).bridge, c) == Waiting(s.bridge, c)
  {
    hide FlatMap;
    var d, s' := s.bridge[0], BridgeSent(s);
    FlatMapSkip(s.bridge, SentForward(c));
    assert Offers(s'.inbox, s'.bridge, s'.down, s'.loopQueue, c) == Offers(s.inbox, s.bridge, s.down, s.loopQueue,
        c) by {
      BridgeOffers(s, c);
    }
    if d.receiver in s.live {
      FlatMapIgnore(s.down, d, SentForward(c));
    } else {
      var bounce := S.SendDataFailed(d.receiver, d.message);
      FlatMapIgnore(s.inbox, bounce, InboxCall(c));
      FlatMapIgnore(s.inbox, bounce, InboxResponse(c));
    }
  }

  lemma BridgeOffers(s: System, c: string)
    requires s.bridge != []
    ensures var s' := BridgeSent(s);
            Offers(s'.inbox, s'.bridge, s'.down, s'.loopQueue, c) == Offers(s.inbox, s.bridge, s.down, s.loopQueue, c)
  {
    var d := s.bridge[0];
    if d.receiver in s.live {
      FlatMapAppend(s.down, d, SentOffer(c));
    } else {
      FlatMapAppend(s.inbox, S.SendDataFailed(d.receiver, d.message), InboxBounce(c));
    }
  }

  lemma BridgeForward(s: System, c: string)
    requires s.bridge != [] && SentForward(c)(s.bridge[0]) != []
    requires s.bridge[0].receiver == CallerOf(s.callers, c) && s.bridge[0].receiver in s.live
    ensures CoreOf(BridgeSent(s), c) == CoreOf(s, c)
  {
    BridgeOffers(s, c);
    ForwardMoves(s, c);
  }

  lemma ForwardMoves(s: System, c: string)
    requires s.bridge != [] && s.bridge[0].receiver in s.live
    ensures var s' := BridgeSent(s);
            FrontOf(s', c) + Waiting(s'.bridge, c) == FrontOf(s, c) + Waiting(s.bridge, c)
  {
    var kind := SentForward(c)(s.bridge[0]);
    var a, b := Received(s.callers, c) + FlatMap(s.loopQueue, LoopForward(c)), FlatMap(s.down, SentForward(c));
    var rest := Waiting(s.bridge[1..], c);
    FlatMapAppend(s.down, s.bridge[0], SentForward(c));
    Regroup(a, b, kind, rest);
  }

  lemma BridgeBounce(s: System, c: string)
    requires s.bridge != [] && SentForward(c)(s.bridge[0]) != []
    requires s.bridge[0].receiver == CallerOf(s.callers, c) && s.bridge[0].receiver !in s.live
    ensures var finals := CoreOf(BridgeSent(s), c).finals;
            && CoreOf(BridgeSent(s), c) == CoreOf(s, c).(finals := finals)
            && Lasts(CoreOf(s, c).reached) <= finals <= CoreOf(s, c).finals
  {
    var d := s.bridge[0];
    var kinds, rest := SentForward(c)(d), Waiting(s.bridge[1..], c);
    BridgeOffers(s, c);
    InboxNews(s, S.SendDataFailed(d.receiver, d.message), c);
    PartialsConcat(FrontOf(s, c), rest);
    PartialsConcat(FrontOf(s, c), kinds + rest);
    PartialsConcat(kinds, rest);
  }

  // ---------- Deliveries ----------

  /** Taking from a queue the first element that concerns the context. */
  lemma SentFirst(q: seq<SendData>, i: nat, c: string, k: ClientId)
    requires FirstSent(q, i) && SentOnly(q, c, k) && SentForward(c)(q[i]) != []
    ensures FlatMap(q, SentForward(c)) == SentForward(c)(q[i]) + FlatMap(Remove(q, i), SentForward(c))
  {
    forall j | 0 <= j < i ensures SentForward(c)(q[j]) == [] {
      assert q[j].receiver != q[i].receiver;
    }
    FlatMapRemoveFirst(q, i, SentForward(c));
  }

  lemma DownArrivesKeeps(s: System, i: nat, c: string)
    requires Sane(s) && Good(s, c) && FirstSent(s.down, i)
    ensures Good(DownArrived(s, i), c)
  {
    DownTags(s, i, c);
    DownCore(s, i, c);
    Untouched(s, DownArrived(s, i), c);
  }

  lemma DownTags(s: System, i: nat, c: string)
    requires Tags(s, c) && FirstSent(s.down, i)
    ensures Tags(DownArrived(s, i), c)
  {
    var w :| AnsweredBy(s.up, s.loopQueue, c, w);
    assert AnsweredBy(s.up, DownArrived(s, i).loopQueue, c, w);
    assert SentForward(c)(s.down[i]) != [] ==> s.down[i].receiver == CallerOf(s.callers, c);
  }

  lemma DownCore(s: System, i: nat, c: string)
    requires Tags(s, c) && FirstSent(s.down, i)
    ensures CoreOf(DownArrived(s, i), c) == CoreOf(s, c)
  {
    var d := s.down[i];
    var item := LoopItem(d.receiver, L.Received(d.message));
    FlatMapIgnore(s.loopQueue, item, LoopCall(c));
    FlatMapIgnore(s.loopQueue, item, LoopResponse(c));
    DownOffers(s, i, c);
    DownFront(s, i, c);
  }

  lemma DownOffers(s: System, i: nat, c: string)
    requires i < |s.down|
    ensures var s' := DownArrived(s, i);
            Offers(s'.inbox, s'.bridge, s'.down, s'.loopQueue, c) == Offers(s.inbox, s.bridge, s.down, s.loopQueue, c)
  {
    hide FlatMap;
    var d := s.down[i];
    FlatMapSplit(s.down, i, SentOffer(c));
    FlatMapAppend(s.loopQueue, LoopItem(d.receiver, L.Received(d.message)), LoopOffer(c));
  }

  lemma DownFront(s: System, i: nat, c: string)
    requires Tags(s, c) && FirstSent(s.down, i)
    ensures FrontOf(DownArrived(s, i), c) == FrontOf(s, c)
  {
    hide FlatMap;
    var d := s.down[i];
    var item := LoopItem(d.receiver, L.Received(d.message));
    if SentForward(c)(d) == [] {
      FlatMapRemoveNone(s.down, i, SentForward(c));
      FlatMapIgnore(s.loopQueue, item, LoopForward(c));
    } else {
      SentFirst(s.down, i, c, CallerOf(s.callers, c));
      FlatMapAppend(s.loopQueue, item, LoopForward(c));
      var kind, a, b := SentForward(c)(d), Received(s.callers, c), FlatMap(s.loopQueue, LoopForward(c));
      var rest := FlatMap(Remove(s.down, i), SentForward(c));
      Regroup(a, b, kind, rest);
    }
  }

  lemma UpFirst(q: seq<UpItem>, i: nat, c: string, w: ClientId)
    requires FirstUp(q, i) && UpOnly(q, UpResponse(c), w) && UpResponse(c)(q[i]) != []
    ensures FlatMap(q, UpResponse(c)) == UpResponse(c)(q[i]) + FlatMap(Remove(q, i), UpResponse(c))
  {
    forall j | 0 <= j < i ensures UpResponse(c)(q[j]) == [] {
      assert q[j].client != q[i].client;
    }
    FlatMapRemoveFirst(q, i, UpResponse(c));
  }

  lemma UpArrivesKeeps(s: System, i: nat, c: string)
    requires Sane(s) && Good(s, c) && FirstUp(s.up, i)
    ensures Good(UpArrived(s, i), c)
  {
    UpTags(s, i, c);
    UpCore(s, i, c);
    Untouched(s, UpArrived(s, i), c);
  }

  lemma UpTags(s: System, i: nat, c: string)
    requires Tags(s, c) && FirstUp(s.up, i)
    ensures Tags(UpArrived(s, i), c)
  {
    var w :| AnsweredBy(s.up, s.loopQueue, c, w);
    assert AnsweredBy(Remove(s.up, i), s.loopQueue, c, w);
    assert UpCall(c)(s.up[i]) != [] ==> s.up[i].client == CallerOf(s.callers, c);
  }

  lemma UpCore(s: System, i: nat, c: string)
    requires Tags(s, c) && FirstUp(s.up, i)
    ensures CoreOf(UpArrived(s, i), c) == CoreOf(s, c)
  {
    FlatMapIgnore(s.inbox, AsCommand(s.up[i]), InboxBounce(c));
    UpSent(s, i, c);
    UpUpstream(s, i, c);
  }

  lemma UpSent(s: System, i: nat, c: string)
    requires i < |s.up|
    ensures Sent(UpArrived(s, i).up, UpArrived(s, i).inbox, c) == Sent(s.up, s.inbox, c)
  {
    hide FlatMap;
    FlatMapSplit(s.up, i, UpCall(c));
    FlatMapAppend(s.inbox, AsCommand(s.up[i]), InboxCall(c));
  }

  lemma UpUpstream(s: System, i: nat, c: string)
    requires Tags(s, c) && FirstUp(s.up, i)
    ensures Upstream(UpArrived(s, i).inbox, UpArrived(s, i).up, s.loopQueue, c) == Upstream(s.inbox, s.up,
        s.loopQueue, c)
  {
    hide FlatMap;
    var x := AsCommand(s.up[i]);
    if UpResponse(c)(s.up[i]) == [] {
      FlatMapRemoveNone(s.up, i, UpResponse(c));
      FlatMapIgnore(s.inbox, x, InboxResponse(c));
    } else {
      var w :| AnsweredBy(s.up, s.loopQueue, c, w);
      UpFirst(s.up, i, c, w);
      FlatMapAppend(s.inbox, x, InboxResponse(c));
      var kind, a := InboxResponse(c)(x), FlatMap(s.inbox, InboxResponse(c));
      var rest := FlatMap(Remove(s.up, i), UpResponse(c));
      assert (a + kind) + rest == a + (kind + rest);
    }
  }
}
