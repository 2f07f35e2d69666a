/** The network's invariant under the steps of applications, running procedures and client loops. */
module NetworkClients {
  import opened Wrappers
  import opened Rpc
  import opened Sequences
  import S = Swiboe
  import L = RpcLoop
  import C = CalleeContext
  import opened CallProtocol
  import opened Network
  import opened NetworkInvariant

  // ---------- Applications ----------

  predicate ItemConcerns(x: LoopItem, c: string) {
    LoopCall(c)(x) != [] || LoopOffer(c)(x) != [] || LoopResponse(c)(x) != [] || LoopForward(c)(x) != []
  }

  predicate Plain(command: L.Command<string>) {
    command.Quit? || command.NewRpc? || command.CancelOutgoingRpc?
  }

  /** Commands that start, answer or carry no call. */
  lemma PlainKeeps(s: System, k: ClientId, command: L.Command<string>, c: string)
    requires Good(s, c) && Plain(command)
    ensures Good(Enqueued(s, k, command), c)
  {
    PlainConcernsNobody(k, command, c);
    EnqueuedCore(s, LoopItem(k, command), c);
    EnqueuedTags(s, LoopItem(k, command), c);
    Untouched(s, Enqueued(s, k, command), c);
  }

  lemma PlainConcernsNobody(k: ClientId, command: L.Command<string>, c: string)
    requires Plain(command)
    ensures !ItemConcerns(LoopItem(k, command), c)
  {
  }

  lemma EnqueuedCore(s: System, x: LoopItem, c: string)
    requires !ItemConcerns(x, c)
    ensures CoreOf(s.(loopQueue := s.loopQueue + [x]), c) == CoreOf(s, c)
  {
    FlatMapIgnore(s.loopQueue, x, LoopCall(c));
    FlatMapIgnore(s.loopQueue, x, LoopOffer(c));
    FlatMapIgnore(s.loopQueue, x, LoopResponse(c));
    FlatMapIgnore(s.loopQueue, x, LoopForward(c));
  }

  lemma EnqueuedTags(s: System, x: LoopItem, c: string)
    requires Tags(s, c) && !ItemConcerns(x, c)
    ensures Tags(s.(loopQueue := s.loopQueue + [x]), c)
  {
    var w :| AnsweredBy(s.up, s.loopQueue, c, w);
    assert AnsweredBy(s.up, s.loopQueue + [x], c, w);
  }

  lemma AppCallsKeeps(s: System, k: ClientId, call: Call, c: string)
    requires Good(s, c) && call.context !in s.callers
    ensures Good(AppCalled(s, k, call), c)
  {
    if call.context == c {
      AppCallNew(s, k, call);
    } else {
      AppCallOther(s, k, call, c);
      assert c in AppCalled(s, k, call).callers <==> c in s.callers;
      Untouched(s, AppCalled(s, k, call), c);
    }
  }

  lemma AppCallOther(s: System, k: ClientId, call: Call, c: string)
    requires Tags(s, c) && call.context != c
    ensures Tags(AppCalled(s, k, call), c)
    ensures CoreOf(AppCalled(s, k, call), c) == CoreOf(s, c)
  {
    var x := LoopItem(k, L.OutgoingCall(call.context, call.context, Message.RpcCall(call)));
    EnqueuedCore(s, x, c);
    EnqueuedTags(s, x, c);
  }

  lemma AppCallNew(s: System, k: ClientId, call: Call)
    requires Good(s, call.context) && call.context !in s.callers
    ensures Good(AppCalled(s, k, call), call.context)
  {
    NothingQueued(s, call.context);
    AppCallTags(s, k, call);
    AppCallCore(s, k, call);
    Start(call.context, k, |s.callees|, k in s.live, RegisteredAt(s.loops, k, call.context));
    Advanced(AppCalled(s, k, call), call.context);
  }

  lemma AppCallCore(s: System, k: ClientId, call: Call)
    requires call.context !in s.callers
    requires Unheard(CoreOf(s, call.context), Waiting(s.bridge, call.context))
    ensures CoreOf(AppCalled(s, k, call), call.context) ==
      Blank(call.context, k, |s.callees|, k in s.live, RegisteredAt(s.loops, k, call.context)).(unsent := 1)
  {
    var c := call.context;
    var x := LoopItem(k, L.OutgoingCall(c, c, Message.RpcCall(call)));
    hide FlatMap;
    FlatMapAppend(s.loopQueue, x, LoopCall(c));
    FlatMapIgnore(s.loopQueue, x, LoopOffer(c));
    FlatMapIgnore(s.loopQueue, x, LoopResponse(c));
    FlatMapIgnore(s.loopQueue, x, LoopForward(c));
    assert FrontOf(s, c) == [];
    assert Lasts([] + []) == 0;
  }

  lemma AppCallTags(s: System, k: ClientId, call: Call)
    requires Silent(s, call.context) && AliveFor(s.callees, call.context) == map[]
    ensures Tags(AppCalled(s, k, call), call.context)
  {
    AppCallCallerTags(s, k, call);
    AppCallAnsweredBy(s, k, call);
    NoneAlive(s.callees, call.context);
  }

  lemma NoneAlive(callees: seq<Callee>, c: string)
    requires AliveFor(callees, c) == map[]
    ensures forall i :: 0 <= i < |callees| && callees[i].context == c ==> !callees[i].state.Alive?
  {
    assert forall i :: 0 <= i < |callees| && callees[i].context == c && callees[i].state.Alive? ==>
      i in AliveFor(callees, c);
  }

  lemma AppCallCallerTags(s: System, k: ClientId, call: Call)
    requires Silent(s, call.context)
    ensures CallerTags(AppCalled(s, k, call), call.context, k)
  {
  }

  lemma AppCallAnsweredBy(s: System, k: ClientId, call: Call)
    requires Silent(s, call.context)
    ensures AnsweredBy(AppCalled(s, k, call).up, AppCalled(s, k, call).loopQueue, call.context, k)
  {
  }

  /** There is nothing about the context in any queue. */
  ghost predicate Silent(s: System, c: string) {
    && (forall i :: 0 <= i < |s.loopQueue| ==> !ItemConcerns(s.loopQueue[i], c))
    && (forall i :: 0 <= i < |s.up| ==> UpCall(c)(s.up[i]) == [] && UpResponse(c)(s.up[i]) == [])
    && (forall i :: 0 <= i < |s.inbox| ==> !Concerns(s.inbox[i], c))
    && (forall i :: 0 <= i < |s.bridge| ==> SentForward(c)(s.bridge[i]) == [])
    && (forall i :: 0 <= i < |s.down| ==> SentForward(c)(s.down[i]) == [])
  }

  lemma NothingQueued(s: System, c: string)
    requires Unheard(CoreOf(s, c), Waiting(s.bridge, c))
    ensures Silent(s, c)
  {
    QueuedNowhere(s, c);
    FlatMapEmpty(s.loopQueue, LoopCall(c));
    FlatMapEmpty(s.loopQueue, LoopOffer(c));
    FlatMapEmpty(s.loopQueue, LoopResponse(c));
    FlatMapEmpty(s.loopQueue, LoopForward(c));
    FlatMapEmpty(s.up, UpCall(c));
    FlatMapEmpty(s.up, UpResponse(c));
    FlatMapEmpty(s.inbox, InboxCall(c));
    FlatMapEmpty(s.inbox, InboxBounce(c));
    FlatMapEmpty(s.inbox, InboxResponse(c));
    FlatMapEmpty(s.bridge, SentForward(c));
    FlatMapEmpty(s.down, SentForward(c));
  }

  lemma QueuedNowhere(s: System, c: string)
    requires Unheard(CoreOf(s, c), Waiting(s.bridge, c))
    ensures FlatMap(s.loopQueue, LoopCall(c)) == [] && FlatMap(s.loopQueue, LoopOffer(c)) == []
    ensures FlatMap(s.loopQueue, LoopResponse(c)) == [] && FlatMap(s.loopQueue, LoopForward(c)) == []
    ensures FlatMap(s.up, UpCall(c)) == [] && FlatMap(s.up, UpResponse(c)) == []
    ensures FlatMap(s.inbox, InboxCall(c)) == [] && FlatMap(s.inbox, InboxBounce(c)) == []
    ensures FlatMap(s.inbox, InboxResponse(c)) == []
    ensures FlatMap(s.bridge, SentForward(c)) == [] && FlatMap(s.down, SentForward(c)) == []
  {
    var up, front := Upstream(s.inbox, s.up, s.loopQueue, c), FrontOf(s, c);
    assert |up| == 0 && |front| == 0;
  }

  // ---------- Procedures ----------

  function CalleeAfter(s: System, i: nat, op: C.Op): Callee
    requires i < |s.callees|
  {
    CalleeActed(s, i, op).callees[i]
  }

  lemma AliveAfter(callees: seq<Callee>, i: nat, x: Callee, c: string)
    requires i < |callees| && x.client == callees[i].client && x.context == callees[i].context
    requires x.state.Alive? ==> callees[i].state.Alive?
    ensures AliveFor(callees[i := x], c) ==
      if x.context == c && !x.state.Alive? then AliveFor(callees, c) - {i} else AliveFor(callees, c)
  {
  }

  lemma CalleeActsKeeps(s: System, i: nat, op: C.Op, c: string)
    requires Good(s, c) && i < |s.callees|
    ensures Good(CalleeActed(s, i, op), c)
  {
    CalleeFrame(s, i, op);
    if s.callees[i].context != c || !s.callees[i].state.Alive? {
      CalleeOtherKeeps(s, CalleeActed(s, i, op), i, op, c);
    } else {
      CalleeOwnKeeps(s, CalleeActed(s, i, op), i, op, c);
    }
  }

  lemma CalleeFrame(s: System, i: nat, op: C.Op)
    requires i < |s.callees|
    ensures CalleeActed(s, i, op).bridge == s.bridge && CalleeActed(s, i, op).callers == s.callers
  {
  }

  lemma CalleeOtherKeeps(s: System, s': System, i: nat, op: C.Op, c: string)
    requires Good(s, c) && i < |s.callees| && (s.callees[i].context != c || !s.callees[i].state.Alive?)
    requires s' == CalleeActed(s, i, op) && s'.bridge == s.bridge && s'.callers == s.callers
    ensures Good(s', c)
  {
    CalleeOtherCore(s, i, op, c);
    CalleeOtherTags(s, i, op, c);
    Untouched(s, s', c);
  }

  lemma CalleeOwnKeeps(s: System, s': System, i: nat, op: C.Op, c: string)
    requires Good(s, c) && i < |s.callees| && s.callees[i].context == c && s.callees[i].state.Alive?
    requires s' == CalleeActed(s, i, op) && s'.callers == s.callers
    ensures Good(s', c)
  {
    AliveIsHeard(s, i, c);
    CalleeOwnCore(s, i, op, c);
    CalleeOwnTags(s, i, op, c);
    Advanced(s', c);
  }

  lemma AliveIsHeard(s: System, i: nat, c: string)
    requires Good(s, c) && i < |s.callees| && s.callees[i].context == c && s.callees[i].state.Alive?
    ensures c in s.callers
    ensures AliveFor(s.callees, c).Keys == {i}
  {
    assert i in AliveFor(s.callees, c);
    AliveIsOnly(CoreOf(s, c), i);
  }

  lemma CalleeOwnCore(s: System, i: nat, op: C.Op, c: string)
    requires CoreInv(CoreOf(s, c)) && i < |s.callees|
    requires s.callees[i].context == c && s.callees[i].state.Alive?
    ensures CoreInv(CoreOf(CalleeActed(s, i, op), c))
  {
    assert i in AliveFor(s.callees, c);
    match C.Emission(s.callees[i].state, CalleeEvent(s, i, op))
    case None =>
      var x := CalleeAfter(s, i, op);
      QuietCore(s, i, x, c);
      if !x.state.Alive? {
        ProcedureStops(CoreOf(s, c), i);
      }
    case Some(kind) =>
      EmitCore(s, i, op, kind, c);
      Emits(CoreOf(s, c), i, kind);
  }

  lemma CalleeOwnTags(s: System, i: nat, op: C.Op, c: string)
    requires Tags(s, c) && i < |s.callees| && s.callees[i].context == c && s.callees[i].state.Alive?
    requires AliveFor(s.callees, c).Keys == {i}
    ensures Tags(CalleeActed(s, i, op), c)
  {
    OnlyAlive(s.callees, i, c);
    match C.Emission(s.callees[i].state, CalleeEvent(s, i, op))
    case None => QuietTags(s, i, CalleeAfter(s, i, op), c);
    case Some(kind) => EmitTags(s, i, op, kind, c);
  }

  lemma OnlyAlive(callees: seq<Callee>, i: nat, c: string)
    requires i < |callees| && AliveFor(callees, c).Keys == {i}
    ensures forall j :: 0 <= j < |callees| && callees[j].context == c && callees[j].state.Alive? ==> j == i
  {
    assert forall j :: 0 <= j < |callees| && callees[j].context == c && callees[j].state.Alive? ==>
      j in AliveFor(callees, c);
  }

  lemma CalleeOtherTags(s: System, i: nat, op: C.Op, c: string)
    requires Tags(s, c) && i < |s.callees| && (s.callees[i].context != c || !s.callees[i].state.Alive?)
    ensures Tags(CalleeActed(s, i, op), c)
  {
    var callee, x := s.callees[i], CalleeAfter(s, i, op);
    QuietTags(s, i, x, c);
    match C.Emission(callee.state, CalleeEvent(s, i, op))
    case None =>
    case Some(kind) =>
      var item := LoopItem(callee.client, L.Send(Message.RpcResponse(Response(callee.context, kind))));
      EnqueuedTags(s.(callees := s.callees[i := x]), item, c);
  }

  lemma CalleeOtherCore(s: System, i: nat, op: C.Op, c: string)
    requires i < |s.callees| && (s.callees[i].context != c || !s.callees[i].state.Alive?)
    ensures CoreOf(CalleeActed(s, i, op), c) == CoreOf(s, c)
  {
    hide FlatMap;
    var callee, x := s.callees[i], CalleeAfter(s, i, op);
    AliveElsewhere(s.callees, i, x, c);
    match C.Emission(callee.state, CalleeEvent(s, i, op))
    case None =>
    case Some(kind) =>
      var item := LoopItem(callee.client, L.Send(Message.RpcResponse(Response(callee.context, kind))));
      FlatMapIgnore(s.log, LogEntry(callee.context, Emission(i, kind)), LogEmission(c));
      FlatMapIgnore(s.loopQueue, item, LoopCall(c));
      FlatMapIgnore(s.loopQueue, item, LoopOffer(c));
      FlatMapIgnore(s.loopQueue, item, LoopResponse(c));
      FlatMapIgnore(s.loopQueue, item, LoopForward(c));
  }

  lemma AliveElsewhere(callees: seq<Callee>, i: nat, x: Callee, c: string)
    requires i < |callees| && x.client == callees[i].client && x.context == callees[i].context
    requires callees[i].context != c || !(x.state.Alive? || callees[i].state.Alive?)
    ensures AliveFor(callees[i := x], c) == AliveFor(callees, c)
  {
  }

  lemma QuietTags(s: System, i: nat, x: Callee, c: string)
    requires Tags(s, c) && i < |s.callees|
    requires x.client == s.callees[i].client && x.context == s.callees[i].context
    requires x.state.Alive? ==> s.callees[i].state.Alive?
    ensures Tags(s.(callees := s.callees[i := x]), c)
  {
  }

  lemma QuietCore(s: System, i: nat, x: Callee, c: string)
    requires i < |s.callees|
    requires x.client == s.callees[i].client && x.context == s.callees[i].context == c
    requires x.state.Alive? ==> s.callees[i].state.Alive?
    ensures var core := CoreOf(s, c);
      CoreOf(s.(callees := s.callees[i := x]), c) ==
        if x.state.Alive? then core else core.(procs := core.procs.(alive := core.procs.alive - {i}))
  {
    AliveAfter(s.callees, i, x, c);
  }

  lemma EmitTags(s: System, i: nat, op: C.Op, kind: ResponseKind, c: string)
    requires Tags(s, c) && i < |s.callees| && s.callees[i].context == c && s.callees[i].state.Alive?
    requires C.Emission(s.callees[i].state, CalleeEvent(s, i, op)) == Some(kind)
    requires forall j :: 0 <= j < |s.callees| && s.callees[j].context == c && s.callees[j].state.Alive? ==> j == i
    ensures Tags(CalleeActed(s, i, op), c)
  {
    var s' := CalleeActed(s, i, op);
    assert AnsweredBy(s'.up, s'.loopQueue, c, s.callees[i].client);
    QuietTags(s, i, CalleeAfter(s, i, op), c);
  }

  lemma EmitCore(s: System, i: nat, op: C.Op, kind: ResponseKind, c: string)
    requires i < |s.callees| && s.callees[i].context == c && s.callees[i].state.Alive?
    requires C.Emission(s.callees[i].state, CalleeEvent(s, i, op)) == Some(kind)
    ensures var core := CoreOf(s, c);
      CoreOf(CalleeActed(s, i, op), c) ==
        core.(up := core.up + [kind], procs := AfterEmitting(core.procs, i, kind))
  {
    hide FlatMap;
    var k, x := s.callees[i].client, CalleeAfter(s, i, op);
    var item := LoopItem(k, L.Send(Message.RpcResponse(Response(c, kind))));
    var entry := LogEntry(c, Emission(i, kind));
    EmitUpstream(s, item, kind, c);
    FlatMapIgnore(s.loopQueue, item, LoopCall(c));
    FlatMapIgnore(s.loopQueue, item, LoopOffer(c));
    FlatMapIgnore(s.loopQueue, item, LoopForward(c));
    FlatMapAppend(s.log, entry, LogEmission(c));
    AliveAfter(s.callees, i, x, c);
    assert x.state.Alive? <==> !kind.Last?;
  }

  lemma EmitUpstream(s: System, item: LoopItem, kind: ResponseKind, c: string)
    requires LoopResponse(c)(item) == [kind]
    ensures Upstream(s.inbox, s.up, s.loopQueue + [item], c) == Upstream(s.inbox, s.up, s.loopQueue, c) + [kind]
  {
    hide FlatMap;
    FlatMapAppend(s.loopQueue, item, LoopResponse(c));
    var a, b := FlatMap(s.inbox, InboxResponse(c)) + FlatMap(s.up, UpResponse(c)), FlatMap(s.loopQueue,
        LoopResponse(c));
    assert a + (b + [kind]) == (a + b) + [kind];
  }
}
