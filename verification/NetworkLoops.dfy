/** The network's invariant under the turns of the clients' loops. */
module NetworkLoops {
  import opened Wrappers
  import opened Rpc
  import opened Sequences
  import S = Swiboe
  import L = RpcLoop
  import C = CalleeContext
  import opened CallProtocol
  import opened Network
  import opened NetworkInvariant
  import opened NetworkClients

  function TurnOutcome(s: System, i: nat): L.Outcome<nat, string>
    requires i < |s.loopQueue| && s.loopQueue[i].client in s.loops
  {
    L.Handled(s.loops[s.loopQueue[i].client].state, s.loopQueue[i].command, |s.callees|)
  }

  ghost predicate CanTurn(s: System, i: nat) {
    FirstItem(s.loopQueue, i) && s.loopQueue[i].client in s.loops
  }

  // ---------- Parts of the system a turn changes ----------

  lemma SpawnAlive(callees: seq<Callee>, cancelled: Option<nat>, k: ClientId, spawned: Option<Call>, c: string)
    ensures AliveFor(Spawning(Cancelling(callees, cancelled), k, spawned), c) ==
      if spawned.Some? && spawned.value.context == c then AliveFor(callees, c)[|callees| := k] else AliveFor(callees, c)
    ensures |Spawning(Cancelling(callees, cancelled), k, spawned)| == |callees| + (if spawned.Some? then 1 else 0)
  {
  }

  lemma OutgoingIgnored(up: seq<UpItem>, k: ClientId, sent: seq<Message>, c: string)
    requires |sent| <= 1
    requires sent != [] ==> UpCall(c)(UpItem(k, sent[0])) == [] && UpResponse(c)(UpItem(k, sent[0])) == []
    ensures FlatMap(up + Outgoing(k, sent), UpCall(c)) == FlatMap(up, UpCall(c))
    ensures FlatMap(up + Outgoing(k, sent), UpResponse(c)) == FlatMap(up, UpResponse(c))
  {
    if sent == [] {
      assert up + Outgoing(k, sent) == up;
    } else {
      OutgoingOne(k, sent);
      FlatMapIgnore(up, UpItem(k, sent[0]), UpCall(c));
      FlatMapIgnore(up, UpItem(k, sent[0]), UpResponse(c));
    }
  }

  lemma OutgoingOne(k: ClientId, sent: seq<Message>)
    requires |sent| == 1
    ensures Outgoing(k, sent) == [UpItem(k, sent[0])]
  {
    assert sent[1..] == [];
  }

  lemma RemovedIgnored(q: seq<LoopItem>, i: nat, c: string)
    requires i < |q| && !ItemConcerns(q[i], c)
    ensures FlatMap(Remove(q, i), LoopCall(c)) == FlatMap(q, LoopCall(c))
    ensures FlatMap(Remove(q, i), LoopOffer(c)) == FlatMap(q, LoopOffer(c))
    ensures FlatMap(Remove(q, i), LoopResponse(c)) == FlatMap(q, LoopResponse(c))
    ensures FlatMap(Remove(q, i), LoopForward(c)) == FlatMap(q, LoopForward(c))
  {
    FlatMapRemoveNone(q, i, LoopCall(c));
    FlatMapRemoveNone(q, i, LoopOffer(c));
    FlatMapRemoveNone(q, i, LoopResponse(c));
    FlatMapRemoveNone(q, i, LoopForward(c));
  }

  // ---------- A turn about something else ----------

  lemma TurnElsewhere(s: System, i: nat, c: string)
    requires Sane(s) && CanTurn(s, i) && !ItemConcerns(s.loopQueue[i], c)
    ensures var o := TurnOutcome(s, i);
      && |o.sent| <= 1
      && (o.sent != [] ==> UpCall(c)(UpItem(s.loopQueue[i].client, o.sent[0])) == []
                           && UpResponse(c)(UpItem(s.loopQueue[i].client, o.sent[0])) == [])
      && (o.spawned.Some? ==> o.spawned.value.context != c)
      && (o.answered.Some? ==> o.answered.value.0 != c)
      && (c in o.state.runningFunctionCalls <==>
            c in s.loops[s.loopQueue[i].client].state.runningFunctionCalls)
  {
    assert ItemWellFormed(s.loopQueue[i]);
  }

  lemma OtherQueues(s: System, i: nat, c: string)
    requires Sane(s) && CanTurn(s, i) && !ItemConcerns(s.loopQueue[i], c)
    ensures var s' := LoopTurned(s, i);
      && Unsent(s'.loopQueue, c) == Unsent(s.loopQueue, c)
      && Sent(s'.up, s'.inbox, c) == Sent(s.up, s.inbox, c)
      && Offers(s'.inbox, s'.bridge, s'.down, s'.loopQueue, c) == Offers(s.inbox, s.bridge, s.down, s.loopQueue, c)
      && Upstream(s'.inbox, s'.up, s'.loopQueue, c) == Upstream(s.inbox, s.up, s.loopQueue, c)
  {
    hide FlatMap;
    var k, o := s.loopQueue[i].client, TurnOutcome(s, i);
    TurnElsewhere(s, i, c);
    RemovedIgnored(s.loopQueue, i, c);
    OutgoingIgnored(s.up, k, o.sent, c);
  }

  lemma OtherFront(s: System, i: nat, c: string)
    requires Sane(s) && CanTurn(s, i) && !ItemConcerns(s.loopQueue[i], c)
    ensures FrontOf(LoopTurned(s, i), c) == FrontOf(s, c)
  {
    hide FlatMap;
    var o := TurnOutcome(s, i);
    TurnElsewhere(s, i, c);
    RemovedIgnored(s.loopQueue, i, c);
    assert Received(Answering(s.callers, o.answered), c) == Received(s.callers, c);
  }

  lemma OtherProcs(s: System, i: nat, c: string)
    requires Sane(s) && CanTurn(s, i) && !ItemConcerns(s.loopQueue[i], c)
    ensures var s' := LoopTurned(s, i);
      && Procs(s'.callees, s'.log, c) == Procs(s.callees, s.log, c).(started := |s'.callees|)
      && |s.callees| <= |s'.callees|
  {
    var o := TurnOutcome(s, i);
    TurnElsewhere(s, i, c);
    SpawnAlive(s.callees, o.cancelled, s.loopQueue[i].client, o.spawned, c);
  }

  lemma OtherRegistered(s: System, i: nat, c: string)
    requires Sane(s) && CanTurn(s, i) && !ItemConcerns(s.loopQueue[i], c)
    ensures forall k :: RegisteredAt(LoopTurned(s, i).loops, k, c) == RegisteredAt(s.loops, k, c)
  {
    TurnElsewhere(s, i, c);
  }

  lemma OtherCore(s: System, i: nat, c: string)
    requires Sane(s) && CanTurn(s, i) && !ItemConcerns(s.loopQueue[i], c)
    ensures var core, n := CoreOf(s, c), |LoopTurned(s, i).callees|;
            |s.callees| <= n && CoreOf(LoopTurned(s, i), c) == core.(procs := core.procs.(started := n))
  {
    OtherQueues(s, i, c);
    OtherFront(s, i, c);
    OtherProcs(s, i, c);
    OtherRegistered(s, i, c);
    TurnKeepsCallers(s, i);
  }

  lemma OtherTags(s: System, i: nat, c: string)
    requires Sane(s) && CanTurn(s, i) && !ItemConcerns(s.loopQueue[i], c) && Tags(s, c)
    ensures Tags(LoopTurned(s, i), c)
  {
    var k, o := s.loopQueue[i].client, TurnOutcome(s, i);
    TurnElsewhere(s, i, c);
    if o.sent != [] { OutgoingOne(k, o.sent); }
    OtherCallerTags(s, i, c);
    OtherCalleeTags(s, i, c);
  }

  lemma OtherCallerTags(s: System, i: nat, c: string)
    requires CanTurn(s, i) && CallerTags(s, c, CallerOf(s.callers, c))
    requires var o := TurnOutcome(s, i);
      Outgoing(s.loopQueue[i].client, o.sent) == [] || (|o.sent| == 1
        && Outgoing(s.loopQueue[i].client, o.sent) == [UpItem(s.loopQueue[i].client, o.sent[0])]
        && UpCall(c)(UpItem(s.loopQueue[i].client, o.sent[0])) == [])
    requires CallerOf(LoopTurned(s, i).callers, c) == CallerOf(s.callers, c)
    ensures CallerTags(LoopTurned(s, i), c, CallerOf(s.callers, c))
  {
  }

  lemma OtherCalleeTags(s: System, i: nat, c: string)
    requires CanTurn(s, i) && CalleeTags(s, c)
    requires var o := TurnOutcome(s, i);
      && (Outgoing(s.loopQueue[i].client, o.sent) == [] || (|o.sent| == 1
          && Outgoing(s.loopQueue[i].client, o.sent) == [UpItem(s.loopQueue[i].client, o.sent[0])]
          && UpResponse(c)(UpItem(s.loopQueue[i].client, o.sent[0])) == []))
      && (o.spawned.Some? ==> o.spawned.value.context != c)
    ensures CalleeTags(LoopTurned(s, i), c)
  {
    hide FlatMap;
    var s' := LoopTurned(s, i);
    forall w | AnsweredBy(s.up, s.loopQueue, c, w) ensures AnsweredBy(s'.up, s'.loopQueue, c, w) {}
    var w :| AnsweredBy(s.up, s.loopQueue, c, w);
    assert AnsweredBy(s'.up, s'.loopQueue, c, w);
  }

  lemma OtherKeeps(s: System, i: nat, c: string)
    requires Sane(s) && Good(s, c) && CanTurn(s, i) && !ItemConcerns(s.loopQueue[i], c)
    ensures Good(LoopTurned(s, i), c)
  {
    OtherCore(s, i, c);
    OtherTags(s, i, c);
    TurnKeepsCallers(s, i);
    Grow(CoreOf(s, c), |LoopTurned(s, i).callees|);
  }

  lemma TurnKeepsCallers(s: System, i: nat)
    requires CanTurn(s, i)
    ensures LoopTurned(s, i).callers.Keys == s.callers.Keys
    ensures forall c :: CallerOf(LoopTurned(s, i).callers, c) == CallerOf(s.callers, c)
    ensures LoopTurned(s, i).bridge == s.bridge
  {
  }

  // ---------- The caller's loop sends the call ----------

  ghost predicate SendsCall(s: System, i: nat, c: string) {
    CanTurn(s, i) && ItemWellFormed(s.loopQueue[i]) && LoopCall(c)(s.loopQueue[i]) != []
  }

  lemma CallQueues(s: System, i: nat, c: string)
    requires SendsCall(s, i, c) && Unsent(s.loopQueue, c) <= 1
    ensures var s' := LoopTurned(s, i);
      && Unsent(s.loopQueue, c) == 1 && Unsent(s'.loopQueue, c) == 0
      && Sent(s'.up, s'.inbox, c) == Sent(s.up, s.inbox, c) + 1
      && Offers(s'.inbox, s'.bridge, s'.down, s'.loopQueue, c) == Offers(s.inbox, s.bridge, s.down, s.loopQueue, c)
      && Upstream(s'.inbox, s'.up, s'.loopQueue, c) == Upstream(s.inbox, s.up, s.loopQueue, c)
      && FrontOf(s', c) == FrontOf(s, c)
  {
    hide FlatMap;
    var x := s.loopQueue[i];
    FlatMapRemoveOnly(s.loopQueue, i, LoopCall(c));
    FlatMapRemoveNone(s.loopQueue, i, LoopOffer(c));
    FlatMapRemoveNone(s.loopQueue, i, LoopResponse(c));
    FlatMapRemoveNone(s.loopQueue, i, LoopForward(c));
    OutgoingOne(x.client, [x.command.message]);
    FlatMapAppend(s.up, UpItem(x.client, x.command.message), UpCall(c));
    FlatMapIgnore(s.up, UpItem(x.client, x.command.message), UpResponse(c));
  }

  lemma CallCore(s: System, i: nat, c: string)
    requires SendsCall(s, i, c) && CoreInv(CoreOf(s, c)) && CallerOf(s.callers, c) == s.loopQueue[i].client
    ensures CoreOf(s, c).unsent == 1
    ensures CoreOf(LoopTurned(s, i), c) ==
            CoreOf(s, c).(unsent := 0, sent := CoreOf(s, c).sent + 1, registered := true)
    ensures CoreInv(CoreOf(LoopTurned(s, i), c))
  {
    var core, s' := CoreOf(s, c), LoopTurned(s, i);
    CallQueues(s, i, c);
    assert s'.callees == s.callees && s'.callers == s.callers;
    assert RegisteredAt(s'.loops, s.loopQueue[i].client, c);
    assert CoreOf(s', c) == core.(unsent := core.unsent - 1, sent := core.sent + 1, registered := true);
    LoopSendsCall(core);
  }

  lemma CallTags(s: System, i: nat, c: string)
    requires SendsCall(s, i, c) && Tags(s, c)
    ensures Tags(LoopTurned(s, i), c)
  {
    var x, s' := s.loopQueue[i], LoopTurned(s, i);
    OutgoingOne(x.client, [x.command.message]);
    assert s'.up == s.up + [UpItem(x.client, x.command.message)] && s'.callees == s.callees;
    forall w | AnsweredBy(s.up, s.loopQueue, c, w) ensures AnsweredBy(s'.up, s'.loopQueue, c, w) {}
    var w :| AnsweredBy(s.up, s.loopQueue, c, w);
    assert AnsweredBy(s'.up, s'.loopQueue, c, w);
  }

  /** What concerns a context concerns a call that was made. */
  lemma ConcernedIsHeard(s: System, i: nat, c: string)
    requires Good(s, c) && i < |s.loopQueue| && ItemConcerns(s.loopQueue[i], c)
    ensures c in s.callers
    ensures LoopCall(c)(s.loopQueue[i]) != [] || LoopForward(c)(s.loopQueue[i]) != [] ==>
              s.loopQueue[i].client == CallerOf(s.callers, c)
  {
    if c !in s.callers {
      NothingQueued(s, c);
    }
  }

  lemma CallKeeps(s: System, i: nat, c: string)
    requires Good(s, c) && SendsCall(s, i, c)
    ensures Good(LoopTurned(s, i), c)
  {
    ConcernedIsHeard(s, i, c);
    CallCore(s, i, c);
    CallTags(s, i, c);
    TurnKeepsCallers(s, i);
    Advanced(LoopTurned(s, i), c);
  }

  // ---------- A handler's loop receives the offer ----------

  ghost predicate TakesOffer(s: System, i: nat, c: string) {
    CanTurn(s, i) && LoopOffer(c)(s.loopQueue[i]) != []
  }

  lemma OfferQueues(s: System, i: nat, c: string)
    requires TakesOffer(s, i, c)
    ensures var s' := LoopTurned(s, i);
      && Unsent(s'.loopQueue, c) == Unsent(s.loopQueue, c)
      && s'.up == s.up && s'.inbox == s.inbox && s'.callers == s.callers
      && Offers(s'.inbox, s'.bridge, s'.down, s'.loopQueue, c) == Offers(s.inbox, s.bridge, s.down, s.loopQueue, c) - 1
      && Upstream(s'.inbox, s'.up, s'.loopQueue, c) == Upstream(s.inbox, s.up, s.loopQueue, c)
      && FrontOf(s', c) == FrontOf(s, c)
  {
    hide FlatMap;
    FlatMapSplit(s.loopQueue, i, LoopOffer(c));
    FlatMapRemoveNone(s.loopQueue, i, LoopCall(c));
    FlatMapRemoveNone(s.loopQueue, i, LoopResponse(c));
    FlatMapRemoveNone(s.loopQueue, i, LoopForward(c));
    assert LoopTurned(s, i).up == s.up + [];
  }

  lemma OfferMoves(s: System, i: nat, c: string)
    requires TakesOffer(s, i, c)
    ensures CoreOf(s, c).offers > 0
    ensures var core, k := CoreOf(s, c), s.loopQueue[i].client;
      CoreOf(LoopTurned(s, i), c) == core.(offers := core.offers - 1,
        procs := if TurnOutcome(s, i).spawned.Some?
                 then ProcPart(core.procs.alive[core.procs.started := k], core.procs.emitted, core.procs.started + 1)
                 else core.procs)
  {
    hide FlatMap;
    var o := TurnOutcome(s, i);
    OfferQueues(s, i, c);
    SpawnAlive(s.callees, o.cancelled, s.loopQueue[i].client, o.spawned, c);
    OfferRegistered(s, i, c);
  }

  lemma OfferRegistered(s: System, i: nat, c: string)
    requires TakesOffer(s, i, c)
    ensures forall k :: RegisteredAt(LoopTurned(s, i).loops, k, c) == RegisteredAt(s.loops, k, c)
  {
  }

  lemma OfferCore(s: System, i: nat, c: string)
    requires TakesOffer(s, i, c) && CoreInv(CoreOf(s, c))
    ensures CoreInv(CoreOf(LoopTurned(s, i), c))
  {
    OfferMoves(s, i, c);
    if TurnOutcome(s, i).spawned.Some? {
      OfferTaken(CoreOf(s, c), s.loopQueue[i].client);
    } else {
      OfferDropped(CoreOf(s, c));
    }
  }

  /** No response is on its way to the server while the call is being offered. */
  lemma OfferIsQuiet(s: System, i: nat, c: string)
    requires TakesOffer(s, i, c) && CoreInv(CoreOf(s, c))
    ensures forall w :: AnsweredBy(s.up, s.loopQueue, c, w)
  {
    OfferMoves(s, i, c);
    UpstreamQuiet(s, c);
  }

  lemma UpstreamQuiet(s: System, c: string)
    requires Upstream(s.inbox, s.up, s.loopQueue, c) == []
    ensures forall w :: AnsweredBy(s.up, s.loopQueue, c, w)
  {
    var a, b := FlatMap(s.inbox, InboxResponse(c)) + FlatMap(s.up, UpResponse(c)), FlatMap(s.loopQueue,
        LoopResponse(c));
    assert |a + b| == 0 && |a| == 0;
    FlatMapEmpty(s.up, UpResponse(c));
    FlatMapEmpty(s.loopQueue, LoopResponse(c));
  }

  lemma OfferTags(s: System, i: nat, c: string)
    requires TakesOffer(s, i, c) && Tags(s, c) && forall w :: AnsweredBy(s.up, s.loopQueue, c, w)
    ensures Tags(LoopTurned(s, i), c)
  {
    var s' := LoopTurned(s, i);
    assert s'.up == s.up + [];
    forall w ensures AnsweredBy(s'.up, s'.loopQueue, c, w) {
      assert AnsweredBy(s.up, s.loopQueue, c, w);
    }
    assert AnsweredBy(s'.up, s'.loopQueue, c, s.loopQueue[i].client);
  }

  lemma OfferKeeps(s: System, i: nat, c: string)
    requires Good(s, c) && TakesOffer(s, i, c)
    ensures Good(LoopTurned(s, i), c)
  {
    ConcernedIsHeard(s, i, c);
    OfferCore(s, i, c);
    OfferIsQuiet(s, i, c);
    OfferTags(s, i, c);
    TurnKeepsCallers(s, i);
    Advanced(LoopTurned(s, i), c);
  }

  // ---------- A handler's loop sends a response ----------

  ghost predicate SendsResponse(s: System, i: nat, c: string) {
    CanTurn(s, i) && LoopResponse(c)(s.loopQueue[i]) != []
  }

  lemma ResponseUpstream(s: System, i: nat, c: string)
    requires SendsResponse(s, i, c) && Tags(s, c)
    ensures Upstream(s.inbox, LoopTurned(s, i).up, LoopTurned(s, i).loopQueue, c) == Upstream(s.inbox, s.up,
        s.loopQueue, c)
  {
    hide FlatMap;
    var x, w :| x == s.loopQueue[i] && AnsweredBy(s.up, s.loopQueue, c, w);
    var item := UpItem(x.client, x.command.message);
    forall j | 0 <= j < i ensures LoopResponse(c)(s.loopQueue[j]) == [] {
      assert s.loopQueue[j].client != s.loopQueue[i].client;
    }
    FlatMapRemoveFirst(s.loopQueue, i, LoopResponse(c));
    OutgoingOne(x.client, [x.command.message]);
    FlatMapAppend(s.up, item, UpResponse(c));
    var kind := UpResponse(c)(item);
    Regroup(FlatMap(s.inbox, InboxResponse(c)), FlatMap(s.up, UpResponse(c)), kind,
            FlatMap(Remove(s.loopQueue, i), LoopResponse(c)));
  }

  lemma ResponseCore(s: System, i: nat, c: string)
    requires SendsResponse(s, i, c) && Tags(s, c)
    ensures CoreOf(LoopTurned(s, i), c) == CoreOf(s, c)
  {
    hide FlatMap;
    var x, s' := s.loopQueue[i], LoopTurned(s, i);
    ResponseUpstream(s, i, c);
    FlatMapRemoveNone(s.loopQueue, i, LoopCall(c));
    FlatMapRemoveNone(s.loopQueue, i, LoopOffer(c));
    FlatMapRemoveNone(s.loopQueue, i, LoopForward(c));
    OutgoingOne(x.client, [x.command.message]);
    FlatMapIgnore(s.up, UpItem(x.client, x.command.message), UpCall(c));
    assert forall k' :: RegisteredAt(s'.loops, k', c) == RegisteredAt(s.loops, k', c);
    assert s'.callees == s.callees && s'.callers == s.callers;
  }

  lemma ResponseTags(s: System, i: nat, c: string)
    requires SendsResponse(s, i, c) && Tags(s, c)
    ensures Tags(LoopTurned(s, i), c)
  {
    var x, s' := s.loopQueue[i], LoopTurned(s, i);
    OutgoingOne(x.client, [x.command.message]);
    assert s'.up == s.up + [UpItem(x.client, x.command.message)] && s'.callees == s.callees;
    forall w | AnsweredBy(s.up, s.loopQueue, c, w) ensures AnsweredBy(s'.up, s'.loopQueue, c, w) {}
    var w :| AnsweredBy(s.up, s.loopQueue, c, w);
    assert AnsweredBy(s'.up, s'.loopQueue, c, w);
  }

  lemma ResponseKeeps(s: System, i: nat, c: string)
    requires Good(s, c) && SendsResponse(s, i, c)
    ensures Good(LoopTurned(s, i), c)
  {
    ConcernedIsHeard(s, i, c);
    ResponseCore(s, i, c);
    ResponseTags(s, i, c);
    TurnKeepsCallers(s, i);
    Advanced(LoopTurned(s, i), c);
  }

  // ---------- The caller's loop passes a response on ----------

  ghost predicate PassesOn(s: System, i: nat, c: string) {
    && CanTurn(s, i) && LoopForward(c)(s.loopQueue[i]) != []
    && s.loopQueue[i].client == CallerOf(s.callers, c) && c in s.callers
    && RegisteredAt(s.loops, s.loopQueue[i].client, c)
    && s.loops[s.loopQueue[i].client].state.runningFunctionCalls[c] == c
  }

  lemma PassedOnFront(s: System, i: nat, c: string)
    requires PassesOn(s, i, c) && LoopOnly(s.loopQueue, LoopForward(c), CallerOf(s.callers, c))
    ensures FrontOf(LoopTurned(s, i), c) == FrontOf(s, c)
  {
    forall j | 0 <= j < i ensures LoopForward(c)(s.loopQueue[j]) == [] {
      assert s.loopQueue[j].client != s.loopQueue[i].client;
    }
    FlatMapRemoveFirst(s.loopQueue, i, LoopForward(c));
    var kind := LoopForward(c)(s.loopQueue[i]);
    assert Received(LoopTurned(s, i).callers, c) == Received(s.callers, c) + kind;
    var rest := FlatMap(Remove(s.loopQueue, i), LoopForward(c));
    Associate(Received(s.callers, c), kind, rest, FlatMap(s.down, SentForward(c)));
  }

  lemma PassedOnQueues(s: System, i: nat, c: string)
    requires PassesOn(s, i, c)
    ensures var s' := LoopTurned(s, i);
      && Unsent(s'.loopQueue, c) == Unsent(s.loopQueue, c)
      && s'.up == s.up && s'.inbox == s.inbox && s'.callees == s.callees
      && Offers(s'.inbox, s'.bridge, s'.down, s'.loopQueue, c) == Offers(s.inbox, s.bridge, s.down, s.loopQueue, c)
      && Upstream(s'.inbox, s'.up, s'.loopQueue, c) == Upstream(s.inbox, s.up, s.loopQueue, c)
      && forall k :: RegisteredAt(s'.loops, k, c) == RegisteredAt(s.loops, k, c)
  {
    hide FlatMap;
    FlatMapRemoveNone(s.loopQueue, i, LoopCall(c));
    FlatMapRemoveNone(s.loopQueue, i, LoopOffer(c));
    FlatMapRemoveNone(s.loopQueue, i, LoopResponse(c));
    assert LoopTurned(s, i).up == s.up + [];
  }

  lemma PassedOnCore(s: System, i: nat, c: string)
    requires PassesOn(s, i, c) && Tags(s, c)
    ensures CoreOf(LoopTurned(s, i), c) == CoreOf(s, c)
  {
    PassedOnFront(s, i, c);
    PassedOnQueues(s, i, c);
    TurnKeepsCallers(s, i);
  }

  lemma PassedOnTags(s: System, i: nat, c: string)
    requires PassesOn(s, i, c) && Tags(s, c)
    ensures Tags(LoopTurned(s, i), c)
  {
    var s' := LoopTurned(s, i);
    assert s'.up == s.up + [] && s'.callees == s.callees;
    TurnKeepsCallers(s, i);
    forall w | AnsweredBy(s.up, s.loopQueue, c, w) ensures AnsweredBy(s'.up, s'.loopQueue, c, w) {}
    var w :| AnsweredBy(s.up, s.loopQueue, c, w);
    assert AnsweredBy(s'.up, s'.loopQueue, c, w);
  }

  /** Once a response is under way, the caller's loop has sent the call and expects responses. */
  lemma ForwardIsExpected(s: System, i: nat, c: string)
    requires Good(s, c) && i < |s.loopQueue| && LoopForward(c)(s.loopQueue[i]) != []
    ensures c in s.callers && RegisteredAt(s.loops, CallerOf(s.callers, c), c)
  {
    ConcernedIsHeard(s, i, c);
    var kind := s.loopQueue[i].command.message.response.kind;
    FlatMapContains(s.loopQueue, i, LoopForward(c), kind);
    assert |FrontOf(s, c)| > 0;
    assert CoreOf(s, c).reached != [];
  }

  lemma PassedOnKeeps(s: System, i: nat, c: string)
    requires Sane(s) && Good(s, c) && CanTurn(s, i) && LoopForward(c)(s.loopQueue[i]) != []
    ensures Good(LoopTurned(s, i), c)
  {
    ForwardIsExpected(s, i, c);
    ConcernedIsHeard(s, i, c);
    PassedOnCore(s, i, c);
    PassedOnTags(s, i, c);
    TurnKeepsCallers(s, i);
    Advanced(LoopTurned(s, i), c);
  }

  lemma LoopTurnsKeeps(s: System, i: nat, c: string)
    requires Sane(s) && Good(s, c) && CanTurn(s, i)
    ensures Good(LoopTurned(s, i), c)
  {
    assert ItemWellFormed(s.loopQueue[i]);
    if LoopCall(c)(s.loopQueue[i]) != [] {
      CallKeeps(s, i, c);
    } else if LoopOffer(c)(s.loopQueue[i]) != [] {
      OfferKeeps(s, i, c);
    } else if LoopResponse(c)(s.loopQueue[i]) != [] {
      ResponseKeeps(s, i, c);
    } else if LoopForward(c)(s.loopQueue[i]) != [] {
      PassedOnKeeps(s, i, c);
    } else {
      OtherKeeps(s, i, c);
    }
  }
}
