/**
 One call seen from everywhere at once.

 `Core` collects, for a single call context, how often it is still asked for, every response on
 its way, the procedures running for it, the server's entry for it and what its caller has
 received or will receive. The lemmas below are everything that can happen to a call;
 `CoreInv` is preserved by each. The network model shows that each of its steps is one of these
 transitions for every context.
 */
module CallProtocol {
  import opened Wrappers
  import opened Rpc
  import opened Sequences
  import opened Swiboe

  /** A response as emitted by a running procedure; procedures are numbered in the order in which
      they were started. */
  datatype Emission = Emission(callee: nat, kind: ResponseKind)

  /** Procedures that may still answer (with their clients), everything procedures have answered,
      and how many procedures have been started for any call. */
  datatype ProcPart = ProcPart(alive: map<nat, ClientId>, emitted: seq<Emission>, started: nat)

  datatype Core = Core(
    context: string, caller: ClientId,
    /** copies of the call that its caller's loop has still to send, that are on their way to the
        server, and that are on their way to a handler or bounced from there */
    unsent: nat, sent: nat, offers: nat,
    /** responses the server has still to see, oldest first */
    up: seq<ResponseKind>,
    /** responses the caller has received or, as far as that can still happen, will receive */
    reached: seq<ResponseKind>,
    /** final responses received by or under way to the caller, lost ones included */
    finals: nat,
    procs: ProcPart,
    entry: Option<RunningRpc>,
    /** whether the caller is connected, and whether its loop passes responses on */
    live: bool, registered: bool)

  // ---------- Vocabulary ----------

  function EmittedKinds(es: seq<Emission>): (r: seq<ResponseKind>)
    ensures |r| == |es| && forall i :: 0 <= i < |es| ==> r[i] == es[i].kind
  {
    seq(|es|, i requires 0 <= i < |es| => es[i].kind)
  }

  function Partials(kinds: seq<ResponseKind>): seq<ResponseKind> {
    if kinds == [] then []
    else (if kinds[0].Partial? then [kinds[0]] else []) + Partials(kinds[1..])
  }

  function Lasts(kinds: seq<ResponseKind>): nat {
    if kinds == [] then 0 else (if kinds[0].Last? then 1 else 0) + Lasts(kinds[1..])
  }

  /** Only the last element may be a final response. */
  ghost predicate FinalOnlyLast(kinds: seq<ResponseKind>) {
    forall i :: 0 <= i < |kinds| - 1 ==> kinds[i].Partial?
  }

  /** Emissions come procedure after procedure in starting order, and only a `NotHandled` is
      followed by anything, which then is from a later procedure. */
  ghost predicate WellEmitted(es: seq<Emission>) {
    forall i, j :: 0 <= i < j < |es| ==>
      && es[i].callee <= es[j].callee
      && (es[i].kind.Last? ==> es[i].kind == Last(NotHandled) && es[i].callee < es[j].callee)
  }

  /** Every final response in `es` refuses the call. */
  ghost predicate AllRefused(es: seq<Emission>) {
    forall i :: 0 <= i < |es| && es[i].kind.Last? ==> es[i].kind == Last(NotHandled)
  }

  // ---------- The invariant ----------

  /** The obligation to answer the call: in the call itself, in an offer, in a procedure that may
      still answer, in a final response under way to the server or to the caller. */
  function Tokens(c: Core): nat {
    c.unsent + c.sent + c.offers + |c.procs.alive| + Lasts(c.up) + c.finals
  }

  /** What is still to be seen by the server is the tail of what was emitted. */
  ghost predicate IsTail(up: seq<ResponseKind>, es: seq<Emission>) {
    |up| <= |es| && up == EmittedKinds(es)[|es| - |up|..]
  }

  /** Responses the server has seen. */
  function Seen(up: seq<ResponseKind>, es: seq<Emission>): seq<ResponseKind>
    requires |up| <= |es|
  {
    EmittedKinds(es)[..|es| - |up|]
  }

  ghost predicate AliveInv(i: nat, es: seq<Emission>) {
    forall j :: 0 <= j < |es| ==> es[j].callee <= i && (es[j].callee == i ==> es[j].kind.Partial?)
  }

  ghost predicate ProcsInv(p: ProcPart, offered: bool) {
    && WellEmitted(p.emitted)
    && (forall j :: 0 <= j < |p.emitted| ==> p.emitted[j].callee < p.started)
    && (offered || p.alive != map[] ==> AllRefused(p.emitted))
    && (forall i :: i in p.alive ==> i < p.started && AliveInv(i, p.emitted))
  }

  ghost predicate ReachedInv(q: seq<ResponseKind>, live: bool, seen: seq<ResponseKind>, es: seq<Emission>,
                             offered: bool, hasEntry: bool) {
    && FinalOnlyLast(q)
    && Partials(q) <= Partials(seen)
    && (Lasts(q) > 0 ==> Partials(q) == Partials(EmittedKinds(es)))
    && (live && Lasts(q) == 0 ==> Partials(q) == Partials(seen))
    && (live && Lasts(q) == 0 && offered ==> hasEntry)
    && (Lasts(q) > 0 && es != [] ==> q[|q| - 1] == Last(NotHandled) || q[|q| - 1] == LastOf(es).kind)
  }

  /** Whether a handler may have heard of the call. */
  ghost predicate Offered(c: Core) {
    c.offers > 0 || c.procs.alive != map[] || c.procs.emitted != []
  }

  ghost predicate EntryInv(c: Core) {
    c.entry.Some? ==> c.entry.value.caller == c.caller && c.entry.value.rpcCall.context == c.context
  }

  ghost predicate UpInv(up: seq<ResponseKind>, es: seq<Emission>, offers: nat, finals: nat) {
    IsTail(up, es) && FinalOnlyLast(up) && (offers > 0 || finals > 0 ==> up == [])
  }

  ghost predicate CoreInv(c: Core) {
    && Tokens(c) <= 1
    && Lasts(c.reached) <= c.finals && (c.live ==> Lasts(c.reached) == c.finals)
    && EntryInv(c)
    && (c.unsent + c.sent > 0 ==> c.procs.emitted == [] && c.reached == [] && c.entry.None?)
    && (c.unsent == 0 ==> c.registered)
    && UpInv(c.up, c.procs.emitted, c.offers, c.finals)
    && ProcsInv(c.procs, c.offers > 0)
    && ReachedInv(c.reached, c.live, Seen(c.up, c.procs.emitted), c.procs.emitted, Offered(c), c.entry.Some?)
  }

  // ---------- Facts about the vocabulary ----------

  lemma {:induction false} PartialsConcat(a: seq<ResponseKind>, b: seq<ResponseKind>)
    ensures Partials(a + b) == Partials(a) + Partials(b)
    ensures Lasts(a + b) == Lasts(a) + Lasts(b)
  {
    if a == [] {
      assert a + b == b;
    } else {
      assert (a + b)[1..] == a[1..] + b;
      PartialsConcat(a[1..], b);
      var head := if a[0].Partial? then [a[0]] else [];
      assert head + (Partials(a[1..]) + Partials(b)) == (head + Partials(a[1..])) + Partials(b);
    }
  }

  lemma {:induction false} LastsZero(kinds: seq<ResponseKind>)
    ensures Lasts(kinds) == 0 <==> forall i :: 0 <= i < |kinds| ==> kinds[i].Partial?
    ensures Lasts(kinds) == 0 ==> Partials(kinds) == kinds
  {
    if kinds != [] {
      LastsZero(kinds[1..]);
      if Lasts(kinds) == 0 {
        forall i | 0 <= i < |kinds| ensures kinds[i].Partial? {
          assert i > 0 ==> kinds[i] == kinds[1..][i - 1];
        }
      } else if kinds[0].Partial? {
        var i :| 0 <= i < |kinds[1..]| && !kinds[1..][i].Partial?;
        assert !kinds[i + 1].Partial?;
      }
    }
  }

  // ---------- The call on its way to the server ----------

  function Blank(context: string, caller: ClientId, started: nat, live: bool, registered: bool): Core {
    Core(context, caller, 0, 0, 0, [], [], 0, ProcPart(map[], [], started), None, live, registered)
  }

  lemma Start(context: string, caller: ClientId, started: nat, live: bool, registered: bool)
    ensures CoreInv(Blank(context, caller, started, live, registered).(unsent := 1))
  {
  }

  lemma Grow(c: Core, n: nat)
    requires CoreInv(c) && c.procs.started <= n
    ensures CoreInv(c.(procs := c.procs.(started := n)))
  {
  }

  lemma LoopSendsCall(c: Core)
    requires CoreInv(c) && c.unsent > 0
    ensures CoreInv(c.(unsent := c.unsent - 1, sent := c.sent + 1, registered := true))
  {
  }

  // ---------- The server takes up the call ----------

  /** A response goes out to the caller; it is lost if the caller is gone. */
  function Forwarded(c: Core, kind: ResponseKind): Core {
    c.(reached := if c.live then c.reached + [kind] else c.reached, finals := c.finals + Lasts([kind]))
  }

  /** The server's loop ends over the call. */
  lemma CallLost(c: Core)
    requires CoreInv(c) && c.sent > 0
    ensures CoreInv(c.(sent := c.sent - 1))
  {
  }

  /** A core function, or a function nobody serves: the server answers itself. */
  lemma CallAnswered(c: Core, result: RpcResult)
    requires CoreInv(c) && c.sent > 0
    ensures CoreInv(Forwarded(c.(sent := c.sent - 1), Last(result)))
  {
    PartialsConcat(c.reached, [Last(result)]);
  }

  lemma CallOffered(c: Core, callee: ClientId, call: Call)
    requires CoreInv(c) && c.sent > 0 && call.context == c.context
    ensures CoreInv(c.(sent := c.sent - 1, offers := c.offers + 1, entry := Some(RunningRpc(c.caller, callee, call))))
  {
  }

  // ---------- The call on its way to a handler ----------

  /** The handler's loop does not know the function, or the server knows nothing of the call when
      its offer bounces. */
  lemma OfferDropped(c: Core)
    requires CoreInv(c) && c.offers > 0
    ensures CoreInv(c.(offers := c.offers - 1))
  {
  }

  lemma OfferTaken(c: Core, client: ClientId)
    requires CoreInv(c) && c.offers > 0
    ensures CoreInv(c.(offers := c.offers - 1,
                       procs := ProcPart(c.procs.alive[c.procs.started := client], c.procs.emitted,
                           c.procs.started + 1)))
  {
    assert c.procs.alive == map[];
    assert AliveInv(c.procs.started, c.procs.emitted);
    assert |map[c.procs.started := client]| == 1;
  }

  // ---------- A procedure answers ----------

  lemma ProcedureStops(c: Core, i: nat)
    requires CoreInv(c) && i in c.procs.alive
    ensures CoreInv(c.(procs := c.procs.(alive := c.procs.alive - {i})))
  {
    AliveIsOnly(c, i);
    assert c.procs.alive - {i} == map[];
  }

  lemma AliveIsOnly(c: Core, i: nat)
    requires CoreInv(c) && i in c.procs.alive
    ensures c.procs.alive == map[i := c.procs.alive[i]]
    ensures c.unsent == c.sent == c.offers == Lasts(c.up) == c.finals == 0
  {
    assert |c.procs.alive.Keys - {i}| == |c.procs.alive| - 1;
    assert c.procs.alive.Keys == {i};
  }

  lemma TailGrows(up: seq<ResponseKind>, es: seq<Emission>, e: Emission)
    requires IsTail(up, es)
    ensures IsTail(up + [e.kind], es + [e])
    ensures Seen(up + [e.kind], es + [e]) == Seen(up, es)
    ensures EmittedKinds(es + [e]) == EmittedKinds(es) + [e.kind]
  {
    assert EmittedKinds(es + [e]) == EmittedKinds(es) + [e.kind];
  }

  function AfterEmitting(p: ProcPart, i: nat, kind: ResponseKind): ProcPart {
    ProcPart(if kind.Last? then p.alive - {i} else p.alive, p.emitted + [Emission(i, kind)], p.started)
  }

  lemma ProcsEmit(p: ProcPart, i: nat, kind: ResponseKind)
    requires ProcsInv(p, false) && i in p.alive && p.alive == map[i := p.alive[i]]
    ensures ProcsInv(AfterEmitting(p, i, kind), false)
    ensures |AfterEmitting(p, i, kind).alive| == if kind.Last? then 0 else 1
  {
    EmissionsGrow(p.emitted, i, kind);
    if kind.Last? {
      assert p.alive - {i} == map[];
    } else {
      assert |p.alive| == 1;
    }
  }

  lemma EmissionsGrow(es: seq<Emission>, i: nat, kind: ResponseKind)
    requires WellEmitted(es) && AllRefused(es) && AliveInv(i, es)
    ensures WellEmitted(es + [Emission(i, kind)])
    ensures kind.Partial? ==> AllRefused(es + [Emission(i, kind)]) && AliveInv(i, es + [Emission(i, kind)])
  {
  }

  lemma Emits(c: Core, i: nat, kind: ResponseKind)
    requires CoreInv(c) && i in c.procs.alive
    ensures CoreInv(c.(up := c.up + [kind], procs := AfterEmitting(c.procs, i, kind)))
  {
    AliveIsOnly(c, i);
    UpGrows(c.up, c.procs.emitted, Emission(i, kind));
    ProcsEmit(c.procs, i, kind);
    EmitReached(c, Emission(i, kind));
    hide UpInv, ProcsInv, ReachedInv, Seen, EmittedKinds, Partials, Lasts;
  }

  lemma UpGrows(up: seq<ResponseKind>, es: seq<Emission>, e: Emission)
    requires IsTail(up, es) && FinalOnlyLast(up) && Lasts(up) == 0
    ensures UpInv(up + [e.kind], es + [e], 0, 0)
    ensures Seen(up + [e.kind], es + [e]) == Seen(up, es)
    ensures Lasts(up + [e.kind]) == if e.kind.Last? then 1 else 0
  {
    TailGrows(up, es, e);
    PartialsConcat(up, [e.kind]);
    LastsZero(up);
    hide EmittedKinds, IsTail, Seen;
  }

  lemma EmitReached(c: Core, e: Emission)
    requires CoreInv(c) && c.finals == 0
    requires c.procs.alive != map[]
    ensures var es := c.procs.emitted + [e];
            ReachedInv(c.reached, c.live, Seen(c.up, c.procs.emitted), es, true, c.entry.Some?)
  {
  }

  // ---------- The server sees a response ----------

  /** What is known of a call while the server has a response to it to see. */
  lemma SeesOne(c: Core)
    requires CoreInv(c) && c.up != []
    ensures UpInv(c.up[1..], c.procs.emitted, c.offers, c.finals)
    ensures Seen(c.up[1..], c.procs.emitted) == Seen(c.up, c.procs.emitted) + [c.up[0]]
    ensures Partials(Seen(c.up[1..], c.procs.emitted))
         == Partials(Seen(c.up, c.procs.emitted)) + Partials([c.up[0]])
    ensures Lasts(c.up) == Lasts([c.up[0]]) + Lasts(c.up[1..])
    ensures c.procs.emitted != [] && c.finals == c.offers == 0 && Lasts(c.reached) == 0
    ensures c.up[0].Last? ==>
              && c.up[1..] == [] && c.procs.alive == map[] && LastOf(c.procs.emitted).kind == c.up[0]
              && Seen(c.up[1..], c.procs.emitted) == EmittedKinds(c.procs.emitted)
  {
    hide ProcsInv, ReachedInv;
    assert c.up == [c.up[0]] + c.up[1..];
    PartialsConcat([c.up[0]], c.up[1..]);
    TailShrinks(c.up, c.procs.emitted);
    PartialsConcat(Seen(c.up, c.procs.emitted), [c.up[0]]);
    hide IsTail, Seen, EmittedKinds, Partials;
    assert c.up[0].Last? ==> Lasts([c.up[0]]) == 1 && |c.procs.alive| == 0;
  }

  lemma TailShrinks(up: seq<ResponseKind>, es: seq<Emission>)
    requires IsTail(up, es) && FinalOnlyLast(up) && up != []
    ensures es != [] && IsTail(up[1..], es) && FinalOnlyLast(up[1..])
    ensures Seen(up[1..], es) == Seen(up, es) + [up[0]]
    ensures up[0].Last? ==> up[1..] == [] && LastOf(es).kind == up[0] && Seen(up[1..], es) == EmittedKinds(es)
  {
    var kinds, n := EmittedKinds(es), |es| - |up|;
    assert kinds[n..][1..] == kinds[n + 1..];
    assert kinds[..n + 1] == kinds[..n] + [kinds[n]];
    if up[0].Last? {
      assert |up| == 1;
      assert kinds[..|es|] == kinds;
    }
  }

  /** No entry: the response is dropped. */
  lemma ResponseUnknown(c: Core)
    requires CoreInv(c) && c.up != [] && c.entry.None?
    ensures CoreInv(c.(up := c.up[1..]))
  {
    SeesOne(c);
    SeenGrows(c.reached, c.live, Seen(c.up, c.procs.emitted), c.procs.emitted, c.up[0]);
    hide ProcsInv, ReachedInv, UpInv, IsTail, Seen, EmittedKinds, FinalOnlyLast, Partials, Lasts;
  }

  /** A call without entry has no live caller left that has not been answered. */
  lemma SeenGrows(q: seq<ResponseKind>, live: bool, seen: seq<ResponseKind>, es: seq<Emission>, kind: ResponseKind)
    requires ReachedInv(q, live, seen, es, true, false) && Lasts(q) == 0
    ensures ReachedInv(q, live, seen + [kind], es, true, false)
  {
    PartialsConcat(seen, [kind]);
    hide EmittedKinds;
    assert Partials(seen) <= Partials(seen + [kind]);
  }

  lemma PartialForwarded(c: Core)
    requires CoreInv(c) && c.up != [] && c.entry.Some? && c.up[0].Partial?
    ensures CoreInv(Forwarded(c.(up := c.up[1..]), c.up[0]))
  {
    SeesOne(c);
    ReachedPartial(c.reached, c.live, Seen(c.up, c.procs.emitted), c.procs.emitted, c.up[0],
                   Offered(c), c.entry.Some?);
    assert Lasts([c.up[0]]) == 0;
    hide ProcsInv, ReachedInv, UpInv, IsTail, Seen, EmittedKinds, FinalOnlyLast, Partials, Lasts;
  }

  /** A partial result is passed on to the caller. */
  lemma ReachedPartial(q: seq<ResponseKind>, live: bool, seen: seq<ResponseKind>, es: seq<Emission>,
                       kind: ResponseKind, offered: bool, hasEntry: bool)
    requires ReachedInv(q, live, seen, es, offered, hasEntry) && Lasts(q) == 0 && kind.Partial?
    ensures ReachedInv(if live then q + [kind] else q, live, seen + [kind], es, offered, hasEntry)
    ensures Lasts(q + [kind]) == 0
  {
    PartialsConcat(q, [kind]);
    PartialsConcat(seen, [kind]);
    LastsZero(q);
    hide EmittedKinds;
    assert Partials(seen) <= Partials(seen + [kind]);
  }

  /** A final response is passed on to the caller. */
  lemma ReachedFinal(q: seq<ResponseKind>, live: bool, seen: seq<ResponseKind>, es: seq<Emission>,
                     kind: ResponseKind, seen': seq<ResponseKind>, offered: bool, hasEntry: bool,
                     offered': bool, hasEntry': bool)
    requires ReachedInv(q, live, seen, es, offered, hasEntry) && Lasts(q) == 0 && kind.Last?
    requires Partials(seen) == Partials(seen') == Partials(EmittedKinds(es))
    requires kind == Last(NotHandled) || (es != [] && kind == LastOf(es).kind)
    ensures ReachedInv(if live then q + [kind] else q, live, seen', es, offered', hasEntry')
    ensures Lasts(q + [kind]) == 1
  {
    PartialsConcat(q, [kind]);
    LastsZero(q);
  }

  /** The server passes an answer of a handler on and forgets the call. */
  lemma AnswerForwarded(c: Core)
    requires CoreInv(c) && c.up != [] && c.entry.Some? && c.up[0].Last? && c.up[0] != Last(NotHandled)
    ensures CoreInv(Forwarded(c.(up := c.up[1..], entry := None), c.up[0]))
  {
    SeesOne(c);
    ReachedFinal(c.reached, c.live, Seen(c.up, c.procs.emitted), c.procs.emitted,
                 c.up[0], Seen(c.up[1..], c.procs.emitted), true, true, true, false);
    hide ProcsInv, ReachedInv, IsTail, Seen, EmittedKinds, FinalOnlyLast, Partials;
  }

  /** All handlers have refused: the caller is told so, the entry stays. */
  lemma RefusalForwarded(c: Core)
    requires CoreInv(c) && c.up != [] && c.entry.Some? && c.up[0] == Last(NotHandled)
    ensures CoreInv(Forwarded(c.(up := c.up[1..]), c.up[0]))
  {
    SeesOne(c);
    ReachedFinal(c.reached, c.live, Seen(c.up, c.procs.emitted), c.procs.emitted,
                 c.up[0], Seen(c.up[1..], c.procs.emitted), true, true, true, true);
    hide ProcsInv, ReachedInv, IsTail, Seen, EmittedKinds, FinalOnlyLast, Partials;
  }

  /** A handler has refused: the next one is offered the call. */
  lemma RefusalPassedOn(c: Core, callee: ClientId)
    requires CoreInv(c) && c.up != [] && c.entry.Some? && c.up[0] == Last(NotHandled)
    ensures CoreInv(c.(up := c.up[1..], entry := Some(c.entry.value.(callee := callee)), offers := c.offers + 1))
  {
    hide ProcsInv, ReachedInv, UpInv, Seen, EmittedKinds, Partials, Lasts;
    SeesOne(c);
    OneRefusal();
    var es := c.procs.emitted;
    assert c.up == [Last(NotHandled)] && c.up[1..] == [];
    Unpadded(Partials(Seen(c.up, es)));
    ReachedOn(c.reached, c.live, Seen(c.up, es), es, Seen([], es), Offered(c));
    UpEmpty(es);
    assert !(c.offers > 0);
    RefusedByAll(c.procs);
  }

  lemma OneRefusal()
    ensures Lasts([Last(NotHandled)]) == 1 && Partials([Last(NotHandled)]) == [] && Lasts([]) == 0
  {
    assert [Last(NotHandled)][1..] == [];
  }

  lemma Unpadded<T>(s: seq<T>)
    ensures s + [] == s
  {
  }

  lemma UpEmpty(es: seq<Emission>)
    ensures UpInv([], es, 1, 0)
  {
  }

  /** What has been seen grows by nothing that the caller would get. */
  lemma ReachedOn(q: seq<ResponseKind>, live: bool, seen: seq<ResponseKind>, es: seq<Emission>,
                  seen': seq<ResponseKind>, offered: bool)
    requires ReachedInv(q, live, seen, es, offered, true) && Partials(seen') == Partials(seen)
    ensures ReachedInv(q, live, seen', es, true, true)
  {
    hide FinalOnlyLast, Partials, Lasts, EmittedKinds;
  }

  /** When the last response refuses, all final ones do. */
  lemma RefusedByAll(p: ProcPart)
    requires ProcsInv(p, false) && p.emitted != [] && LastOf(p.emitted).kind == Last(NotHandled)
    ensures ProcsInv(p, true)
  {
    assert forall i :: 0 <= i < |p.emitted| - 1 && p.emitted[i].kind.Last? ==> p.emitted[i].kind == Last(NotHandled);
  }

  // ---------- The server hears that an offer could not be delivered ----------

  lemma BounceExhausted(c: Core)
    requires CoreInv(c) && c.offers > 0 && c.entry.Some?
    ensures CoreInv(Forwarded(c.(offers := c.offers - 1), Last(NotHandled)))
  {
    assert Seen(c.up, c.procs.emitted) == EmittedKinds(c.procs.emitted);
    assert Lasts([Last(NotHandled)]) == 1;
    ReachedFinal(c.reached, c.live, Seen(c.up, c.procs.emitted), c.procs.emitted, Last(NotHandled),
                 Seen(c.up, c.procs.emitted), true, true, c.procs.emitted != [], true);
  }

  lemma BouncePassedOn(c: Core, callee: ClientId)
    requires CoreInv(c) && c.offers > 0 && c.entry.Some?
    ensures CoreInv(c.(entry := Some(c.entry.value.(callee := callee))))
  {
  }

  // ---------- The caller goes away ----------

  /** What was meant for a caller that is gone is dropped. */
  lemma FinalLost(c: Core, finals: nat)
    requires CoreInv(c) && !c.live && Lasts(c.reached) <= finals <= c.finals
    ensures CoreInv(c.(finals := finals))
  {
  }

  lemma FrontOfFinal(front: seq<ResponseKind>, rest: seq<ResponseKind>)
    requires FinalOnlyLast(front + rest)
    ensures FinalOnlyLast(front)
    ensures Lasts(front) > 0 ==> front + rest == front
  {
    var all := front + rest;
    assert forall i :: 0 <= i < |front| ==> front[i] == all[i];
    LastsZero(front);
  }

  /** The caller hangs up: of what it would have received it gets only a first part. */
  lemma CallerGone(c: Core, reached: seq<ResponseKind>)
    requires CoreInv(c) && reached <= c.reached
    ensures CoreInv(c.(live := false, reached := reached))
  {
    var rest := c.reached[|reached|..];
    assert c.reached == reached + rest;
    PartialsConcat(reached, rest);
    FrontOfFinal(reached, rest);
  }

  lemma EntryDropped(c: Core)
    requires CoreInv(c) && !c.live
    ensures CoreInv(c.(entry := None))
  {
  }
}
