/**
 The context handed to a procedure that serves a call, src/client/rpc/server.rs.

 The value part says what one operation does, given what polling the command channel shows at
 that moment; the environment (a cancellation arriving, the loop going away) is any sequence of
 polls. `Context` is the source's object.
 */
module CalleeContext {
  import opened Wrappers
  import opened Rpc
  import opened Sequences

  datatype ContextState = Alive | Finished | Cancelled

  /** What `try_recv` on the command channel may show. */
  datatype Poll = CancelCommand | Empty | Disconnected

  datatype Error = RpcDone | ChannelClosed

  function UpdatedState(state: ContextState, poll: Poll): ContextState {
    if poll.Empty? then state else Cancelled
  }

  /** The operations of a context. `Call` starts a call of its own and only checks liveness. */
  datatype Op = Update(value: Value) | Finish(result: RpcResult) | IsCancelled | Call

  /** An operation together with its surroundings: what the poll shows, whether the loop still
      takes messages. */
  datatype Event = Event(op: Op, poll: Poll, loopOpen: bool)

  function StateAfter(state: ContextState, e: Event): ContextState {
    var polled := UpdatedState(state, e.poll);
    if polled.Alive? && e.op.Finish? then Finished else polled
  }

  function Emission(state: ContextState, e: Event): Option<ResponseKind> {
    if UpdatedState(state, e.poll).Alive? && e.loopOpen then
      match e.op
      case Update(value) => Some(Partial(value))
      case Finish(result) => Some(Last(result))
      case _ => None
    else
      None
  }

  // ---------- Whole sessions ----------

  function SessionState(state: ContextState, events: seq<Event>): ContextState
    decreases |events|
  {
    if events == [] then state else SessionState(StateAfter(state, events[0]), events[1..])
  }

  function Emitted(state: ContextState, events: seq<Event>): seq<ResponseKind>
    decreases |events|
  {
    if events == [] then []
    else
      (match Emission(state, events[0]) case Some(kind) => [kind] case None => [])
      + Emitted(StateAfter(state, events[0]), events[1..])
  }

  /** The language of sessions: partial results, then at most one final one. */
  ghost predicate IsSession(kinds: seq<ResponseKind>) {
    forall i :: 0 <= i < |kinds| - 1 ==> kinds[i].Partial?
  }

  lemma {:induction false} DoneStaysDone(state: ContextState, events: seq<Event>)
    requires !state.Alive?
    ensures Emitted(state, events) == []
    ensures !SessionState(state, events).Alive?
    decreases |events|
  {
    if events != [] {
      DoneStaysDone(StateAfter(state, events[0]), events[1..]);
    }
  }

  lemma {:induction false} SessionStateSplit(state: ContextState, before: seq<Event>, after: seq<Event>)
    ensures SessionState(state, before + after) == SessionState(SessionState(state, before), after)
    ensures Emitted(state, before + after) == Emitted(state, before) + Emitted(SessionState(state, before), after)
    decreases |before|
  {
    if before == [] {
      assert before + after == after;
    } else {
      assert (before + after)[1..] == before[1..] + after;
      SessionStateSplit(StateAfter(state, before[0]), before[1..], after);
    }
  }

  /** Whatever a procedure does with its context, and whenever it is cancelled, it emits partial
      results followed by at most one final one; a final one is emitted only by a session that
      is over. */
  lemma {:induction false} SessionLanguage(events: seq<Event>)
    ensures IsSession(Emitted(Alive, events))
    ensures forall kind :: kind in Emitted(Alive, events) && kind.Last? ==> !SessionState(Alive, events).Alive?
  {
    if events != [] {
      if StateAfter(Alive, events[0]).Alive? {
        SessionLanguage(events[1..]);
      } else {
        DoneStaysDone(StateAfter(Alive, events[0]), events[1..]);
      }
    }
  }

  /** Being alive is never regained, and once a poll has shown a cancellation or a vanished loop
      the session emits nothing more, whatever state it was in. */
  lemma NothingAfterCancel(before: seq<Event>, e: Event, after: seq<Event>)
    requires !e.poll.Empty?
    ensures Emitted(Alive, before + [e] + after) == Emitted(Alive, before)
    ensures !SessionState(Alive, before + [e] + after).Alive?
  {
    assert before + [e] + after == before + ([e] + after);
    SessionStateSplit(Alive, before, [e] + after);
    var state := SessionState(Alive, before);
    assert ([e] + after)[1..] == after;
    DoneStaysDone(StateAfter(state, e), after);
  }

  // ---------- What decides, event by event ----------

  /** No poll has shown anything up to event `i`, and nothing has finished before it. */
  predicate AliveAt(events: seq<Event>, i: int)
    requires 0 <= i < |events|
  {
    && (forall j :: 0 <= j <= i ==> events[j].poll.Empty?)
    && (forall j :: 0 <= j < i ==> !events[j].op.Finish?)
  }

  lemma LastEvent(events: seq<Event>)
    requires events != []
    ensures var before, e := DropLast(events), LastOf(events);
            && SessionState(Alive, events) == StateAfter(SessionState(Alive, before), e)
            && Emitted(Alive, events) == Emitted(Alive, before) +
                 match Emission(SessionState(Alive, before), e) case Some(kind) => [kind] case None => []
  {
    var before, e := DropLast(events), LastOf(events);
    assert events == before + [e];
    SessionStateSplit(Alive, before, [e]);
    assert [e][1..] == [];
    assert Emitted(StateAfter(SessionState(Alive, before), e), []) == [];
  }

  /** A context is cancelled exactly when some poll has shown something, whether it had finished before
      or not; it has finished exactly when none has and something finished it. */
  lemma {:induction false} StateIff(events: seq<Event>)
    ensures SessionState(Alive, events).Cancelled? <==> exists i :: 0 <= i < |events| && !events[i].poll.Empty?
    ensures SessionState(Alive, events).Alive? <==>
            forall i :: 0 <= i < |events| ==> events[i].poll.Empty? && !events[i].op.Finish?
    decreases |events|
  {
    if events != [] {
      var before, e := DropLast(events), LastOf(events);
      StateIff(before);
      LastEvent(events);
      assert forall i :: 0 <= i < |before| ==> before[i] == events[i];
      if SessionState(Alive, before).Cancelled? {
        var i :| 0 <= i < |before| && !before[i].poll.Empty?;
        assert !events[i].poll.Empty?;
      }
      if !e.poll.Empty? {
        assert !events[|events| - 1].poll.Empty?;
      }
    }
  }

  /** Event `i` finishes the context, alive and with the loop there, by `result`. */
  ghost predicate FinishesAliveAt(events: seq<Event>, i: int, result: RpcResult) {
    0 <= i < |events| && events[i].op == Op.Finish(result) && events[i].loopOpen && AliveAt(events, i)
  }

  /** A session emits a final result exactly when it finishes with just that result, alive and with the
      loop still there; cancellation first, and it never does. */
  lemma {:induction false} FinalResultIffFinishedAlive(events: seq<Event>, result: RpcResult)
    ensures Last(result) in Emitted(Alive, events) <==> exists i :: FinishesAliveAt(events, i, result)
    decreases |events|
  {
    if events != [] {
      var before, n := DropLast(events), |events| - 1;
      FinalResultIffFinishedAlive(before, result);
      LastEvent(events);
      StateIff(before);
      assert forall i :: 0 <= i < n ==> before[i] == events[i];
      assert AliveAt(events, n) <==> SessionState(Alive, before).Alive? && events[n].poll.Empty?;
      assert forall i :: 0 <= i < n ==> (FinishesAliveAt(before, i, result) <==> FinishesAliveAt(events, i, result));
      assert FinishesAliveAt(events, n, result) <==>
             Emission(SessionState(Alive, before), events[n]) == Some(Last(result));
    }
  }

  /** The values of the updates that come alive and with the loop there, in order. */
  function UpdatesAlive(events: seq<Event>, n: nat): seq<Value>
    requires n <= |events|
  {
    if n == 0 then []
    else
      var e := events[n - 1];
      UpdatesAlive(events, n - 1) + if e.op.Update? && e.loopOpen && AliveAt(events, n - 1) then [e.op.value] else []
  }

  function ValueOf(kind: ResponseKind): seq<Value> {
    if kind.Partial? then [kind.value] else []
  }

  /** The partial results a session emits. */
  function PartialValues(kinds: seq<ResponseKind>): seq<Value> {
    FlatMap(kinds, ValueOf)
  }

  lemma {:induction false} UpdatesBefore(events: seq<Event>, n: nat)
    requires n < |events|
    ensures UpdatesAlive(DropLast(events), n) == UpdatesAlive(events, n)
  {
    if n > 0 {
      UpdatesBefore(events, n - 1);
      assert forall i :: 0 <= i < n ==> DropLast(events)[i] == events[i];
    }
  }

  /** The partial results of a session are exactly the values of the updates performed alive and with the
      loop there, in order. */
  lemma {:induction false} PartialsAreUpdates(events: seq<Event>)
    ensures PartialValues(Emitted(Alive, events)) == UpdatesAlive(events, |events|)
    decreases |events|
  {
    if events != [] {
      var before, n := DropLast(events), |events| - 1;
      PartialsAreUpdates(before);
      UpdatesBefore(events, n);
      LastEvent(events);
      StateIff(before);
      assert forall i :: 0 <= i < n ==> before[i] == events[i];
      assert AliveAt(events, n) <==> SessionState(Alive, before).Alive? && events[n].poll.Empty?;
      var kind := Emission(SessionState(Alive, before), events[n]);
      assert UpdatesAlive(events, n) + [] == UpdatesAlive(events, n);
      if kind.Some? {
        FlatMapAppend(Emitted(Alive, before), kind.value, ValueOf);
      } else {
        assert Emitted(Alive, before) + [] == Emitted(Alive, before);
      }
    }
  }

  // ---------- The class ----------

  /** A poll takes the command it shows. */
  function AfterPoll(queued: nat): nat {
    if queued > 0 then queued - 1 else 0
  }

  /** What a poll shows of `queued` commands and a sender that may be gone. */
  function PollShows(queued: nat, senderGone: bool): Poll {
    if queued > 0 then CancelCommand else if senderGone then Disconnected else Empty
  }

  /** What `n` polls show, one after another, while nothing is sent. */
  function Polls(queued: nat, senderGone: bool, n: nat): seq<Poll> {
    if n == 0 then [] else [PollShows(queued, senderGone)] + Polls(AfterPoll(queued), senderGone, n - 1)
  }

  /** Each queued command is shown by one poll, in front of everything else; after them a sender that is
      gone shows, for ever. */
  lemma {:induction false} PollsInTurn(queued: nat, senderGone: bool, n: nat, i: nat)
    requires i < n
    ensures |Polls(queued, senderGone, n)| == n
    ensures Polls(queued, senderGone, n)[i].CancelCommand? <==> i < queued
    ensures Polls(queued, senderGone, n)[i].Disconnected? <==> i >= queued && senderGone
  {
    if n > 1 {
      PollsInTurn(AfterPoll(queued), senderGone, n - 1, if i > 0 then i - 1 else 0);
    }
  }

  /** Both ends of the command channel: what is queued and whether the sender is gone. */
  class CommandChannel {
    var queued: nat
    var senderGone: bool

    function Shows(): Poll
      reads this
    {
      PollShows(queued, senderGone)
    }

    method TryRecv() returns (poll: Poll)
      modifies this
      ensures poll == old(Shows()) && senderGone == old(senderGone)
      ensures queued == AfterPoll(old(queued))
    {
      poll := Shows();
      if queued > 0 {
        queued := queued - 1;
      }
    }
  }

  /** The sending end of the loop's queue, which refuses messages once the loop has ended. */
  class LoopCommands {
    var sent: seq<Response>
    var open: bool

    method Send(response: Response) returns (r: Result<(), Error>)
      modifies this
      ensures open == old(open)
      ensures sent == old(sent) + (if open then [response] else [])
      ensures r == if open then Success(()) else Failure(ChannelClosed)
    {
      if !open {
        return Failure(ChannelClosed);
      }
      sent := sent + [response];
      return Success(());
    }
  }

  class Context {
    const context: string
    const commands: CommandChannel
    const rpcLoopCommands: LoopCommands
    var state: ContextState

    constructor (context: string, commands: CommandChannel, rpcLoopCommands: LoopCommands)
      ensures this.context == context && this.commands == commands && this.rpcLoopCommands == rpcLoopCommands
      ensures state == Alive
    {
      this.context := context;
      this.commands := commands;
      this.rpcLoopCommands := rpcLoopCommands;
      state := Alive;
    }

    /** The event that performing `op` now is. */
    ghost function Now(op: Op): Event
      reads this, commands, rpcLoopCommands
    {
      Event(op, commands.Shows(), rpcLoopCommands.open)
    }

    ghost function Sends(op: Op): seq<Response>
      reads this, commands, rpcLoopCommands
    {
      match Emission(state, Now(op)) case Some(kind) => [Response(context, kind)] case None => []
    }

    method UpdateState()
      modifies this, commands
      ensures state == UpdatedState(old(state), old(commands.Shows()))
      ensures commands.queued == AfterPoll(old(commands.queued)) && commands.senderGone == old(commands.senderGone)
    {
      var poll := commands.TryRecv();
      match poll
      case CancelCommand => state := ContextState.Cancelled;
      case Empty =>
      case Disconnected => state := ContextState.Cancelled;
    }

    method CheckLiveness() returns (r: Result<(), Error>)
      modifies this, commands
      ensures state == UpdatedState(old(state), old(commands.Shows()))
      ensures commands.queued == AfterPoll(old(commands.queued)) && commands.senderGone == old(commands.senderGone)
      ensures r == if state.Alive? then Success(()) else Failure(RpcDone)
    {
      UpdateState();
      r := if state.Alive? then Success(()) else Failure(RpcDone);
    }

    method Update(value: Value) returns (r: Result<(), Error>)
      modifies this, commands, rpcLoopCommands
      ensures state == StateAfter(old(state), old(Now(Op.Update(value))))
      ensures commands.queued == AfterPoll(old(commands.queued)) && commands.senderGone == old(commands.senderGone)
      ensures rpcLoopCommands.sent == old(rpcLoopCommands.sent) + old(Sends(Op.Update(value)))
      ensures r.Success? <==> old(Sends(Op.Update(value))) != []
    {
      r := CheckLiveness();
      if r.Success? {
        r := rpcLoopCommands.Send(Response(context, Partial(value)));
      }
    }

    method Cancelled() returns (b: bool)
      modifies this, commands
      ensures state == StateAfter(old(state), old(Now(IsCancelled)))
      ensures commands.queued == AfterPoll(old(commands.queued)) && commands.senderGone == old(commands.senderGone)
      ensures b <==> state.Cancelled?
    {
      UpdateState();
      b := state == ContextState.Cancelled;
    }

    method Finish(result: RpcResult) returns (r: Result<(), Error>)
      modifies this, commands, rpcLoopCommands
      ensures state == StateAfter(old(state), old(Now(Op.Finish(result))))
      ensures commands.queued == AfterPoll(old(commands.queued)) && commands.senderGone == old(commands.senderGone)
      ensures rpcLoopCommands.sent == old(rpcLoopCommands.sent) + old(Sends(Op.Finish(result)))
      ensures r.Success? <==> old(Sends(Op.Finish(result))) != []
    {
      r := CheckLiveness();
      if r.Success? {
        state := Finished;
        r := rpcLoopCommands.Send(Response(context, Last(result)));
      }
    }
  }
}
