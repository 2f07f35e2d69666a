/** How the server ends: it runs until it handles a `Quit` or a core call it cannot serve, and a `Quit`
    comes only from a call of `core.exit`, which always leads to one. */
module NetworkExits {
  import opened Wrappers
  import opened Rpc
  import opened Sequences
  import S = Swiboe
  import R = ServerRun
  import opened Network
  import opened NetworkServer
  import opened NetworkRuns

  predicate AsksToExit(x: S.Command) { x.RpcCall? && x.call.function_ == "core.exit" }

  predicate AsksToRegister(x: S.Command) {
    x.RpcCall? && x.call.function_ == "core.new_rpc" && x.call.args.NewRpcRequest?
  }

  /** A call of a core function that is neither of the two there are, or has no such arguments. */
  predicate CannotServe(x: S.Command) {
    x.RpcCall? && "core." <= x.call.function_ && !AsksToExit(x) && !AsksToRegister(x)
  }

  predicate Ends(x: S.Command) { x.Quit? || CannotServe(x) }

  ghost predicate Exits(r: R.Run, up: bool) {
    && r.handled <= |r.log|
    && (up <==> forall n :: 0 <= n < r.handled ==> !Ends(r.log[n]))
    && (forall n :: 0 <= n < |r.log| && r.log[n].Quit? ==>
          exists m :: 0 <= m < n && m < r.handled && AsksToExit(r.log[m]))
    && (forall m :: 0 <= m < r.handled && AsksToExit(r.log[m]) ==>
          && (exists n :: m < n < |r.log| && r.log[n].Quit?)
          && LastTo(r.log[m].caller, r.log[m].call.context, Ok(Json("null"))) in r.sent)
  }

  lemma HandlesEnds(s: S.State, x: S.Command, o: S.Outcome)
    requires S.Handles(s, x, o)
    ensures o.spin.Continue? <==> !Ends(x)
    ensures forall i :: 0 <= i < |o.enqueued| && o.enqueued[i].Quit? ==> AsksToExit(x)
    ensures AsksToExit(x) ==> o.enqueued == [S.Quit]
                              && o.sent == [LastTo(x.caller, x.call.context, Ok(Json("null")))]
  {
    assert AsksToExit(x) ==> "core." <= x.call.function_;
    assert AsksToRegister(x) ==> "core." <= x.call.function_;
  }

  lemma TurnExits(r: R.Run, o: S.Outcome)
    requires Exits(r, true) && r.handled < |r.log| && S.Handles(r.server, r.log[r.handled], o)
    ensures Exits(R.Turned(r, o), o.spin.Continue?)
  {
    hide S.Handles, AsksToExit, Ends;
    var x, r' := r.log[r.handled], R.Turned(r, o);
    HandlesEnds(r.server, x, o);
    assert forall n :: 0 <= n < |r.log| ==> r'.log[n] == r.log[n];
    assert forall n :: |r.log| <= n < |r'.log| ==> r'.log[n] == o.enqueued[n - |r.log|];
    if AsksToExit(x) {
      assert r'.log[|r.log|].Quit?;
    }
  }

  lemma EnqueueExits(r: R.Run, x: S.Command, up: bool)
    requires Exits(r, up) && !x.Quit?
    ensures Exits(r.(log := r.log + [x]), up)
  {
    hide AsksToExit, Ends;
    var r' := r.(log := r.log + [x]);
    assert forall n :: 0 <= n < |r.log| ==> r'.log[n] == r.log[n];
  }

  lemma StepUp(s: System, step: Step, s': System)
    requires Next(s, step, s') && !step.ServerTurns?
    ensures s'.serverUp == s.serverUp
    ensures |s'.inbox| == |s.inbox| + 1 ==> !s'.inbox[|s.inbox|].Quit?
  {
  }

  lemma {:induction false} ExitsAlong(states: seq<System>, steps: seq<Step>, k: nat)
    requires Trace(states, steps) && k <= |steps|
    ensures |states| == |steps| + 1 && Exits(RunAt(states, steps, k), states[k].serverUp)
    decreases k
  {
    hide Next, Trace, Exits, S.Handles, RunAfter;
    TraceShape(states, steps);
    if k == 0 {
      StartExits(states, steps);
    } else {
      var s, r := states[k - 1], RunAt(states, steps, k - 1);
      ExitsAlong(states, steps, k - 1);
      RunAtSimulates(states, steps, k - 1);
      TraceStep(states, steps, k);
      if steps[k - 1].ServerTurns? {
        var o := TurnOf(s, states[k]);
        TurnSimulated(s, o, r);
        TurnExits(r, o);
      } else {
        EnqueueSimulated(s, steps[k - 1], states[k], r);
        StepUp(s, steps[k - 1], states[k]);
        if RunAt(states, steps, k) != r {
          EnqueueExits(r, states[k].inbox[|s.inbox|], s.serverUp);
        }
      }
    }
  }

  lemma StartExits(states: seq<System>, steps: seq<Step>)
    requires Trace(states, steps)
    ensures Exits(RunAt(states, steps, 0), states[0].serverUp)
  {
    hide Next;
  }

  /** In every run of all parts: the server is up exactly as long as it has handled no `Quit` and no core call
      it cannot serve; every `Quit` on its queue follows a handled call of `core.exit`; and every such call
      has been answered and has put one there. */
  lemma ServerUpIff(states: seq<System>, steps: seq<Step>)
    requires Trace(states, steps)
    ensures var r := RunAt(states, steps, |steps|);
            && |states| == |steps| + 1 && r.handled <= |r.log| && r.server == states[|steps|].server
            && (states[|steps|].serverUp <==> forall n :: 0 <= n < r.handled ==> !Ends(r.log[n]))
            && (forall n :: 0 <= n < |r.log| && r.log[n].Quit? ==>
                  exists m :: 0 <= m < n && m < r.handled && AsksToExit(r.log[m]))
            && (forall m :: 0 <= m < r.handled && AsksToExit(r.log[m]) ==>
                  && (exists n :: m < n < |r.log| && r.log[n].Quit?)
                  && LastTo(r.log[m].caller, r.log[m].call.context, Ok(Json("null"))) in r.sent)
  {
    hide Next, Trace, RunAt, AsksToExit, Ends;
    ExitsAlong(states, steps, |steps|);
    RunAtSimulates(states, steps, |steps|);
  }
}
