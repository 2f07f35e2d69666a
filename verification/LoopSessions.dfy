/**
 Whole sessions of a client's logic loop: which procedures it starts, which one a cancellation reaches
 and which caller a response, told from the commands it has received and nothing else.
 */
module LoopSessions {
  import opened Wrappers
  import opened Rpc
  import opened Sequences
  import opened RpcLoop

  /** The state after `commands`; `channels[i]` is the channel that command `i` may use. */
  function After<H, V>(commands: seq<Command<V>>, channels: seq<H>): State<H, V>
    requires |commands| <= |channels|
    decreases |commands|
  {
    if commands == [] then State({}, map[], map[])
    else Handled(After(DropLast(commands), channels), LastOf(commands), channels[|commands| - 1]).state
  }

  // ---------- What the commands say ----------

  /** A registration of the function comes before command `n`. */
  ghost predicate Knows<V>(commands: seq<Command<V>>, n: nat, name: string) {
    exists i :: 0 <= i < n && i < |commands| && commands[i] == NewRpc(name)
  }

  /** Command `j` is a call under `context` of a function registered before. */
  ghost predicate Starts<V>(commands: seq<Command<V>>, j: int, context: string) {
    && 0 <= j < |commands| && commands[j].Received? && commands[j].message.RpcCall?
    && commands[j].message.call.context == context && Knows(commands, j, commands[j].message.call.function_)
  }

  /** The procedure started by command `j` is the last one under `context`, and not yet cancelled. */
  ghost predicate RunsFrom<V>(commands: seq<Command<V>>, j: int, context: string) {
    && Starts(commands, j, context)
    && forall i :: j < i < |commands| ==> !Starts(commands, i, context) && commands[i] != Received(RpcCancel(context))
  }

  /** Command `j` is the last outgoing call under `context`, and its responses go to `values`. */
  ghost predicate CallsFrom<V>(commands: seq<Command<V>>, j: int, context: string, values: V) {
    && 0 <= j < |commands| && commands[j].OutgoingCall? && commands[j].context == context
    && commands[j].values == values
    && forall i :: j < i < |commands| ==> !(commands[i].OutgoingCall? && commands[i].context == context)
  }

  // ---------- One more command ----------

  lemma KnowsNext<V>(commands: seq<Command<V>>, command: Command<V>, name: string)
    ensures Knows(commands + [command], |commands| + 1, name)
       <==> Knows(commands, |commands|, name) || command == NewRpc(name)
    ensures forall j :: 0 <= j <= |commands| ==> (Knows(commands + [command], j, name) <==> Knows(commands, j, name))
  {
    var all := commands + [command];
    assert all[|commands|] == command;
    assert forall i :: 0 <= i < |commands| ==> all[i] == commands[i];
  }

  lemma StartsNext<V>(commands: seq<Command<V>>, command: Command<V>, context: string)
    ensures forall j :: 0 <= j < |commands| ==>
              (Starts(commands + [command], j, context) <==> Starts(commands, j, context))
    ensures Starts(commands + [command], |commands|, context) <==>
            command.Received? && command.message.RpcCall? && command.message.call.context == context
            && Knows(commands, |commands|, command.message.call.function_)
  {
    var all := commands + [command];
    assert all[|commands|] == command;
    forall j | 0 <= j <= |commands| && all[j].Received? && all[j].message.RpcCall?
      ensures Knows(all, j, all[j].message.call.function_) <==> Knows(commands, j, all[j].message.call.function_)
    {
      KnowsNext(commands, command, all[j].message.call.function_);
    }
    hide Knows;
    assert forall j :: 0 <= j < |commands| ==> all[j] == commands[j];
  }

  lemma RunsNext<V>(commands: seq<Command<V>>, command: Command<V>, context: string, j: int)
    ensures RunsFrom(commands + [command], j, context) <==>
              if j == |commands| then Starts(commands + [command], j, context)
              else RunsFrom(commands, j, context) && command != Received(RpcCancel(context))
                   && !Starts(commands + [command], |commands|, context)
  {
    hide Starts;
    var all := commands + [command];
    StartsNext(commands, command, context);
    StartsInside(all, j, context);
    StartsInside(commands, j, context);
    assert forall i :: 0 <= i < |commands| ==> all[i] == commands[i];
    assert all[|commands|] == command;
  }

  lemma StartsInside<V>(commands: seq<Command<V>>, j: int, context: string)
    ensures Starts(commands, j, context) ==> 0 <= j < |commands|
  {
  }

  // ---------- The state, told from the commands ----------

  lemma {:induction false} KnownIff<H, V>(commands: seq<Command<V>>, channels: seq<H>, name: string)
    requires |commands| <= |channels|
    ensures name in After(commands, channels).remoteProcedures <==> Knows(commands, |commands|, name)
    decreases |commands|
  {
    if commands != [] {
      assert commands == DropLast(commands) + [LastOf(commands)];
      KnownIff(DropLast(commands), channels, name);
      KnowsNext(DropLast(commands), LastOf(commands), name);
    }
  }

  lemma {:induction false} RunningIff<H, V>(commands: seq<Command<V>>, channels: seq<H>, context: string, channel: H)
    requires |commands| <= |channels|
    ensures (context in After(commands, channels).runningRpcCalls
             && After(commands, channels).runningRpcCalls[context] == channel)
       <==> exists j :: RunsFrom(commands, j, context) && channels[j] == channel
    decreases |commands|
  {
    if commands != [] {
      var before, command, n := DropLast(commands), LastOf(commands), |commands| - 1;
      assert commands == before + [command];
      RunningIff(before, channels, context, channel);
      StartsNext(before, command, context);
      if command.Received? && command.message.RpcCall? {
        KnownIff(before, channels, command.message.call.function_);
      }
      hide Knows, Starts, RunsFrom;
      forall j ensures RunsFrom(commands, j, context) <==>
                         if j == n then Starts(commands, n, context)
                         else RunsFrom(before, j, context) && command != Received(RpcCancel(context))
                              && !Starts(commands, n, context)
      {
        RunsNext(before, command, context, j);
      }
      assert RunsFrom(commands, n, context) <==> Starts(commands, n, context);
      RunsInside(before, context);
    }
  }

  lemma RunsInside<V>(commands: seq<Command<V>>, context: string)
    ensures forall j :: RunsFrom(commands, j, context) ==> 0 <= j < |commands|
  {
  }

  lemma CallsNext<V>(commands: seq<Command<V>>, command: Command<V>, context: string, values: V)
    ensures (exists j :: CallsFrom(commands + [command], j, context, values)) <==>
              if command.OutgoingCall? && command.context == context then command.values == values
              else exists j :: CallsFrom(commands, j, context, values)
  {
    var all, n := commands + [command], |commands|;
    assert all[n] == command;
    assert forall i :: 0 <= i < n ==> all[i] == commands[i];
    if command.OutgoingCall? && command.context == context {
      assert command.values == values ==> CallsFrom(all, n, context, values);
      assert forall j :: CallsFrom(all, j, context, values) ==> j >= n;
    } else {
      assert forall j :: CallsFrom(all, j, context, values) <==> CallsFrom(commands, j, context, values);
    }
  }

  lemma {:induction false} AwaitedIff<H, V>(commands: seq<Command<V>>, channels: seq<H>, context: string, values: V)
    requires |commands| <= |channels|
    ensures (context in After(commands, channels).runningFunctionCalls
             && After(commands, channels).runningFunctionCalls[context] == values)
       <==> exists j :: CallsFrom(commands, j, context, values)
    decreases |commands|
  {
    if commands != [] {
      assert commands == DropLast(commands) + [LastOf(commands)];
      AwaitedIff(DropLast(commands), channels, context, values);
      CallsNext(DropLast(commands), LastOf(commands), context, values);
      hide CallsFrom;
    }
  }

  // ---------- What a command does after any others ----------

  /** A procedure is started exactly when a call is received whose function was registered before, and
      then with just that call. */
  lemma StartedIff<H, V>(commands: seq<Command<V>>, channels: seq<H>, command: Command<V>, channel: H, call: Call)
    requires |commands| <= |channels|
    ensures Handled(After(commands, channels), command, channel).spawned == Some(call)
       <==> command == Received(Message.RpcCall(call)) && Knows(commands, |commands|, call.function_)
  {
    KnownIff(commands, channels, call.function_);
    hide Knows, After;
  }

  /** A cancellation is delivered exactly when one is received while a procedure runs under its context,
      and then to the one started last and not cancelled since. */
  lemma CancelledIff<H, V>(commands: seq<Command<V>>, channels: seq<H>, command: Command<V>, channel: H, cancelled: H)
    requires |commands| <= |channels|
    ensures Handled(After(commands, channels), command, channel).cancelled == Some(cancelled)
       <==> exists context, j :: command == Received(RpcCancel(context)) && RunsFrom(commands, j, context)
                                 && channels[j] == cancelled
  {
    if command.Received? && command.message.RpcCancel? {
      RunningIff(commands, channels, command.message.context, cancelled);
    }
    hide RunsFrom, After;
  }

  /** A response is passed on exactly when one is received for a call that was sent, and then to whoever
      waits for the last call sent under its context. */
  lemma AnsweredIff<H, V>(commands: seq<Command<V>>, channels: seq<H>, command: Command<V>, channel: H, values: V,
                          response: Response)
    requires |commands| <= |channels|
    ensures Handled(After(commands, channels), command, channel).answered == Some((values, response))
       <==> command == Received(RpcResponse(response)) && exists j :: CallsFrom(commands, j, response.context, values)
  {
    AwaitedIff(commands, channels, response.context, values);
    hide CallsFrom, After;
  }

  /** What a client's own side asks the loop to send. */
  predicate AsksToSend<V>(command: Command<V>, m: Message) {
    || command == Send(m)
    || (command.OutgoingCall? && command.message == m)
    || (m.RpcCancel? && command == CancelOutgoingRpc(m.context))
  }

  /** A message is sent exactly when the client's own side asks for it, never twice and never because of
      what was received; and the loop ends exactly when it is told to quit. */
  lemma SentIff<H, V>(commands: seq<Command<V>>, channels: seq<H>, command: Command<V>, channel: H, m: Message)
    requires |commands| <= |channels|
    ensures var o := Handled(After(commands, channels), command, channel);
            && |o.sent| <= 1 && (m in o.sent <==> AsksToSend(command, m))
            && (!o.running <==> command.Quit?)
  {
    hide After;
  }
}
