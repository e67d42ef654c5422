/**
 * The process-wide dispatch state of the engine as a value: the queue of
 * commands waiting for netd, the one outstanding command, the callback and chain
 * its reply goes to, the reasons gathered from 1xx lines, and everything the
 * engine has produced so far (commands handed to the transport and results
 * posted to the main thread, in order).  The pure transitions here are what the
 * methods of the engine are proved against.
 */
module Dispatch {
  import opened Wrappers
  import opened Helpers
  import opened Protocol
  import opened Params
  import opened Steps
  import opened Chain
  import opened Properties
  import opened Usb

  /** One gCommandQueue element.  Its callback is always the trampoline `next`, so only the chain is kept. */
  datatype Entry = Entry(command: NetdCommand, chain: CommandChain)

  /** What leaves the engine: a command handed to netd, or a result posted to the main thread. */
  datatype Output = Sent(command: NetdCommand) | Posted(result: NetworkResult)

  /**
   * gCommandQueue, gPending, gCurrentCallback (set or still NULL), gCurrentChain,
   * gCurrentCommand and gReason, with the output so far.
   */
  datatype DispatchState = DispatchState(
    queue: seq<Entry>,
    pending: bool,
    callbackSet: bool,
    current: CommandChain?,
    currentCommand: string,
    reasons: seq<string>,
    log: seq<Output>)

  const Initial := DispatchState([], false, false, null, "", [], [])

  /** doCommand's append to the queue: the command joins the end of the queued commands, and nothing is sent. */
  function Enqueue(d: DispatchState, e: Entry): (n: DispatchState)
    ensures Queued(n.queue) == Queued(d.queue) + [e.command]
    ensures n.log == d.log && n.pending == d.pending && n.reasons == d.reasons
  {
    QueuedAppend(d.queue, e);
    d.(queue := d.queue + [e])
  }

  /**
   * nextNetdCommand: nothing when the queue is empty or a command is pending;
   * otherwise take the head off the queue, make it the current command, record
   * its callback and chain, mark it pending and hand it to the transport.  It
   * never leaves a queue waiting behind no outstanding command, and it adds at
   * most one entry to the output.
   */
  function Drain(d: DispatchState): (n: DispatchState)
    ensures NoStall(n)
    ensures d.log <= n.log && |n.log| <= |d.log| + 1
    ensures n.reasons == d.reasons
  {
    if d.queue == [] || d.pending then d
    else
      var e := d.queue[0];
      d.(queue := d.queue[1..], pending := true, callbackSet := true, current := e.chain,
         currentCommand := e.command.data, log := d.log + [Sent(e.command)])
  }

  /** postMessage to the main thread. */
  function PostTo(d: DispatchState, r: NetworkResult): DispatchState
  {
    d.(log := d.log + [Posted(r)])
  }

  /** The result sendBroadcastMessage posts for a topic; the reason is never extracted, so it is "". */
  function BroadcastResult(topic: string): NetworkResult
  {
    EmptyResult.(topic := Some(topic), broadcast := Some(true), reason := Some(""))
  }

  /** sendBroadcastMessage: post to the code's topic, or nothing for other codes. */
  function PostBroadcast(d: DispatchState, code: uint32): DispatchState
  {
    match BroadcastTopic(code)
    case None => d
    case Some(t) => PostTo(d, BroadcastResult(t))
  }

  /** The result onNetdMessage hands to the callback: the final code and every gathered reason joined. */
  function ReplyResult(code: uint32, reasons: seq<string>): (r: NetworkResult)
    ensures r.resultCode == Some(code) && r.resultReason.Some?
    ensures |r.resultReason.value| == SumLengths(reasons)
    ensures |reasons| == 1 ==> r.resultReason == Some(reasons[0])
  {
    JoinNoSep(reasons);
    EmptyResult.(resultCode := Some(code), resultReason := Some(JoinSpec(reasons, InterfaceDelimit)))
  }

  // ---------------------------------------------------------------------------
  // the trampoline's effect on the dispatch state
  // ---------------------------------------------------------------------------

  /** The dispatch state and the chain's cursor, parameters and deletion after `next` on a success. */
  datatype RunOutcome = RunOutcome(state: DispatchState, index: int, params: NetworkParams, deleted: bool)

  /**
   * next(c, false, r) with the cursor at index: the issuing step's command goes
   * through doCommand for chain c, a success handler posts, and an exhausted
   * chain is deleted.  The cursor always moves forward and the output only grows.
   */
  function Run(d: DispatchState, c: CommandChain, commands: seq<Step>, index: int, p: NetworkParams,
               r: NetworkResult, jb: bool): (o: RunOutcome)
    ensures index < o.index
    ensures d.log <= o.state.log && o.state.reasons == d.reasons
  {
    match Advance(commands, index, p, r, jb)
    case Issued(k, q, cmd) => RunOutcome(Drain(Enqueue(d, Entry(Wire(cmd, jb), c))), k, q, false)
    case Finished(k, post) => RunOutcome(PostTo(d, post), k, p, false)
    case Exhausted(k) => RunOutcome(d, k, p, true)
  }

  /** The state `next` leaves: dispatch state, property store, and the chain's cursor, parameters and deletion. */
  datatype Effect = Effect(state: DispatchState, props: Props, index: int, params: NetworkParams, deleted: bool)

  /**
   * next(c, err, r).  On success, Run.  On error: without a handler the chain is
   * only deleted; with one, the handler (which sees mError set) posts the failure,
   * starts its rollback chain `rollback` if it has one, turns rndis off if it is
   * the USB handler, and then the failing chain is deleted.
   */
  function NextSpec(d: DispatchState, props: Props, c: CommandChain, index: int, p: NetworkParams,
                    err: bool, r: NetworkResult, jb: bool, rollback: CommandChain?): (e: Effect)
    ensures d.log <= e.state.log && e.state.reasons == d.reasons
    ensures err ==> e.deleted && e.index == index
    ensures e.props.Keys <= props.Keys + {SysUsbConfigProperty}
    ensures forall k :: k in props && k != SysUsbConfigProperty ==> k in e.props && e.props[k] == props[k]
  {
    if !err then
      var o := Run(d, c, c.commands, index, p, r, jb);
      Effect(o.state, props, o.index, o.params, o.deleted)
    else
      match c.onError
      case None => Effect(d, props, index, p, true)
      case Some(h) =>
        var f := FailAction(h, p, r.(error := Some(true)));
        var d1 := PostTo(d, f.post);
        var d2 := if f.rollback.Some? && rollback != null
                  then Run(d1, rollback, RollbackTable(h), -1, f.rollback.value, EmptyResult, jb).state
                  else d1;
        Effect(d2, if f.disableRndis then UsbConfigUpdate(props, false) else props, index, f.params, true)
  }

  // ---------------------------------------------------------------------------
  // properties of nextNetdCommand and doCommand
  // ---------------------------------------------------------------------------

  /** nextNetdCommand does nothing while a command is pending or nothing is queued. */
  lemma DrainIdle(d: DispatchState)
    requires d.queue == [] || d.pending
    ensures Drain(d) == d
  {
  }

  /**
   * Otherwise it removes exactly the head of the queue, sends it, and makes its
   * chain the one the next reply goes to; the gathered reasons stay.
   */
  lemma DrainSendsHead(d: DispatchState)
    requires d.queue != [] && !d.pending
    ensures var d2 := Drain(d);
      && d2.queue == d.queue[1..]
      && d2.log == d.log + [Sent(d.queue[0].command)]
      && d2.pending && d2.callbackSet
      && d2.current == d.queue[0].chain
      && d2.currentCommand == d.queue[0].command.data
      && d2.reasons == d.reasons
  {
  }

  /** At most one command is sent at a time: a second nextNetdCommand sends nothing. */
  lemma DrainIdempotent(d: DispatchState)
    ensures Drain(Drain(d)) == Drain(d)
  {
  }

  /** The commands handed to the transport, in order. */
  function Sends(log: seq<Output>): seq<NetdCommand>
  {
    if log == [] then []
    else Sends(log[..|log| - 1]) + (if log[|log| - 1].Sent? then [log[|log| - 1].command] else [])
  }

  /** The queued commands, head first. */
  function Queued(q: seq<Entry>): seq<NetdCommand>
  {
    if q == [] then [] else [q[0].command] + Queued(q[1..])
  }

  /** Everything ever given to doCommand: what was sent, then what is still queued. */
  function Pipeline(d: DispatchState): seq<NetdCommand>
  {
    Sends(d.log) + Queued(d.queue)
  }

  lemma {:induction false} QueuedAppend(q: seq<Entry>, e: Entry)
    ensures Queued(q + [e]) == Queued(q) + [e.command]
    decreases |q|
  {
    if q == [] {
      assert [] + [e] == [e];
    } else {
      assert (q + [e])[1..] == q[1..] + [e];
      QueuedAppend(q[1..], e);
    }
  }

  lemma SendsSnoc(log: seq<Output>, o: Output)
    ensures Sends(log + [o]) == Sends(log) + (if o.Sent? then [o.command] else [])
  {
    assert (log + [o])[..|log + [o]| - 1] == log;
  }

  /**
   * FIFO: doCommand puts its command at the end of the pipeline, and neither
   * nextNetdCommand nor a post reorders it, so netd receives the commands in
   * exactly the order they were issued.
   */
  lemma PipelineFifo(d: DispatchState, e: Entry, r: NetworkResult)
    ensures Pipeline(Enqueue(d, e)) == Pipeline(d) + [e.command]
    ensures Pipeline(Drain(d)) == Pipeline(d)
    ensures Pipeline(PostTo(d, r)) == Pipeline(d)
  {
    QueuedAppend(d.queue, e);
    SendsSnoc(d.log, Posted(r));
    if d.queue != [] && !d.pending {
      SendsSnoc(d.log, Sent(d.queue[0].command));
    }
  }

  /** doCommand while a command is pending only queues: nothing is sent. */
  lemma DoCommandWhilePending(d: DispatchState, e: Entry)
    requires d.pending
    ensures Drain(Enqueue(d, e)) == d.(queue := d.queue + [e])
  {
  }

  /** doCommand on an idle engine with an empty queue sends its command at once. */
  lemma DoCommandWhenIdle(d: DispatchState, e: Entry)
    requires !d.pending && d.queue == []
    ensures Drain(Enqueue(d, e)) ==
      d.(pending := true, callbackSet := true, current := e.chain, currentCommand := e.command.data,
         log := d.log + [Sent(e.command)])
  {
    assert (d.queue + [e])[1..] == [];
  }

  // ---------------------------------------------------------------------------
  // the invariant of the engine
  // ---------------------------------------------------------------------------

  function SentCount(log: seq<Output>): nat
  {
    |Sends(log)|
  }

  /**
   * Every command sent has been answered by a final reply, except the pending
   * one: with `answered` final replies so far, at most one command is outstanding.
   */
  predicate Balanced(d: DispatchState, answered: nat)
  {
    SentCount(d.log) == answered + (if d.pending then 1 else 0)
  }

  /** The queue never stalls: whenever something is queued, a command is outstanding. */
  predicate NoStall(d: DispatchState)
  {
    d.queue != [] ==> d.pending
  }

  /** The callback is only ever set together with a chain. */
  predicate Wired(d: DispatchState)
  {
    d.callbackSet ==> d.current != null
  }

  predicate Steady(d: DispatchState, answered: nat)
  {
    Balanced(d, answered) && NoStall(d) && Wired(d)
  }

  lemma InitialSteady()
    ensures Steady(Initial, 0)
  {
  }

  /** nextNetdCommand always leaves the queue flowing and keeps the balance and the wiring. */
  lemma DrainKeeps(d: DispatchState, n: nat)
    ensures NoStall(Drain(d))
    ensures Balanced(d, n) ==> Balanced(Drain(d), n)
    ensures Wired(d) ==> Wired(Drain(d))
  {
    if d.queue != [] && !d.pending {
      SendsSnoc(d.log, Sent(d.queue[0].command));
    }
  }

  lemma PostKeeps(d: DispatchState, r: NetworkResult, n: nat)
    ensures Balanced(d, n) ==> Balanced(PostTo(d, r), n)
    ensures NoStall(d) ==> NoStall(PostTo(d, r))
    ensures Wired(d) ==> Wired(PostTo(d, r))
  {
    SendsSnoc(d.log, Posted(r));
  }

  lemma BroadcastKeeps(d: DispatchState, code: uint32, n: nat)
    ensures Steady(d, n) ==> Steady(PostBroadcast(d, code), n)
    ensures PostBroadcast(d, code).pending == d.pending && PostBroadcast(d, code).reasons == d.reasons
    ensures PostBroadcast(d, code).callbackSet == d.callbackSet && PostBroadcast(d, code).current == d.current
  {
    if BroadcastTopic(code).Some? {
      PostKeeps(d, BroadcastResult(BroadcastTopic(code).value), n);
    }
  }

  /** `next` on a success keeps the balance and the wiring, and keeps a flowing queue flowing. */
  lemma RunKeeps(d: DispatchState, c: CommandChain, commands: seq<Step>, index: int, p: NetworkParams,
                 r: NetworkResult, jb: bool, n: nat)
    ensures var s := Run(d, c, commands, index, p, r, jb).state;
      && (Balanced(d, n) ==> Balanced(s, n))
      && (Wired(d) ==> Wired(s))
      && (NoStall(d) ==> NoStall(s))
      && s.reasons == d.reasons
  {
    match Advance(commands, index, p, r, jb)
    case Issued(k, q, cmd) =>
      var e := Entry(Wire(cmd, jb), c);
      DrainKeeps(Enqueue(d, e), n);
    case Finished(k, post) =>
      PostKeeps(d, post, n);
    case Exhausted(k) =>
  }

  /** The whole of `next`, error path included, keeps the balance and the wiring and leaves the reasons alone. */
  lemma NextKeeps(d: DispatchState, props: Props, c: CommandChain, index: int, p: NetworkParams,
                  err: bool, r: NetworkResult, jb: bool, rollback: CommandChain?, n: nat)
    ensures var s := NextSpec(d, props, c, index, p, err, r, jb, rollback).state;
      && (Balanced(d, n) ==> Balanced(s, n))
      && (Wired(d) ==> Wired(s))
      && (NoStall(d) ==> NoStall(s))
      && s.reasons == d.reasons
  {
    if !err {
      RunKeeps(d, c, c.commands, index, p, r, jb, n);
    } else if c.onError.Some? {
      var h := c.onError.value;
      var f := FailAction(h, p, r.(error := Some(true)));
      var d1 := PostTo(d, f.post);
      PostKeeps(d, f.post, n);
      if f.rollback.Some? && rollback != null {
        RunKeeps(d1, rollback, RollbackTable(h), -1, f.rollback.value, EmptyResult, jb, n);
      }
    }
  }

  /**
   * A failing tethering chain reports the failure before anything of its
   * rollback is queued, and its rollback's first command is "softap stopap".
   */
  lemma FailureBeforeRollback(d: DispatchState, props: Props, c: CommandChain, index: int, p: NetworkParams,
                              r: NetworkResult, jb: bool, rollback: CommandChain)
    requires c.onError == Some(WifiTetheringFail) || c.onError == Some(UsbTetheringFail)
    ensures var f := FailAction(c.onError.value, p, r.(error := Some(true)));
      NextSpec(d, props, c, index, p, true, r, jb, rollback).state
        == Drain(Enqueue(PostTo(d, f.post), Entry(Wire("softap stopap", jb), rollback)))
  {
    var h := c.onError.value;
    var f := FailAction(h, p, r.(error := Some(true)));
    RollbackStarts(h, f.rollback.value, EmptyResult, jb);
  }
}
